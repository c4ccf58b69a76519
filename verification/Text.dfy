/**
  Byte strings. A Rust `&str` or `&[u8]` is modelled as a Dafny string whose
  characters stand for bytes (0..255); keys, salts and digests are sequences of
  `byte`. The functions follow the Rust standard library calls of the same shape:
  `split`, `split_once`, `strip_prefix`.
*/
module Text {
  import opened Wrappers

  type byte = b: int | 0 <= b < 256

  /** The 32-byte result of SHA-256 and of HMAC-SHA-256. */
  type Digest = d: seq<byte> | |d| == 32 witness seq(32, _ => 0)

  predicate Free(s: string, c: char) {
    forall i :: 0 <= i < |s| ==> s[i] != c
  }

  lemma FreeConcat(s: string, t: string, c: char)
    ensures Free(s + t, c) <==> Free(s, c) && Free(t, c)
  {
    var u := s + t;
    if Free(u, c) {
      forall i | 0 <= i < |s| ensures s[i] != c { assert u[i] == s[i]; }
      forall i | 0 <= i < |t| ensures t[i] != c { assert u[|s| + i] == t[i]; }
    }
  }

  function StripPrefix(s: string, p: string): Option<string> {
    if p <= s then Some(s[|p|..]) else None
  }

  lemma StripPrefixConcat(p: string, s: string)
    ensures StripPrefix(p + s, p) == Some(s)
  {
    assert p <= p + s;
    assert (p + s)[|p|..] == s;
  }

  /** `str::split_once(c)`: cut at the first occurrence of `c`. */
  function SplitOnce(s: string, c: char): Option<(string, string)> {
    if s == [] then None
    else if s[0] == c then Some(([], s[1..]))
    else match SplitOnce(s[1..], c)
      case None => None
      case Some((l, r)) => Some(([s[0]] + l, r))
  }

  /** `split_once` finds exactly the decomposition whose left half is free of the separator. */
  lemma {:induction false} SplitOnceExact(s: string, c: char, l: string, r: string)
    ensures SplitOnce(s, c) == Some((l, r)) <==> s == l + [c] + r && Free(l, c)
  {
    if s == [] {
    } else if s[0] == c {
      if s == l + [c] + r && Free(l, c) {
        assert (l + [c] + r)[0] == c;
        assert l == [];
        assert s == [c] + r;
      } else {
        assert s == [] + [c] + s[1..];
      }
    } else if l == [] {
      assert (l + [c] + r)[0] == c;
    } else {
      SplitOnceExact(s[1..], c, l[1..], r);
      if s == l + [c] + r && Free(l, c) {
        assert s[1..] == l[1..] + [c] + r;
        assert Free(l[1..], c);
        assert l == [s[0]] + l[1..];
      }
      if SplitOnce(s, c) == Some((l, r)) {
        assert l == [s[0]] + l[1..];
        assert s == [s[0]] + s[1..];
        forall i | 0 <= i < |l| ensures l[i] != c { if i > 0 { assert l[i] == l[1..][i - 1]; } }
      }
    }
  }

  lemma {:induction false} SplitOnceNone(s: string, c: char)
    ensures SplitOnce(s, c) == None <==> Free(s, c)
  {
    if s != [] {
      SplitOnceNone(s[1..], c);
      assert s == [s[0]] + s[1..];
      FreeConcat([s[0]], s[1..], c);
    }
  }

  /** `str::split(c)`: the maximal separator-free pieces, in order; never empty. */
  function Split(s: string, c: char): (parts: seq<string>)
    ensures |parts| > 0
    decreases |s|
  {
    match SplitOnce(s, c)
    case None => [s]
    case Some((l, r)) =>
      SplitOnceExact(s, c, l, r);
      [l] + Split(r, c)
  }

  function Join(parts: seq<string>, c: char): string
    requires |parts| > 0
  {
    if |parts| == 1 then parts[0] else parts[0] + [c] + Join(parts[1..], c)
  }

  /** Splitting loses nothing, and every piece is free of the separator. */
  lemma {:induction false} JoinSplit(s: string, c: char)
    ensures Join(Split(s, c), c) == s
    ensures forall p :: p in Split(s, c) ==> Free(p, c)
    decreases |s|
  {
    SplitOnceNone(s, c);
    match SplitOnce(s, c)
    case None =>
    case Some((l, r)) =>
      SplitOnceExact(s, c, l, r);
      JoinSplit(r, c);
      assert ([l] + Split(r, c))[1..] == Split(r, c);
  }

  /** Joining separator-free pieces is undone by splitting. */
  lemma {:induction false} SplitJoin(parts: seq<string>, c: char)
    requires |parts| > 0
    requires forall p :: p in parts ==> Free(p, c)
    ensures Split(Join(parts, c), c) == parts
  {
    var s := Join(parts, c);
    if |parts| == 1 {
      SplitOnceNone(s, c);
      assert Split(s, c) == [parts[0]];
    } else {
      SplitJoin(parts[1..], c);
      assert parts[0] in parts;
      SplitOnceExact(s, c, parts[0], Join(parts[1..], c));
    }
  }

  // ---------------------------------------------------------------------------
  // UTF-8 (section 4 of RFC 3629), the check `str::from_utf8` makes
  // ---------------------------------------------------------------------------

  predicate Tail(c: char) { 0x80 <= c as int <= 0xBF }

  /** Length of the encoded character at the front of `s`, 0 when there is none. */
  function Utf8Step(s: string): (k: nat)
    ensures k <= |s|
    ensures forall j :: 1 <= j < k ==> Tail(s[j])
  {
    if s == [] then 0
    else var b := s[0] as int;
      if b <= 0x7F then 1
      else if 0xC2 <= b <= 0xDF && |s| >= 2 && Tail(s[1]) then 2
      else if 0xE0 <= b <= 0xEF && |s| >= 3 && Tail(s[1]) && Tail(s[2])
              && (b == 0xE0 ==> 0xA0 <= s[1] as int) && (b == 0xED ==> s[1] as int <= 0x9F) then 3
      else if 0xF0 <= b <= 0xF4 && |s| >= 4 && Tail(s[1]) && Tail(s[2]) && Tail(s[3])
              && (b == 0xF0 ==> 0x90 <= s[1] as int) && (b == 0xF4 ==> s[1] as int <= 0x8F) then 4
      else 0
  }

  predicate Utf8(s: string) {
    s == [] || (Utf8Step(s) > 0 && Utf8(s[Utf8Step(s)..]))
  }

  lemma {:induction false} Utf8Concat(s: string, t: string)
    requires Utf8(s) && Utf8(t)
    ensures Utf8(s + t)
  {
    if s == [] {
      assert s + t == t;
    } else {
      var k := Utf8Step(s);
      assert Utf8Step(s + t) == k;
      assert (s + t)[k..] == s[k..] + t;
      Utf8Concat(s[k..], t);
    }
  }

  predicate Ascii(s: string) {
    forall i :: 0 <= i < |s| ==> s[i] as int <= 0x7F
  }

  lemma {:induction false} AsciiIsUtf8(s: string)
    requires Ascii(s)
    ensures Utf8(s)
  {
    if s != [] {
      AsciiIsUtf8(s[1..]);
    }
  }

  /** An encoded character does not reach an ASCII byte behind it. */
  lemma StepEndsBefore(s: string, i: nat)
    requires 0 < i < |s| && s[i] as int <= 0x7F
    ensures Utf8Step(s) <= i && Utf8Step(s[..i]) == Utf8Step(s)
  {
    assert !Tail(s[i]);
  }

  /** Cutting valid UTF-8 at an ASCII byte leaves valid UTF-8 on both sides. */
  lemma {:induction false} Utf8CutAtAscii(s: string, i: nat)
    requires Utf8(s) && i < |s| && s[i] as int <= 0x7F
    ensures Utf8(s[..i]) && Utf8(s[i + 1..])
  {
    var k := Utf8Step(s);
    if i == 0 {
      assert k == 1;
    } else {
      StepEndsBefore(s, i);
      Utf8CutAtAscii(s[k..], i - k);
      assert s[k..][..i - k] == s[k..i];
      assert s[k..][i - k + 1..] == s[i + 1..];
      assert s[..i][k..] == s[k..i];
    }
  }

  lemma Utf8Halves(l: string, c: char, r: string)
    requires Utf8(l + [c] + r) && c as int <= 0x7F
    ensures Utf8(l) && Utf8(r)
  {
    var s := l + [c] + r;
    Utf8CutAtAscii(s, |l|);
    assert s[..|l|] == l && s[|l| + 1..] == r;
  }

  /** Every piece of a comma-separated UTF-8 message is UTF-8. */
  lemma {:induction false} Utf8Split(s: string, c: char)
    requires Utf8(s) && c as int <= 0x7F
    ensures forall p :: p in Split(s, c) ==> Utf8(p)
    decreases |s|
  {
    match SplitOnce(s, c)
    case None =>
    case Some((l, r)) =>
      SplitOnceExact(s, c, l, r);
      Utf8Halves(l, c, r);
      Utf8Split(r, c);
  }
}
