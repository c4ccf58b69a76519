/**
  Base64 with the standard alphabet (section 4 of RFC 4648), as the `STANDARD`
  and `STANDARD_NO_PAD` engines implement it: the decoder insists on canonical
  padding and on zero trailing bits.
*/
module Base64 {
  import opened Wrappers
  import opened Text

  type sextet = x: int | 0 <= x < 64

  function CharOf(x: sextet): (c: char)
    ensures c != '=' && c as int <= 0x7F
  {
    if x < 26 then ('A' as int + x) as char
    else if x < 52 then ('a' as int + (x - 26)) as char
    else if x < 62 then ('0' as int + (x - 52)) as char
    else if x == 62 then '+' else '/'
  }

  function SextetOf(c: char): Option<sextet> {
    if 'A' <= c <= 'Z' then Some(c as int - 'A' as int)
    else if 'a' <= c <= 'z' then Some(c as int - 'a' as int + 26)
    else if '0' <= c <= '9' then Some(c as int - '0' as int + 52)
    else if c == '+' then Some(62)
    else if c == '/' then Some(63)
    else None
  }

  lemma CharSextet(c: char, x: sextet)
    ensures SextetOf(c) == Some(x) <==> CharOf(x) == c
  {
  }

  /** One to three bytes as one quantum of four characters, padded with '='. */
  function Quantum(b: seq<byte>): (t: string)
    requires 1 <= |b| <= 3
    ensures |t| == 4
  {
    var b1 := if |b| > 1 then b[1] else 0;
    var b2 := if |b| > 2 then b[2] else 0;
    [CharOf(b[0] / 4), CharOf(b[0] % 4 * 16 + b1 / 16)]
    + (if |b| == 1 then "==" else
       [CharOf(b1 % 16 * 4 + b2 / 64)] + if |b| == 2 then "=" else [CharOf(b2 % 64)])
  }

  /** Reading one quantum; padding is accepted only where the writer puts it, over zero bits. */
  function Unquantum(t: string): (b: Option<seq<byte>>)
    requires |t| == 4
    ensures b.Some? ==> 1 <= |b.value| <= 3
  {
    match (SextetOf(t[0]), SextetOf(t[1]), SextetOf(t[2]), SextetOf(t[3]))
    case (Some(p), Some(q), Some(r), Some(s)) => Some(Regroup(p, q, r, s))
    case (Some(p), Some(q), Some(r), None) =>
      if t[3] == '=' && r % 4 == 0 then Some(Regroup(p, q, r, 0)[..2]) else None
    case (Some(p), Some(q), None, None) =>
      if t[2] == t[3] == '=' && q % 16 == 0 then Some(Regroup(p, q, 0, 0)[..1]) else None
    case _ => None
  }

  /** Four sextets as three bytes. */
  function Regroup(p: sextet, q: sextet, r: sextet, s: sextet): (b: seq<byte>)
    ensures |b| == 3
    ensures b[0] / 4 == p && b[0] % 4 * 16 + b[1] / 16 == q && b[1] % 16 * 4 + b[2] / 64 == r && b[2] % 64 == s
  {
    var a: byte, b: byte, c: byte := p * 4 + q / 16, q % 16 * 16 + r / 4, r % 4 * 64 + s;
    [a, b, c]
  }

  lemma RegroupBytes(a: byte, b: byte, c: byte)
    ensures Regroup(a / 4, a % 4 * 16 + b / 16, b % 16 * 4 + c / 64, c % 64) == [a, b, c]
  {
    Halves(a, 4, 16, b / 16);
    Halves(b, 16, 4, c / 64);
  }

  /** A byte cut in two, its lower part packed in front of the next byte's upper part. */
  lemma Halves(a: byte, low: nat, shift: nat, next: nat)
    requires (low == 4 && shift == 16) || (low == 16 && shift == 4)
    requires next < shift
    ensures (a % low * shift + next) / shift == a % low && (a % low * shift + next) % shift == next
    ensures a / low * low + a % low == a
  {
  }

  lemma UnquantumQuantum(b: seq<byte>)
    requires 1 <= |b| <= 3
    ensures Unquantum(Quantum(b)) == Some(b)
  {
    if |b| == 1 {
      assert b == [b[0]];
      UnquantumOne(b[0]);
    } else if |b| == 2 {
      assert b == [b[0], b[1]];
      UnquantumTwo(b[0], b[1]);
    } else {
      assert b == [b[0], b[1], b[2]];
      UnquantumThree(b[0], b[1], b[2]);
    }
  }

  lemma UnquantumOne(a: byte)
    ensures Unquantum(Quantum([a])) == Some([a])
  {
    var t := Quantum([a]);
    CharSextet(t[0], a / 4);
    CharSextet(t[1], a % 4 * 16);
    RegroupBytes(a, 0, 0);
    assert [a, 0, 0][..1] == [a];
  }

  lemma UnquantumTwo(a: byte, b: byte)
    ensures Unquantum(Quantum([a, b])) == Some([a, b])
  {
    var t := Quantum([a, b]);
    CharSextet(t[0], a / 4);
    CharSextet(t[1], a % 4 * 16 + b / 16);
    CharSextet(t[2], b % 16 * 4);
    RegroupBytes(a, b, 0);
    assert [a, b, 0][..2] == [a, b];
  }

  lemma UnquantumThree(a: byte, b: byte, c: byte)
    ensures Unquantum(Quantum([a, b, c])) == Some([a, b, c])
  {
    var t := Quantum([a, b, c]);
    CharSextet(t[0], a / 4);
    CharSextet(t[1], a % 4 * 16 + b / 16);
    CharSextet(t[2], b % 16 * 4 + c / 64);
    CharSextet(t[3], c % 64);
    RegroupBytes(a, b, c);
  }

  lemma QuantumUnquantum(t: string)
    requires |t| == 4 && Unquantum(t).Some?
    ensures Quantum(Unquantum(t).value) == t
  {
    forall i | 0 <= i < 4 && SextetOf(t[i]).Some? ensures CharOf(SextetOf(t[i]).value) == t[i] {
      CharSextet(t[i], SextetOf(t[i]).value);
    }
    match (SextetOf(t[0]), SextetOf(t[1]), SextetOf(t[2]), SextetOf(t[3]))
    case (Some(p), Some(q), Some(r), Some(s)) =>
    case (Some(p), Some(q), Some(r), None) =>
      var c := Regroup(p, q, r, 0)[2];
      assert c == 0;
    case (Some(p), Some(q), None, None) =>
      var b := Regroup(p, q, 0, 0)[1];
      assert b == 0;
  }

  function Encode(b: seq<byte>): string {
    if b == [] then [] else if |b| <= 3 then Quantum(b) else Quantum(b[..3]) + Encode(b[3..])
  }

  /** The same text without its trailing padding. */
  function EncodeNoPad(b: seq<byte>): string {
    if b == [] then [] else if |b| <= 3 then Quantum(b)[..|b| + 1] else Quantum(b[..3]) + EncodeNoPad(b[3..])
  }

  /** Only the last quantum may hold fewer than three bytes. */
  function Decode(t: string): Option<seq<byte>> {
    if t == [] then Some([])
    else if |t| < 4 then None
    else match Unquantum(t[..4])
      case None => None
      case Some(b) =>
        if |t| == 4 then Some(b)
        else if |b| < 3 then None
        else match Decode(t[4..])
          case None => None
          case Some(rest) => Some(b + rest)
  }

  /** Decoding and encoding are inverse in both directions: each byte string has exactly one accepted text. */
  lemma DecodeExact(t: string, b: seq<byte>)
    ensures Decode(t) == Some(b) <==> Encode(b) == t
  {
    if Decode(t) == Some(b) { EncodeDecode(t, b); }
    DecodeEncode(b);
  }

  lemma {:induction false} DecodeEncode(b: seq<byte>)
    ensures Decode(Encode(b)) == Some(b)
  {
    var t := Encode(b);
    if b == [] {
    } else if |b| <= 3 {
      UnquantumQuantum(b);
      assert t[..4] == t;
    } else {
      UnquantumQuantum(b[..3]);
      DecodeEncode(b[3..]);
      assert t[..4] == Quantum(b[..3]) && t[4..] == Encode(b[3..]);
      assert b == b[..3] + b[3..];
    }
  }

  lemma {:induction false} EncodeDecode(t: string, b: seq<byte>)
    requires Decode(t) == Some(b)
    ensures Encode(b) == t
  {
    if t != [] {
      QuantumUnquantum(t[..4]);
      var front := Unquantum(t[..4]).value;
      assert t == t[..4] + t[4..];
      if |t| > 4 {
        var rest := Decode(t[4..]).value;
        EncodeDecode(t[4..], rest);
        assert b[..3] == front && b[3..] == rest;
        assert rest != [];
      }
    }
  }

  /** Base64 text is ASCII and clear of the characters the SCRAM syntax uses as separators. */
  lemma {:induction false} EncodeIsPlain(b: seq<byte>)
    ensures Ascii(Encode(b)) && Ascii(EncodeNoPad(b))
    ensures forall c :: c in {',', '$', ':'} ==> Free(Encode(b), c) && Free(EncodeNoPad(b), c)
    ensures b != [] ==> Encode(b) != [] && EncodeNoPad(b) != []
  {
    if |b| > 3 {
      EncodeIsPlain(b[3..]);
      var x := Quantum(b[..3]);
      QuantumIsPlain(b[..3]);
      forall c | c in {',', '$', ':'} ensures Free(Encode(b), c) && Free(EncodeNoPad(b), c) {
        FreeConcat(x, Encode(b[3..]), c);
        FreeConcat(x, EncodeNoPad(b[3..]), c);
      }
    } else if b != [] {
      QuantumIsPlain(b);
    }
  }

  lemma QuantumIsPlain(b: seq<byte>)
    requires 1 <= |b| <= 3
    ensures Ascii(Quantum(b))
    ensures forall c :: c in {',', '$', ':'} ==> Free(Quantum(b), c)
  {
    CharIsPlain();
  }

  lemma CharIsPlain()
    ensures forall x: sextet :: CharOf(x) !in {',', '$', ':'}
  {
  }

  // ---------------------------------------------------------------------------
  // Against the document
  // ---------------------------------------------------------------------------

  /** The alphabet of table 1 in section 4 of RFC 4648. */
  lemma AlphabetIs(x: sextet)
    ensures x < 26 ==> CharOf(x) == "ABCDEFGHIJKLMNOPQRSTUVWXYZ"[x]
    ensures 26 <= x < 52 ==> CharOf(x) == "abcdefghijklmnopqrstuvwxyz"[x - 26]
    ensures 52 <= x ==> CharOf(x) == "0123456789+/"[x - 52]
  {
  }

  /** Four sextets and three bytes that make the same 24-bit number, most significant first, are cut from each other. */
  lemma BigEndian(a: byte, b: byte, c: byte, p: sextet, q: sextet, r: sextet, s: sextet)
    requires a * 0x1_0000 + b * 0x100 + c == p * 0x4_0000 + q * 0x1000 + r * 0x40 + s
    ensures p == a / 4 && q == a % 4 * 16 + b / 16 && r == b % 16 * 4 + c / 64 && s == c % 64
  {
  }

  /** Four characters stand for one 24-bit number, most significant byte and character first. */
  lemma QuantumIsBigEndian(a: byte, b: byte, c: byte, p: sextet, q: sextet, r: sextet, s: sextet)
    requires a * 0x1_0000 + b * 0x100 + c == p * 0x4_0000 + q * 0x1000 + r * 0x40 + s
    ensures Encode([a, b, c]) == [CharOf(p), CharOf(q), CharOf(r), CharOf(s)]
  {
    BigEndian(a, b, c, p, q, r, s);
  }

  function Padding(n: nat): string { if n % 3 == 0 then "" else if n % 3 == 1 then "==" else "=" }

  /** The two engines differ in the padding alone. */
  lemma {:induction false} PaddingIs(b: seq<byte>)
    ensures Encode(b) == EncodeNoPad(b) + Padding(|b|)
  {
    if |b| > 3 {
      PaddingIs(b[3..]);
      assert Padding(|b|) == Padding(|b[3..]|);
    } else if b != [] {
      assert Quantum(b) == Quantum(b)[..|b| + 1] + Quantum(b)[|b| + 1..];
      assert Quantum(b)[|b| + 1..] == Padding(|b|);
    }
  }

  lemma {:induction false} NoPadLength(a: seq<byte>, b: seq<byte>)
    requires |a| == |b|
    ensures |EncodeNoPad(a)| == |EncodeNoPad(b)|
  {
    if |a| > 3 {
      NoPadLength(a[3..], b[3..]);
    }
  }

  /** Different bytes of one length have different texts without padding, too. */
  lemma NoPadInjective(a: seq<byte>, b: seq<byte>)
    requires |a| == |b| && EncodeNoPad(a) == EncodeNoPad(b)
    ensures a == b
  {
    PaddingIs(a);
    PaddingIs(b);
    DecodeEncode(a);
    DecodeEncode(b);
  }
}
