/** Names of anonymous portals: the in-place digit printer and the process-wide counter behind it. */
module PortalName {
  import opened Text
  import opened Decimal

  const PREFIX := "pgxport_"
  const U64_LIMIT: nat := 0x1_0000_0000_0000_0000

  lemma NumeralFits20(id: nat)
    requires id < U64_LIMIT
    ensures |Numeral(id)| <= 20
  {
    assert Pow10(4) == 10_000;
    assert Pow10(8) == 10_000 * Pow10(4);
    assert Pow10(12) == 10_000 * Pow10(8);
    assert Pow10(16) == 10_000 * Pow10(12);
    assert Pow10(20) == 10_000 * Pow10(16);
    NumeralLength(id, 20);
  }

  /** What `CreatePortal` reads from a NUL-terminated buffer. */
  function CString(buf: string): (s: string)
    ensures s <= buf && Free(s, '\0')
  {
    if buf == [] || buf[0] == '\0' then [] else [buf[0]] + CString(buf[1..])
  }

  lemma {:induction false} CStringStops(s: string, rest: string)
    requires Free(s, '\0') && rest != [] && rest[0] == '\0'
    ensures CString(s + rest) == s
  {
    if s == [] {
      assert s + rest == rest;
    } else {
      assert (s + rest)[1..] == s[1..] + rest;
      CStringStops(s[1..], rest);
    }
  }

  /** The digit loop: least significant digit first, from the end of a 20-byte scratch array. */
  method WriteDigits(id: nat, digits: array<char>) returns (d: nat)
    requires id < U64_LIMIT && digits.Length == 20
    modifies digits
    ensures d <= 20 && digits[d..] == Numeral(id)
  {
    NumeralFits20(id);
    d := digits.Length;
    if id == 0 {
      d := d - 1;
      digits[d] := '0';
    } else {
      var n := id;
      while n > 0
        invariant 0 <= d <= 20
        invariant n > 0 ==> |Numeral(n)| + (20 - d) == |Numeral(id)|
        invariant Numeral(id) == (if n <= 0 then [] else Numeral(n)) + digits[d..]
      {
        ghost var tail := digits[d..];
        d := d - 1;
        digits[d] := Digit(n % 10);
        assert digits[d..] == [Digit(n % 10)] + tail;
        n := n / 10;
      }
    }
  }

  /** The used digits are copied behind the prefix of a zeroed 32-byte buffer. */
  method PrintName(id: nat) returns (name: string)
    requires id < U64_LIMIT
    ensures |name| == 32
    ensures CString(name) == PREFIX + Numeral(id)
    ensures forall i :: |PREFIX + Numeral(id)| <= i < 32 ==> name[i] == '\0'
  {
    var digits := new char[20](_ => '\0');
    var d := WriteDigits(id, digits);
    var digitLen := digits.Length - d;
    var buf := new char[32](_ => '\0');
    forall i | 0 <= i < 8 { buf[i] := PREFIX[i]; }
    forall i | 0 <= i < digitLen { buf[8 + i] := digits[d + i]; }
    name := buf[..];
    NameBuffer(name, Numeral(id));
  }

  lemma NameBuffer(name: string, numeral: string)
    requires |name| == 32 && |numeral| <= 20 && Free(numeral, '\0')
    requires forall i :: 0 <= i < 8 ==> name[i] == PREFIX[i]
    requires forall i :: 0 <= i < |numeral| ==> name[8 + i] == numeral[i]
    requires forall i :: 8 + |numeral| <= i < 32 ==> name[i] == '\0'
    ensures CString(name) == PREFIX + numeral
  {
    var end := 8 + |numeral|;
    assert name[..end] == PREFIX + numeral;
    assert name == name[..end] + name[end..];
    FreeConcat(PREFIX, numeral, '\0');
    CStringStops(PREFIX + numeral, name[end..]);
  }

  lemma NamesDistinct(a: nat, b: nat)
    requires PREFIX + Numeral(a) == PREFIX + Numeral(b)
    ensures a == b
  {
    assert (PREFIX + Numeral(a))[8..] == Numeral(a);
    assert (PREFIX + Numeral(b))[8..] == Numeral(b);
    NumeralInjective(a, b);
  }

  /** The static counter; `fetch_add` wraps at 2^64. */
  class PortalNames {
    var nextId: nat

    constructor ()
      ensures nextId == 0
    {
      nextId := 0;
    }

    method CreateAnonymous() returns (name: string)
      requires nextId < U64_LIMIT
      modifies this
      ensures nextId == (old(nextId) + 1) % U64_LIMIT
      ensures CString(name) == PREFIX + Numeral(old(nextId))
    {
      name := PrintName(nextId);
      nextId := (nextId + 1) % U64_LIMIT;
    }
  }

  /** A process that creates `n` anonymous portals, one after the other. */
  method CreateMany(n: nat) returns (names: seq<string>)
    ensures |names| == n && forall k :: 0 <= k < n ==> CString(names[k]) == NameOfCall(k)
  {
    var source := new PortalNames();
    names := [];
    for k := 0 to n
      invariant source.nextId == k % U64_LIMIT && |names| == k
      invariant forall i :: 0 <= i < k ==> CString(names[i]) == NameOfCall(i)
    {
      var name := source.CreateAnonymous();
      NextIdAfter(k);
      names := names + [name];
    }
  }

  lemma NextIdAfter(k: nat)
    ensures (k % U64_LIMIT + 1) % U64_LIMIT == (k + 1) % U64_LIMIT
  {
  }

  /** The name given by the k-th call, counting from 0. */
  function NameOfCall(k: nat): string {
    PREFIX + Numeral(k % U64_LIMIT)
  }

  /** The first two names a process gives. */
  lemma FirstNames()
    ensures NameOfCall(0) == "pgxport_0" && NameOfCall(1) == "pgxport_1"
  {
  }

  /** Two calls share a name exactly when a multiple of 2^64 calls separates them. */
  lemma NamesRepeatOnlyAfterWrap(j: nat, k: nat)
    ensures NameOfCall(j) == NameOfCall(k) <==> j % U64_LIMIT == k % U64_LIMIT
  {
    if NameOfCall(j) == NameOfCall(k) {
      NamesDistinct(j % U64_LIMIT, k % U64_LIMIT);
    }
  }
}
