/** Classification of the stored credential string and the round trip of the SCRAM verifier format. */
module RolPassword {
  import opened Wrappers
  import opened Text
  import opened Base64
  import opened Decimal
  import opened Scram

  datatype Credential = NoPassword | ScramVerifier(verifier: Verifier) | Md5(hash: string) | UnknownRole | Unsupported

  const SCRAM_PREFIX := "SCRAM-SHA-256$"

  predicate IsHexDigit(c: char) { '0' <= c <= '9' || 'a' <= c <= 'f' || 'A' <= c <= 'F' }

  function ParseVerifier(s: string): Credential {
    match StripPrefix(s, SCRAM_PREFIX)
    case Some(body) => (match ParseScram(body) case Some(v) => ScramVerifier(v) case None => Unsupported)
    case None =>
      match StripPrefix(s, "md5")
      case Some(rest) =>
        if |rest| == 32 && forall i :: 0 <= i < |rest| ==> IsHexDigit(rest[i]) then Md5(rest) else Unsupported
      case None => Unsupported
  }

  function ParseScram(body: string): Option<Verifier> {
    match SplitOnce(body, '$')
    case None => None
    case Some((left, right)) =>
      match (SplitOnce(left, ':'), SplitOnce(right, ':'))
      case (Some((iters, salt)), Some((stored, server))) =>
        (match (ParseU32(iters), Decode(salt), Decode(stored), Decode(server))
         case (Some(i), Some(sa), Some(st), Some(se)) =>
           if i < 4096 || |st| != 32 || |se| != 32 then None else Some(Verifier(i, sa, st, se))
         case _ => None)
      case _ => None
  }

  /** The stored form, with the iteration count spelled as `iters`. */
  function Render(iters: string, v: Verifier): string {
    SCRAM_PREFIX + Body(iters, v)
  }

  function Body(iters: string, v: Verifier): string {
    iters + ":" + Encode(v.salt) + "$" + Encode(v.storedKey) + ":" + Encode(v.serverKey)
  }

  predicate Storable(v: Verifier) {
    4096 <= v.iterations < U32_LIMIT && |v.storedKey| == 32 && |v.serverKey| == 32
  }

  lemma ParseBody(iters: string, v: Verifier)
    requires ParseU32(iters) == Some(v.iterations) && Storable(v)
    ensures ParseScram(Body(iters, v)) == Some(v)
  {
    U32TextIsPlain(iters);
    EncodeIsPlain(v.salt);
    EncodeIsPlain(v.storedKey);
    EncodeIsPlain(v.serverKey);
    var left, right := iters + ":" + Encode(v.salt), Encode(v.storedKey) + ":" + Encode(v.serverKey);
    assert Body(iters, v) == left + "$" + right;
    FreeConcat(iters + ":", Encode(v.salt), '$');
    FreeConcat(iters, ":", '$');
    SplitOnceExact(left + "$" + right, '$', left, right);
    SplitOnceExact(left, ':', iters, Encode(v.salt));
    SplitOnceExact(right, ':', Encode(v.storedKey), Encode(v.serverKey));
    DecodeEncode(v.salt);
    DecodeEncode(v.storedKey);
    DecodeEncode(v.serverKey);
  }

  lemma U32TextIsPlain(t: string)
    requires ParseU32(t).Some?
    ensures Free(t, ':') && Free(t, '$')
  {
    var digits := if t[0] == '+' then t[1..] else t;
    forall i | 0 <= i < |t| ensures t[i] != ':' && t[i] != '$' {
      if t[0] == '+' {
        if i > 0 { assert t[i] == digits[i - 1] && IsDigit(digits[i - 1]); }
      } else {
        assert t[i] == digits[i] && IsDigit(digits[i]);
      }
    }
  }

  lemma ParsedBodyIs(body: string, v: Verifier) returns (iters: string)
    requires ParseScram(body) == Some(v)
    ensures ParseU32(iters) == Some(v.iterations) && Storable(v) && body == Body(iters, v)
  {
    var (left, right) := SplitOnce(body, '$').value;
    var (count, salt) := SplitOnce(left, ':').value;
    var (stored, server) := SplitOnce(right, ':').value;
    iters := count;
    KeysAre(salt, stored, server, v);
    FourFields(body, left, right, count, salt, stored, server);
  }

  lemma FourFields(body: string, left: string, right: string,
                   count: string, salt: string, stored: string, server: string)
    requires SplitOnce(body, '$') == Some((left, right))
    requires SplitOnce(left, ':') == Some((count, salt)) && SplitOnce(right, ':') == Some((stored, server))
    ensures body == count + ":" + salt + "$" + stored + ":" + server
  {
    SplitOnceExact(body, '$', left, right);
    SplitOnceExact(left, ':', count, salt);
    SplitOnceExact(right, ':', stored, server);
  }

  lemma KeysAre(salt: string, stored: string, server: string, v: Verifier)
    requires Decode(salt) == Some(v.salt) && Decode(stored) == Some(v.storedKey) && Decode(server) == Some(v.serverKey)
    ensures salt == Encode(v.salt) && stored == Encode(v.storedKey) && server == Encode(v.serverKey)
  {
    DecodeExact(salt, v.salt);
    DecodeExact(stored, v.storedKey);
    DecodeExact(server, v.serverKey);
  }

  /**
    A credential string is read as a SCRAM verifier exactly when it is the stored
    form of that verifier, up to the spelling of the iteration count (a plus sign
    and leading zeros are let through).
  */
  lemma ParseVerifierExact(s: string, v: Verifier)
    ensures ParseVerifier(s) == ScramVerifier(v) <==>
            Storable(v) && exists iters :: ParseU32(iters) == Some(v.iterations) && s == Render(iters, v)
  {
    if ParseVerifier(s) == ScramVerifier(v) {
      var body := s[|SCRAM_PREFIX|..];
      var iters := ParsedBodyIs(body, v);
      assert s == SCRAM_PREFIX + body;
      assert s == Render(iters, v);
    } else if Storable(v) && exists iters :: ParseU32(iters) == Some(v.iterations) && s == Render(iters, v) {
      var iters :| ParseU32(iters) == Some(v.iterations) && s == Render(iters, v);
      RenderedParses(iters, v);
    }
  }

  lemma Spelled(iters: string, v: Verifier)
    ensures Render(iters, v) == "SCRAM-SHA-256$" + iters + ":" + Encode(v.salt) + "$"
                                + Encode(v.storedKey) + ":" + Encode(v.serverKey)
  {
    var salt, stored, server := Encode(v.salt), Encode(v.storedKey), Encode(v.serverKey);
    assert Body(iters, v) == iters + ":" + salt + "$" + stored + ":" + server;
    assert "SCRAM-SHA-256$" + (iters + ":" + salt + "$" + stored + ":" + server)
        == "SCRAM-SHA-256$" + iters + ":" + salt + "$" + stored + ":" + server;
  }

  lemma RenderedParses(iters: string, v: Verifier)
    requires ParseU32(iters) == Some(v.iterations) && Storable(v)
    ensures ParseVerifier(Render(iters, v)) == ScramVerifier(v)
  {
    StripPrefixConcat(SCRAM_PREFIX, Body(iters, v));
    ParseBody(iters, v);
  }

  /** Every storable verifier is recovered from its canonical stored form. */
  lemma VerifierRoundTrip(v: Verifier)
    ensures ParseVerifier(Render(Numeral(v.iterations), v)) == ScramVerifier(v) <==> Storable(v)
  {
    ParseU32Numeral(v.iterations);
    if Storable(v) {
      RenderedParses(Numeral(v.iterations), v);
    } else if ParseVerifier(Render(Numeral(v.iterations), v)) == ScramVerifier(v) {
      ParseVerifierExact(Render(Numeral(v.iterations), v), v);
    }
  }

  /** The stored form written out, StoredKey in front of ServerKey. */
  lemma StoredForm(v: Verifier, text: string)
    requires text == "SCRAM-SHA-256$" + Numeral(v.iterations) + ":" + Encode(v.salt) + "$"
                     + Encode(v.storedKey) + ":" + Encode(v.serverKey)
    ensures ParseVerifier(text) == ScramVerifier(v) <==>
            4096 <= v.iterations < 0x1_0000_0000 && |v.storedKey| == |v.serverKey| == 32
  {
    Spelled(Numeral(v.iterations), v);
    VerifierRoundTrip(v);
  }

  /** An MD5 credential is one of exactly the strings "md5" plus 32 hexadecimal digits. */
  lemma Md5Exact(s: string, h: string)
    ensures ParseVerifier(s) == Md5(h) <==> s == "md5" + h && |h| == 32 && forall i :: 0 <= i < 32 ==> IsHexDigit(h[i])
  {
    if s == "md5" + h {
      StripPrefixConcat("md5", h);
      assert s[0] == 'm' && SCRAM_PREFIX[0] == 'S';
    }
    if "md5" <= s { assert s == "md5" + s[3..]; }
  }
}
