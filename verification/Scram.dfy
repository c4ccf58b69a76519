/**
  SCRAM-SHA-256, server side: the message formats of section 7 of RFC 5802, the
  server's two steps as functions, and the client's two steps from section 3 of
  the same document. HMAC and SHA-256 are parameters.
*/
module Scram {
  import opened Wrappers
  import opened Text
  import opened Base64
  import opened Decimal

  datatype Crypto = Crypto(hmac: (seq<byte>, string) -> Digest, hash: seq<byte> -> Digest)

  datatype Verifier = Verifier(iterations: nat, salt: seq<byte>, storedKey: seq<byte>, serverKey: seq<byte>)

  datatype ScramError = Malformed(reason: string) | AuthFailed | NonceGenerationFailed

  datatype ClientFirst = ClientFirst(gs2Header: string, bare: string, clientNonce: string)

  datatype ClientFinal = ClientFinal(channelBinding: string, combinedNonce: string, clientProof: string)

  /** The fields of the per-connection server object. */
  datatype Server = Server(verifier: Verifier, combinedNonce: string, clientFirstBare: string,
                           serverFirst: string, gs2Header: string)

  function NewServer(v: Verifier): Server { Server(v, "", "", "", "") }

  // ---------------------------------------------------------------------------
  // Byte operations
  // ---------------------------------------------------------------------------

  /** Bitwise exclusive or of two numbers of `n` bits. */
  function XorBits(a: nat, b: nat, n: nat): (c: nat)
    requires a < Pow2(n) && b < Pow2(n)
    ensures c < Pow2(n)
    ensures c == 0 <==> a == b
  {
    if n == 0 then 0
    else
      assert Pow2(n) == 2 * Pow2(n - 1) && a / 2 < Pow2(n - 1) && b / 2 < Pow2(n - 1);
      2 * XorBits(a / 2, b / 2, n - 1) + (a + b) % 2
  }

  function OrBits(a: nat, b: nat, n: nat): (c: nat)
    requires a < Pow2(n) && b < Pow2(n)
    ensures c < Pow2(n)
    ensures c == 0 <==> a == 0 && b == 0
  {
    if n == 0 then 0 else 2 * OrBits(a / 2, b / 2, n - 1) + (if a % 2 + b % 2 > 0 then 1 else 0)
  }

  function Pow2(n: nat): nat { if n == 0 then 1 else 2 * Pow2(n - 1) }

  function XorByte(a: byte, b: byte): byte {
    assert Pow2(8) == 256;
    XorBits(a, b, 8)
  }

  function OrByte(a: byte, b: byte): byte {
    assert Pow2(8) == 256;
    OrBits(a, b, 8)
  }

  function Xor(a: seq<byte>, b: seq<byte>): (c: seq<byte>)
    requires |a| == |b|
    ensures |c| == |a|
  {
    seq(|a|, i requires 0 <= i < |a| => XorByte(a[i], b[i]))
  }

  lemma LowBit(high: nat, a: nat, b: nat)
    ensures var c := 2 * high + (a + b) % 2;
            c / 2 == high && (c + b) % 2 == a % 2
  {
  }

  lemma XorBitsSplit(a: nat, b: nat, n: nat)
    requires a < Pow2(n) && b < Pow2(n) && 0 < n
    ensures a / 2 < Pow2(n - 1) && b / 2 < Pow2(n - 1)
    ensures XorBits(a, b, n) % 2 == (if a % 2 == b % 2 then 0 else 1)
    ensures XorBits(a, b, n) / 2 == XorBits(a / 2, b / 2, n - 1)
  {
    LowBit(XorBits(a / 2, b / 2, n - 1), a, b);
  }

  lemma {:induction false} XorBitsTwice(a: nat, b: nat, n: nat)
    requires a < Pow2(n) && b < Pow2(n)
    ensures XorBits(XorBits(a, b, n), b, n) == a
  {
    if n > 0 {
      var c := XorBits(a, b, n);
      XorBitsSplit(a, b, n);
      XorBitsSplit(c, b, n);
      XorBitsTwice(a / 2, b / 2, n - 1);
    }
  }

  lemma XorTwice(a: seq<byte>, b: seq<byte>)
    requires |a| == |b|
    ensures Xor(Xor(a, b), b) == a
  {
    forall i | 0 <= i < |a| ensures Xor(Xor(a, b), b)[i] == a[i] {
      assert Pow2(8) == 256;
      XorBitsTwice(a[i], b[i], 8);
    }
  }

  /** `str::as_bytes`; a character of a UTF-8 message stands for one byte. */
  function BytesOf(s: string): seq<byte> {
    seq(|s|, i requires 0 <= i < |s| => s[i] as int % 256)
  }

  // ---------------------------------------------------------------------------
  // Parsing
  // ---------------------------------------------------------------------------

  /** The value of the last comma-separated part that starts with `key`, "" when there is none. */
  function LastAttr(parts: seq<string>, key: string): string {
    if parts == [] then ""
    else match StripPrefix(parts[|parts| - 1], key)
      case Some(v) => v
      case None => LastAttr(parts[..|parts| - 1], key)
  }

  /** The gs2 header runs to the second comma; only the flags without channel binding are taken. */
  function ParseClientFirst(s: string): Result<ClientFirst, ScramError> {
    match SplitOnce(s, ',')
    case None => Err(Malformed("client first missing gs2-header"))
    case Some((flag, rest)) =>
      match SplitOnce(rest, ',')
      case None => Err(Malformed("client first missing gs2-header"))
      case Some((authzid, bare)) =>
        if flag != "n" && flag != "y" then Err(Malformed("channel binding not supported"))
        else
          var nonce := LastAttr(Split(bare, ','), "r=");
          if nonce == "" then Err(Malformed("client first missing nonce"))
          else Ok(ClientFirst(flag + "," + authzid + ",", bare, nonce))
  }

  function ParseClientFinal(s: string): Result<ClientFinal, ScramError> {
    var parts := Split(s, ',');
    var f := ClientFinal(LastAttr(parts, "c="), LastAttr(parts, "r="), LastAttr(parts, "p="));
    if f.channelBinding == "" || f.combinedNonce == "" || f.clientProof == ""
    then Err(Malformed("client final missing c/r/p field"))
    else Ok(f)
  }

  // ---------------------------------------------------------------------------
  // The server's steps
  // ---------------------------------------------------------------------------

  function ServerFirst(nonce: string, v: Verifier): string {
    "r=" + nonce + ",s=" + Encode(v.salt) + ",i=" + Numeral(v.iterations)
  }

  function WithoutProof(channelBinding: string, nonce: string): string {
    "c=" + channelBinding + ",r=" + nonce
  }

  function AuthMessage(bare: string, serverFirst: string, channelBinding: string, nonce: string): string {
    bare + "," + serverFirst + "," + WithoutProof(channelBinding, nonce)
  }

  /** `entropy` is what the random source yields for the server nonce, None when it fails. */
  function OnClientFirst(s: Server, msg: string, entropy: Option<seq<byte>>): (Server, Result<string, ScramError>) {
    if !Utf8(msg) then (s, Err(Malformed("client first not utf8")))
    else match ParseClientFirst(msg)
      case Err(e) => (s, Err(e))
      case Ok(p) =>
        var s1 := s.(gs2Header := p.gs2Header, clientFirstBare := p.bare);
        match entropy
        case None => (s1, Err(NonceGenerationFailed))
        case Some(bytes) =>
          var nonce := p.clientNonce + EncodeNoPad(bytes);
          var first := ServerFirst(nonce, s.verifier);
          (s1.(combinedNonce := nonce, serverFirst := first), Ok(first))
  }

  function OnClientFinal(c: Crypto, s: Server, msg: string): Result<string, ScramError> {
    if !Utf8(msg) then Err(Malformed("client final not utf8"))
    else match ParseClientFinal(msg)
      case Err(e) => Err(e)
      case Ok(f) => CheckFinal(c, s, f)
  }

  function CheckFinal(c: Crypto, s: Server, f: ClientFinal): Result<string, ScramError> {
    if f.combinedNonce != s.combinedNonce then Err(Malformed("nonce mismatch"))
    else if f.channelBinding != Encode(BytesOf(s.gs2Header)) then Err(Malformed("channel binding mismatch"))
    else
      var auth := AuthMessage(s.clientFirstBare, s.serverFirst, f.channelBinding, f.combinedNonce);
      match Decode(f.clientProof)
      case None => Err(Malformed("client proof not base64"))
      case Some(proof) =>
        if |proof| != 32 then Err(Malformed("client proof wrong length"))
        else
          var candidate := Xor(proof, c.hmac(s.verifier.storedKey, auth));
          if c.hash(candidate) != s.verifier.storedKey then Err(AuthFailed)
          else Ok("v=" + Encode(c.hmac(s.verifier.serverKey, auth)))
  }

  // ---------------------------------------------------------------------------
  // The client's steps (section 3 of RFC 5802)
  // ---------------------------------------------------------------------------

  function ClientFirstMessage(flag: string, authzid: string, user: string, nonce: string): string {
    flag + "," + authzid + "," + ClientFirstBare(user, nonce)
  }

  function ClientFirstBare(user: string, nonce: string): string {
    "n=" + user + ",r=" + nonce
  }

  /** The client reads the combined nonce out of the server's first message. */
  function NonceIn(serverFirst: string): string {
    var first := Split(serverFirst, ',')[0];
    if "r=" <= first then first[2..] else ""
  }

  /** ClientProof = ClientKey XOR HMAC(H(ClientKey), AuthMessage). */
  function ClientProof(c: Crypto, key: Digest, auth: string): seq<byte> {
    Xor(key, c.hmac(c.hash(key), auth))
  }

  function ClientFinalMessage(c: Crypto, key: Digest, gs2: string, bare: string, serverFirst: string): string {
    var cb := Encode(BytesOf(gs2));
    var nonce := NonceIn(serverFirst);
    var auth := AuthMessage(bare, serverFirst, cb, nonce);
    WithoutProof(cb, nonce) + ",p=" + Encode(ClientProof(c, key, auth))
  }

  // ---------------------------------------------------------------------------
  // Message round trips
  // ---------------------------------------------------------------------------

  /** A message of three comma-free attributes splits into those three. */
  lemma SplitThree(a: string, b: string, c: string)
    requires Free(a, ',') && Free(b, ',') && Free(c, ',')
    ensures Split(a + "," + b + "," + c, ',') == [a, b, c]
  {
    var parts := [a, b, c];
    assert parts[1..] == [b, c] && parts[1..][1..] == [c];
    assert Join([b, c], ',') == b + "," + c;
    assert Join(parts, ',') == a + "," + (b + "," + c);
    assert a + "," + b + "," + c == a + "," + (b + "," + c);
    SplitJoin(parts, ',');
  }

  lemma SplitTwo(a: string, b: string)
    requires Free(a, ',') && Free(b, ',')
    ensures Split(a + "," + b, ',') == [a, b]
  {
    var parts := [a, b];
    assert parts[1..] == [b];
    SplitJoin(parts, ',');
  }

  /** The parser recovers header, bare message and nonce of every well-formed client-first message. */
  lemma ClientFirstRoundTrip(flag: string, authzid: string, user: string, nonce: string)
    requires flag == "n" || flag == "y"
    requires Free(authzid, ',') && Free(user, ',') && Free(nonce, ',') && nonce != ""
    ensures ParseClientFirst(ClientFirstMessage(flag, authzid, user, nonce))
            == Ok(ClientFirst(flag + "," + authzid + ",", ClientFirstBare(user, nonce), nonce))
  {
    var bare := ClientFirstBare(user, nonce);
    var rest := authzid + "," + bare;
    assert ClientFirstMessage(flag, authzid, user, nonce) == flag + "," + rest;
    SplitOnceExact(flag + "," + rest, ',', flag, rest);
    SplitOnceExact(rest, ',', authzid, bare);
    var n, r := "n=" + user, "r=" + nonce;
    FreeConcat("n=", user, ',');
    FreeConcat("r=", nonce, ',');
    assert bare == n + "," + r;
    SplitTwo(n, r);
    StripPrefixConcat("r=", nonce);
  }

  /** The client can read nonce, salt and iteration count back from the server-first message. */
  lemma ServerFirstRoundTrip(nonce: string, v: Verifier)
    requires Free(nonce, ',')
    ensures Split(ServerFirst(nonce, v), ',') == ["r=" + nonce, "s=" + Encode(v.salt), "i=" + Numeral(v.iterations)]
    ensures NonceIn(ServerFirst(nonce, v)) == nonce
    ensures Decode(Encode(v.salt)) == Some(v.salt) && ValueOf(Numeral(v.iterations)) == v.iterations
  {
    EncodeIsPlain(v.salt);
    NumeralIsPlain(v.iterations);
    ThreeAttributes(nonce, Encode(v.salt), Numeral(v.iterations));
    assert ServerFirst(nonce, v) == "r=" + nonce + "," + ("s=" + Encode(v.salt)) + "," + ("i=" + Numeral(v.iterations));
    assert "r=" <= "r=" + nonce && ("r=" + nonce)[2..] == nonce;
    DecodeEncode(v.salt);
    ValueOfNumeral(v.iterations);
  }

  lemma ThreeAttributes(nonce: string, salt: string, count: string)
    requires Free(nonce, ',') && Free(salt, ',') && Free(count, ',')
    ensures Split("r=" + nonce + "," + ("s=" + salt) + "," + ("i=" + count), ',')
            == ["r=" + nonce, "s=" + salt, "i=" + count]
  {
    FreeConcat("r=", nonce, ',');
    FreeConcat("s=", salt, ',');
    FreeConcat("i=", count, ',');
    SplitThree("r=" + nonce, "s=" + salt, "i=" + count);
  }

  lemma ClientFinalRoundTrip(cb: string, nonce: string, proof: string)
    requires Free(cb, ',') && Free(nonce, ',') && Free(proof, ',')
    requires cb != "" && nonce != "" && proof != ""
    ensures ParseClientFinal(WithoutProof(cb, nonce) + ",p=" + proof) == Ok(ClientFinal(cb, nonce, proof))
  {
    var c, r, p := "c=" + cb, "r=" + nonce, "p=" + proof;
    FreeConcat("c=", cb, ',');
    FreeConcat("r=", nonce, ',');
    FreeConcat("p=", proof, ',');
    assert WithoutProof(cb, nonce) + ",p=" + proof == c + "," + r + "," + p;
    SplitThree(c, r, p);
    var parts := [c, r, p];
    assert parts[..2] == [c, r] && parts[..2][..1] == [c];
    assert c[0] == 'c' && r[0] == 'r' && p[0] == 'p';
    StripPrefixConcat("c=", cb);
    StripPrefixConcat("r=", nonce);
    StripPrefixConcat("p=", proof);
    assert LastAttr([c], "c=") == cb;
    assert LastAttr([c, r], "c=") == cb && LastAttr([c, r], "r=") == nonce;
    assert LastAttr(parts, "c=") == cb && LastAttr(parts, "r=") == nonce;
  }

  lemma {:induction false} LastAttrIsPart(parts: seq<string>, key: string)
    ensures LastAttr(parts, key) == "" || exists i :: 0 <= i < |parts| && parts[i] == key + LastAttr(parts, key)
  {
    if parts != [] {
      var last := |parts| - 1;
      match StripPrefix(parts[last], key)
      case Some(v) =>
        assert parts[last] == key + v;
      case None =>
        LastAttrIsPart(parts[..last], key);
        if LastAttr(parts, key) != "" {
          var i :| 0 <= i < last && parts[..last][i] == key + LastAttr(parts[..last], key);
          assert parts[i] == key + LastAttr(parts, key);
        }
    }
  }

  /** The nonce taken from an accepted client-first message is comma-free UTF-8, so the echo survives the round trip. */
  lemma AcceptedNonceIsClean(msg: string)
    requires Utf8(msg) && ParseClientFirst(msg).Ok?
    ensures var p := ParseClientFirst(msg).value;
            Free(p.clientNonce, ',') && Utf8(p.clientNonce) && p.clientNonce != ""
            && msg == p.gs2Header + p.bare && p.gs2Header != ""
  {
    var p := ParseClientFirst(msg).value;
    var (flag, rest) := SplitOnce(msg, ',').value;
    var (authzid, bare) := SplitOnce(rest, ',').value;
    SplitOnceExact(msg, ',', flag, rest);
    SplitOnceExact(rest, ',', authzid, bare);
    Utf8Halves(flag, ',', rest);
    Utf8Halves(authzid, ',', bare);
    assert msg == flag + "," + authzid + "," + bare;
    LastAttrIsClean(bare, "r=");
  }

  /** An attribute value found in a UTF-8 message is itself comma-free UTF-8. */
  lemma LastAttrIsClean(bare: string, key: string)
    requires Utf8(bare) && key != "" && Ascii(key)
    ensures var v := LastAttr(Split(bare, ','), key); Free(v, ',') && Utf8(v)
  {
    var parts := Split(bare, ',');
    var v := LastAttr(parts, key);
    Utf8Split(bare, ',');
    JoinSplit(bare, ',');
    LastAttrIsPart(parts, key);
    if v != "" {
      var i :| 0 <= i < |parts| && parts[i] == key + v;
      assert parts[i] in parts;
      FreeConcat(key, v, ',');
      Utf8CutAtAscii(parts[i], |key| - 1);
      assert parts[i][|key|..] == v;
    }
  }

  // ---------------------------------------------------------------------------
  // Exactness and completeness
  // ---------------------------------------------------------------------------

  /** `proof` is the proof a holder of `key` computes, and `key` is the one the verifier was made from. */
  predicate Proves(c: Crypto, s: Server, key: Digest, auth: string, proof: string) {
    c.hash(key) == s.verifier.storedKey && proof == Encode(ClientProof(c, key, auth))
  }

  /**
    A parsed final is accepted exactly when it echoes nonce and header and carries
    the proof of some key that hashes to StoredKey; the reply is then the server
    signature, and a failure is AuthFailed only when everything else was in order.
  */
  lemma FinalExact(c: Crypto, s: Server, f: ClientFinal)
    ensures var auth := AuthMessage(s.clientFirstBare, s.serverFirst, f.channelBinding, f.combinedNonce);
            var echoes := f.combinedNonce == s.combinedNonce && f.channelBinding == Encode(BytesOf(s.gs2Header));
            && (CheckFinal(c, s, f).Ok? <==> echoes && exists key: Digest :: Proves(c, s, key, auth, f.clientProof))
            && (CheckFinal(c, s, f).Ok? ==>
                  CheckFinal(c, s, f).value == "v=" + Encode(c.hmac(s.verifier.serverKey, auth)))
            && (CheckFinal(c, s, f) == Err(AuthFailed) <==>
                  echoes && (exists b: Digest :: Encode(b) == f.clientProof)
                  && !exists key: Digest :: Proves(c, s, key, auth, f.clientProof))
  {
    var auth := AuthMessage(s.clientFirstBare, s.serverFirst, f.channelBinding, f.combinedNonce);
    var sig := c.hmac(s.verifier.storedKey, auth);
    forall b: Digest | Encode(b) == f.clientProof ensures Decode(f.clientProof) == Some(b) {
      DecodeExact(f.clientProof, b);
    }
    match Decode(f.clientProof)
    case Some(proof) =>
      DecodeExact(f.clientProof, proof);
      if |proof| == 32 {
        var candidate: Digest := Xor(proof, sig);
        XorTwice(proof, sig);
        assert c.hash(candidate) == s.verifier.storedKey ==> Proves(c, s, candidate, auth, f.clientProof);
        forall key: Digest | Proves(c, s, key, auth, f.clientProof) ensures key == candidate {
          DecodeExact(f.clientProof, ClientProof(c, key, auth));
          XorTwice(key, sig);
        }
      } else {
        forall key: Digest | Proves(c, s, key, auth, f.clientProof) ensures false {
          DecodeExact(f.clientProof, ClientProof(c, key, auth));
        }
      }
    case None =>
      forall key: Digest | Proves(c, s, key, auth, f.clientProof) ensures false {
        DecodeExact(f.clientProof, ClientProof(c, key, auth));
      }
  }

  /**
    A client holding any key that hashes to StoredKey is accepted, whatever
    client-first message it opened with, and is sent the server signature.
  */
  lemma HonestClientAccepted(c: Crypto, s: Server, msg: string, entropy: Option<seq<byte>>, key: Digest)
    requires OnClientFirst(s, msg, entropy).1.Ok?
    requires c.hash(key) == s.verifier.storedKey
    ensures var (s', first) := OnClientFirst(s, msg, entropy);
            var p := ParseClientFirst(msg).value;
            var final := ClientFinalMessage(c, key, p.gs2Header, p.bare, first.value);
            var auth := AuthMessage(p.bare, first.value, Encode(BytesOf(p.gs2Header)), NonceIn(first.value));
            OnClientFinal(c, s', final) == Ok("v=" + Encode(c.hmac(s.verifier.serverKey, auth)))
  {
    var (s', first) := OnClientFirst(s, msg, entropy);
    var p := ParseClientFirst(msg).value;
    AcceptedNonceIsClean(msg);
    EncodeIsPlain(entropy.value);
    var nonce := p.clientNonce + EncodeNoPad(entropy.value);
    FreeConcat(p.clientNonce, EncodeNoPad(entropy.value), ',');
    ServerFirstRoundTrip(nonce, s.verifier);
    var cb := Encode(BytesOf(p.gs2Header));
    EncodeIsPlain(BytesOf(p.gs2Header));
    var auth := AuthMessage(p.bare, first.value, cb, nonce);
    var proof := Encode(ClientProof(c, key, auth));
    EncodeIsPlain(ClientProof(c, key, auth));
    ClientFinalRoundTrip(cb, nonce, proof);
    FinalIsUtf8(cb, nonce, proof, p.clientNonce, entropy.value);
    assert Proves(c, s', key, auth, proof);
    FinalExact(c, s', ClientFinal(cb, nonce, proof));
  }

  lemma FinalIsUtf8(cb: string, nonce: string, proof: string, clientNonce: string, entropy: seq<byte>)
    requires Ascii(cb) && Ascii(proof) && Utf8(clientNonce) && nonce == clientNonce + EncodeNoPad(entropy)
    ensures Utf8(WithoutProof(cb, nonce) + ",p=" + proof)
  {
    EncodeIsPlain(entropy);
    AsciiIsUtf8(EncodeNoPad(entropy));
    Utf8Concat(clientNonce, EncodeNoPad(entropy));
    AroundNonce(cb, nonce, proof);
  }

  lemma AroundNonce(cb: string, nonce: string, proof: string)
    requires Ascii(cb) && Ascii(proof) && Utf8(nonce)
    ensures Utf8(WithoutProof(cb, nonce) + ",p=" + proof)
  {
    var front, back := "c=" + cb + ",r=", ",p=" + proof;
    AsciiIsUtf8(front);
    AsciiIsUtf8(back);
    Utf8Concat(front, nonce);
    Utf8Concat(front + nonce, back);
    assert front + nonce + back == WithoutProof(cb, nonce) + ",p=" + proof;
  }

  /** The whole exchange of section 3 of RFC 5802, from user name, nonce and key alone. */
  lemma ExchangeSucceeds(c: Crypto, v: Verifier, flag: string, authzid: string, user: string, nonce: string,
                         entropy: seq<byte>, key: Digest)
    requires flag == "n" || flag == "y"
    requires Free(authzid, ',') && Free(user, ',') && Free(nonce, ',') && nonce != ""
    requires Utf8(ClientFirstMessage(flag, authzid, user, nonce))
    requires c.hash(key) == v.storedKey
    ensures var msg := ClientFirstMessage(flag, authzid, user, nonce);
            var (s, first) := OnClientFirst(NewServer(v), msg, Some(entropy));
            && first.Ok?
            && var gs2, bare := flag + "," + authzid + ",", ClientFirstBare(user, nonce);
               OnClientFinal(c, s, ClientFinalMessage(c, key, gs2, bare, first.value)).Ok?
  {
    ClientFirstRoundTrip(flag, authzid, user, nonce);
    HonestClientAccepted(c, NewServer(v), ClientFirstMessage(flag, authzid, user, nonce), Some(entropy), key);
  }

  /** Whatever final it sends, a client is turned away unless its proof decodes to a key that hashes to StoredKey. */
  lemma WrongKeyRefused(c: Crypto, s: Server, msg: string)
    requires forall key: Digest :: c.hash(key) != s.verifier.storedKey
    ensures OnClientFinal(c, s, msg).Err?
  {
    if Utf8(msg) && ParseClientFinal(msg).Ok? {
      FinalExact(c, s, ParseClientFinal(msg).value);
    }
  }
}
