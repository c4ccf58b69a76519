/**
  What the SCRAM exchange promises: the server's own random bytes are in every nonce,
  so a recorded exchange cannot be played again; and the honest exchange, written out
  message by message.
*/
module ScramLaws {
  import opened Base64
  import opened Decimal
  import opened Scram
  import opened Text
  import opened Wrappers

  // ---------------------------------------------------------------------------
  // The nonce
  // ---------------------------------------------------------------------------

  /** What an accepted client-first message leaves: the nonce is the client's, then exactly the server's bytes. */
  lemma NonceComposed(s: Server, msg: string, entropy: Option<seq<byte>>)
    requires OnClientFirst(s, msg, entropy).1.Ok?
    ensures var (t, first) := OnClientFirst(s, msg, entropy);
            var p := ParseClientFirst(msg).value;
            && entropy.Some?
            && p.clientNonce <= t.combinedNonce
            && t.combinedNonce[|p.clientNonce|..] == EncodeNoPad(entropy.value)
            && NonceIn(first.value) == t.combinedNonce
            && t == Server(s.verifier, t.combinedNonce, p.bare, first.value, p.gs2Header)
  {
    var p := ParseClientFirst(msg).value;
    AcceptedNonceIsClean(msg);
    EncodeIsPlain(entropy.value);
    FreeConcat(p.clientNonce, EncodeNoPad(entropy.value), ',');
    ServerFirstRoundTrip(p.clientNonce + EncodeNoPad(entropy.value), s.verifier);
  }

  /** Two exchanges for which the server drew different bytes have different nonces, whatever the clients sent. */
  lemma FreshNonce(s: Server, t: Server, m: string, n: string, a: seq<byte>, b: seq<byte>)
    requires OnClientFirst(s, m, Some(a)).1.Ok? && OnClientFirst(t, n, Some(b)).1.Ok?
    requires |a| == |b| && a != b
    ensures OnClientFirst(s, m, Some(a)).0.combinedNonce != OnClientFirst(t, n, Some(b)).0.combinedNonce
  {
    var x, y := ParseClientFirst(m).value.clientNonce, ParseClientFirst(n).value.clientNonce;
    NoPadLength(a, b);
    if x + EncodeNoPad(a) == y + EncodeNoPad(b) {
      SameEnds(x, EncodeNoPad(a), y, EncodeNoPad(b));
      NoPadInjective(a, b);
    }
  }

  lemma SameEnds(x: string, a: string, y: string, b: string)
    requires x + a == y + b && |a| == |b|
    ensures a == b
  {
    assert (x + a)[|x|..] == a && (y + b)[|y|..] == b;
  }

  /** A final message that was good in one exchange is refused in every other for which the server drew other bytes. */
  lemma ReplayRefused(c: Crypto, d: Crypto, s: Server, t: Server, m: string, n: string, a: seq<byte>, b: seq<byte>,
                      final: string)
    requires OnClientFirst(s, m, Some(a)).1.Ok? && OnClientFirst(t, n, Some(b)).1.Ok?
    requires |a| == |b| && a != b
    requires OnClientFinal(c, OnClientFirst(s, m, Some(a)).0, final).Ok?
    ensures OnClientFinal(d, OnClientFirst(t, n, Some(b)).0, final) == Err(Malformed("nonce mismatch"))
  {
    FreshNonce(s, t, m, n, a, b);
    var f := ParseClientFinal(final).value;
    FinalExact(c, OnClientFirst(s, m, Some(a)).0, f);
  }

  // ---------------------------------------------------------------------------
  // What the parsers take
  // ---------------------------------------------------------------------------

  /** `v` is what the last part that starts with `key` holds behind it. */
  predicate LastIs(parts: seq<string>, key: string, v: string) {
    exists i :: 0 <= i < |parts| && parts[i] == key + v && NoneBehind(parts, key, i)
  }

  predicate NoneBehind(parts: seq<string>, key: string, i: int)
    requires 0 <= i < |parts|
  {
    forall j :: i < j < |parts| ==> !(key <= parts[j])
  }

  /** The parsers take the last occurrence of an attribute. */
  lemma {:induction false} LastOccurrence(parts: seq<string>, key: string, v: string)
    requires v != ""
    ensures LastAttr(parts, key) == v <==> LastIs(parts, key, v)
  {
    if parts != [] {
      var n := |parts| - 1;
      LastOccurrence(parts[..n], key, v);
      StripPrefixConcat(key, v);
      if key <= parts[n] {
        assert parts[n] == key + parts[n][|key|..];
        assert parts[n][|key|..] == v ==> NoneBehind(parts, key, n);
        assert parts[n] == key + v ==> parts[n][|key|..] == v;
        assert forall i :: 0 <= i < n ==> !NoneBehind(parts, key, i);
      } else {
        assert forall i :: 0 <= i < n ==> parts[..n][i] == parts[i];
        assert forall i :: 0 <= i < n ==> (NoneBehind(parts, key, i) <==> NoneBehind(parts[..n], key, i));
      }
    }
  }

  /** Exactly the client-first messages of section 7 of RFC 5802 without channel binding are read, and how. */
  lemma ClientFirstExact(msg: string, p: ClientFirst)
    ensures ParseClientFirst(msg) == Ok(p) <==>
            && p.clientNonce != "" && LastIs(Split(p.bare, ','), "r=", p.clientNonce)
            && exists flag, authzid :: HeaderIs(msg, p, flag, authzid)
  {
    if p.clientNonce != "" { LastOccurrence(Split(p.bare, ','), "r=", p.clientNonce); }
    if ParseClientFirst(msg) == Ok(p) {
      var flag, authzid := HeaderRead(msg, p);
    } else if flag, authzid :| HeaderIs(msg, p, flag, authzid) {
      HeaderCuts(msg, p, flag, authzid);
    }
  }

  lemma HeaderRead(msg: string, p: ClientFirst) returns (flag: string, authzid: string)
    requires ParseClientFirst(msg) == Ok(p)
    ensures HeaderIs(msg, p, flag, authzid)
    ensures p.clientNonce != "" && p.clientNonce == LastAttr(Split(p.bare, ','), "r=")
  {
    var rest := SplitOnce(msg, ',').value.1;
    flag, authzid := SplitOnce(msg, ',').value.0, SplitOnce(rest, ',').value.0;
    SplitOnceExact(msg, ',', flag, rest);
    SplitOnceExact(rest, ',', authzid, p.bare);
  }

  lemma HeaderCuts(msg: string, p: ClientFirst, flag: string, authzid: string)
    requires HeaderIs(msg, p, flag, authzid)
    ensures p.clientNonce != "" && p.clientNonce == LastAttr(Split(p.bare, ','), "r=") ==>
              ParseClientFirst(msg) == Ok(p)
  {
    var rest := authzid + "," + p.bare;
    assert msg == flag + "," + rest;
    SplitOnceExact(msg, ',', flag, rest);
    SplitOnceExact(rest, ',', authzid, p.bare);
  }

  predicate HeaderIs(msg: string, p: ClientFirst, flag: string, authzid: string) {
    && (flag == "n" || flag == "y") && Free(authzid, ',')
    && p.gs2Header == flag + "," + authzid + "," && msg == p.gs2Header + p.bare
  }

  // ---------------------------------------------------------------------------
  // The honest exchange, written out
  // ---------------------------------------------------------------------------

  /** The four messages of one exchange and the string they authenticate, as the wire carries them. */
  datatype Script = Script(clientFirst: string, serverFirst: string, auth: string, final: string, signature: string)

  function Written(c: Crypto, v: Verifier, flag: string, authzid: string, user: string, nonce: string,
                   entropy: seq<byte>, key: Digest): Script {
    var header, bare, both := flag + "," + authzid + ",", "n=" + user + ",r=" + nonce, nonce + EncodeNoPad(entropy);
    var serverFirst := "r=" + both + ",s=" + Encode(v.salt) + ",i=" + Numeral(v.iterations);
    var withoutProof := "c=" + Encode(BytesOf(header)) + ",r=" + both;
    var auth := bare + "," + serverFirst + "," + withoutProof;
    Script(header + bare, serverFirst, auth,
           withoutProof + ",p=" + Encode(Xor(key, c.hmac(c.hash(key), auth))),
           "v=" + Encode(c.hmac(v.serverKey, auth)))
  }

  /**
    The exchange of section 5 of RFC 5802 with every message written out: the client
    names user and nonce, the server adds its bytes, salt and count, the client proves
    its key over what was actually sent, and the server signs the same.
  */
  lemma HonestExchange(c: Crypto, v: Verifier, flag: string, authzid: string, user: string, nonce: string,
                       entropy: seq<byte>, key: Digest)
    requires flag == "n" || flag == "y"
    requires Free(authzid, ',') && Free(user, ',') && Free(nonce, ',') && nonce != ""
    requires Utf8(Written(c, v, flag, authzid, user, nonce, entropy, key).clientFirst)
    requires c.hash(key) == v.storedKey
    ensures var w := Written(c, v, flag, authzid, user, nonce, entropy, key);
            var (t, first) := OnClientFirst(NewServer(v), w.clientFirst, Some(entropy));
            first == Ok(w.serverFirst) && OnClientFinal(c, t, w.final) == Ok(w.signature)
  {
    var w := Written(c, v, flag, authzid, user, nonce, entropy, key);
    var header, bare := flag + "," + authzid + ",", ClientFirstBare(user, nonce);
    ClientFirstRoundTrip(flag, authzid, user, nonce);
    assert ClientFirstMessage(flag, authzid, user, nonce) == w.clientFirst;
    NonceComposed(NewServer(v), w.clientFirst, Some(entropy));
    var first := OnClientFirst(NewServer(v), w.clientFirst, Some(entropy)).1.value;
    assert first == w.serverFirst && NonceIn(first) == nonce + EncodeNoPad(entropy);
    HonestClientAccepted(c, NewServer(v), w.clientFirst, Some(entropy), key);
    AuthSpelled(w, c, v, flag, authzid, user, nonce, entropy, key);
  }

  lemma AuthSpelled(w: Script, c: Crypto, v: Verifier, flag: string, authzid: string, user: string, nonce: string,
                    entropy: seq<byte>, key: Digest)
    requires w == Written(c, v, flag, authzid, user, nonce, entropy, key)
    requires NonceIn(w.serverFirst) == nonce + EncodeNoPad(entropy)
    ensures var header, bare := flag + "," + authzid + ",", ClientFirstBare(user, nonce);
            && AuthMessage(bare, w.serverFirst, Encode(BytesOf(header)), nonce + EncodeNoPad(entropy)) == w.auth
            && ClientFinalMessage(c, key, header, bare, w.serverFirst) == w.final
  {
    var header, bare := flag + "," + authzid + ",", ClientFirstBare(user, nonce);
    var both, binding := nonce + EncodeNoPad(entropy), Encode(BytesOf(header));
    assert AuthMessage(bare, w.serverFirst, binding, both) == w.auth;
  }

  // ---------------------------------------------------------------------------
  // Bits
  // ---------------------------------------------------------------------------

  function Bit(n: nat, i: nat): nat { if i == 0 then n % 2 else Bit(n / 2, i - 1) }

  lemma {:induction false} XorBit(a: nat, b: nat, n: nat, i: nat)
    requires a < Pow2(n) && b < Pow2(n) && i < n
    ensures Bit(XorBits(a, b, n), i) == if Bit(a, i) == Bit(b, i) then 0 else 1
    decreases i
  {
    XorBitsSplit(a, b, n);
    if i > 0 {
      XorBit(a / 2, b / 2, n - 1, i - 1);
    }
  }

  /** The exclusive or of two bytes is bit by bit. */
  lemma XorByteIsBitwise(a: byte, b: byte, i: nat)
    requires i < 8
    ensures Bit(XorByte(a, b), i) == if Bit(a, i) == Bit(b, i) then 0 else 1
  {
    assert Pow2(8) == 256;
    XorBit(a, b, 8, i);
  }
}
