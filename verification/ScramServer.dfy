/** The server object: in-place parsing loops, the XOR and comparison loops, and the two message handlers. */
module ScramServer {
  import opened Wrappers
  import opened Text
  import opened Base64
  import opened Scram

  function Commas(s: string): nat {
    if s == [] then 0 else (if s[|s| - 1] == ',' then 1 else 0) + Commas(s[..|s| - 1])
  }

  /** Index of the n-th comma, counting from 1. */
  method FindNthComma(s: string, n: nat) returns (r: Option<nat>)
    requires n > 0
    ensures r.Some? ==> r.value < |s| && s[r.value] == ',' && Commas(s[..r.value]) == n - 1
    ensures r.None? ==> Commas(s) < n
  {
    var count := 0;
    for i := 0 to |s|
      invariant count == Commas(s[..i]) && count < n
    {
      assert s[..i + 1][..i] == s[..i];
      if s[i] == ',' {
        count := count + 1;
        if count == n {
          return Some(i);
        }
      }
    }
    assert s[..|s|] == s;
    return None;
  }

  lemma {:induction false} CommasConcat(s: string, t: string)
    ensures Commas(s + t) == Commas(s) + Commas(t)
  {
    if t == [] {
      assert s + t == s;
    } else {
      CommasConcat(s, t[..|t| - 1]);
      assert (s + t)[..|s + t| - 1] == s + t[..|t| - 1];
    }
  }

  lemma {:induction false} NoCommas(s: string)
    ensures Commas(s) == 0 <==> Free(s, ',')
  {
    if s != [] {
      NoCommas(s[..|s| - 1]);
      assert s == s[..|s| - 1] + [s[|s| - 1]];
      FreeConcat(s[..|s| - 1], [s[|s| - 1]], ',');
    }
  }

  /** `split_once` consumes one comma when there is one. */
  lemma SplitOnceCommas(s: string)
    ensures match SplitOnce(s, ',') case None => Commas(s) == 0 case Some((l, r)) => Commas(s) == 1 + Commas(r)
  {
    match SplitOnce(s, ',')
    case None =>
      SplitOnceNone(s, ',');
      NoCommas(s);
    case Some((l, r)) =>
      SplitOnceExact(s, ',', l, r);
      NoCommas(l);
      CommasConcat(l + ",", r);
      CommasConcat(l, ",");
      assert Commas(",") == 1;
  }

  /** Cutting at the second comma is the same as cutting twice at the first. */
  lemma SecondCommaCut(s: string, i: nat) returns (flag: string, authzid: string)
    requires i < |s| && s[i] == ',' && Commas(s[..i]) == 1
    ensures Free(flag, ',') && s[..i + 1] == flag + "," + authzid + ","
    ensures SplitOnce(s, ',') == Some((flag, authzid + "," + s[i + 1..]))
    ensures SplitOnce(authzid + "," + s[i + 1..], ',') == Some((authzid, s[i + 1..]))
  {
    var front, bare := s[..i], s[i + 1..];
    SplitOnceCommas(front);
    flag, authzid := SplitOnce(front, ',').value.0, SplitOnce(front, ',').value.1;
    SplitOnceExact(front, ',', flag, authzid);
    NoCommas(authzid);
    TwoCuts(flag, authzid, bare);
    assert s == front + "," + bare;
    assert s == flag + "," + (authzid + "," + bare);
  }

  lemma TwoCuts(flag: string, authzid: string, bare: string)
    requires Free(flag, ',') && Free(authzid, ',')
    ensures SplitOnce(flag + "," + (authzid + "," + bare), ',') == Some((flag, authzid + "," + bare))
    ensures SplitOnce(authzid + "," + bare, ',') == Some((authzid, bare))
  {
    SplitOnceExact(flag + "," + (authzid + "," + bare), ',', flag, authzid + "," + bare);
    SplitOnceExact(authzid + "," + bare, ',', authzid, bare);
  }

  lemma FewCommas(s: string)
    requires Commas(s) < 2
    ensures ParseClientFirst(s) == Err(Malformed("client first missing gs2-header"))
  {
    SplitOnceCommas(s);
    if SplitOnce(s, ',').Some? {
      SplitOnceCommas(SplitOnce(s, ',').value.1);
    }
  }

  lemma LastAttrStep(parts: seq<string>, i: nat, key: string)
    requires i < |parts|
    ensures LastAttr(parts[..i + 1], key) ==
            match StripPrefix(parts[i], key) case Some(v) => v case None => LastAttr(parts[..i], key)
  {
    assert parts[..i + 1][..i] == parts[..i];
  }

  method ParseFirst(s: string) returns (r: Result<ClientFirst, ScramError>)
    ensures r == ParseClientFirst(s)
  {
    var pos := FindNthComma(s, 2);
    if pos.None? {
      FewCommas(s);
      return Err(Malformed("client first missing gs2-header"));
    }
    var bareStart := pos.value + 1;
    var gs2Header, bare := s[..bareStart], s[bareStart..];
    ghost var flag, authzid := SecondCommaCut(s, pos.value);
    HeaderFlag(flag, authzid, 'n');
    HeaderFlag(flag, authzid, 'y');
    if !("n," <= gs2Header || "y," <= gs2Header) {
      return Err(Malformed("channel binding not supported"));
    }
    var parts := Split(bare, ',');
    var clientNonce := "";
    for i := 0 to |parts|
      invariant clientNonce == LastAttr(parts[..i], "r=")
    {
      LastAttrStep(parts, i, "r=");
      var v := StripPrefix(parts[i], "r=");
      if v.Some? {
        clientNonce := v.value;
      }
    }
    assert parts[..|parts|] == parts;
    if clientNonce == "" {
      return Err(Malformed("client first missing nonce"));
    }
    return Ok(ClientFirst(gs2Header, bare, clientNonce));
  }

  lemma HeaderFlag(flag: string, authzid: string, c: char)
    requires Free(flag, ',') && c != ','
    ensures [c, ','] <= flag + "," + authzid + "," <==> flag == [c]
  {
    var h := flag + "," + authzid + ",";
    assert h[0] == if flag == [] then ',' else flag[0];
    assert |flag| > 1 ==> h[1] == flag[1];
    assert |flag| == 1 ==> h[1] == ',';
    assert [c, ','] <= h <==> h[0] == c && h[1] == ',';
  }

  method ParseFinal(s: string) returns (r: Result<ClientFinal, ScramError>)
    ensures r == ParseClientFinal(s)
  {
    var parts := Split(s, ',');
    var cb, nonce, proof := "", "", "";
    for i := 0 to |parts|
      invariant cb == LastAttr(parts[..i], "c=")
      invariant nonce == LastAttr(parts[..i], "r=")
      invariant proof == LastAttr(parts[..i], "p=")
    {
      LastAttrStep(parts, i, "c=");
      LastAttrStep(parts, i, "r=");
      LastAttrStep(parts, i, "p=");
      var c, n, p := StripPrefix(parts[i], "c="), StripPrefix(parts[i], "r="), StripPrefix(parts[i], "p=");
      assert c.Some? ==> parts[i][0] == 'c';
      assert n.Some? ==> parts[i][0] == 'r';
      assert p.Some? ==> parts[i][0] == 'p';
      if c.Some? {
        cb := c.value;
      } else if n.Some? {
        nonce := n.value;
      } else if p.Some? {
        proof := p.value;
      }
    }
    assert parts[..|parts|] == parts;
    if cb == "" || nonce == "" || proof == "" {
      return Err(Malformed("client final missing c/r/p field"));
    }
    return Ok(ClientFinal(cb, nonce, proof));
  }

  /** Accumulates the differing bits of all positions; never stops early. */
  method ConstantTimeEq(a: seq<byte>, b: seq<byte>) returns (eq: bool)
    ensures eq <==> a == b
  {
    if |a| != |b| {
      return false;
    }
    var diff: byte := 0;
    for i := 0 to |a|
      invariant diff == 0 <==> a[..i] == b[..i]
    {
      assert a[..i + 1] == a[..i] + [a[i]] && b[..i + 1] == b[..i] + [b[i]];
      assert Pow2(8) == 256;
      diff := OrByte(diff, XorByte(a[i], b[i]));
    }
    assert a[..|a|] == a && b[..|b|] == b;
    return diff == 0;
  }

  /** The candidate key buffer, filled one byte at a time. */
  method XorInto(a: seq<byte>, b: seq<byte>) returns (c: seq<byte>)
    requires |a| == |b| == 32
    ensures c == Xor(a, b)
  {
    var buf := new byte[32](_ => 0);
    for i := 0 to 32
      invariant buf[..i] == Xor(a, b)[..i]
    {
      buf[i] := XorByte(a[i], b[i]);
      assert buf[..i + 1] == buf[..i] + [buf[i]];
    }
    c := buf[..];
    assert buf[..32] == buf[..];
  }

  class ScramServer {
    const verifier: Verifier
    var combinedNonce: string
    var clientFirstBare: string
    var serverFirst: string
    var gs2Header: string

    function View(): Server
      reads this
    {
      Server(verifier, combinedNonce, clientFirstBare, serverFirst, gs2Header)
    }

    constructor (v: Verifier)
      ensures View() == NewServer(v)
    {
      verifier := v;
      combinedNonce, clientFirstBare, serverFirst, gs2Header := "", "", "", "";
    }

    method OnClientFirst(msg: string, entropy: Option<seq<byte>>) returns (r: Result<string, ScramError>)
      modifies this
      ensures (View(), r) == Scram.OnClientFirst(old(View()), msg, entropy)
    {
      if !Utf8(msg) {
        return Err(Malformed("client first not utf8"));
      }
      var parsed := ParseFirst(msg);
      if parsed.Err? {
        return Err(parsed.error);
      }
      gs2Header := parsed.value.gs2Header;
      clientFirstBare := parsed.value.bare;
      if entropy.None? {
        return Err(NonceGenerationFailed);
      }
      combinedNonce := parsed.value.clientNonce + EncodeNoPad(entropy.value);
      serverFirst := ServerFirst(combinedNonce, verifier);
      return Ok(serverFirst);
    }

    method OnClientFinal(c: Crypto, msg: string) returns (r: Result<string, ScramError>)
      ensures r == Scram.OnClientFinal(c, View(), msg)
    {
      if !Utf8(msg) {
        return Err(Malformed("client final not utf8"));
      }
      var parsed := ParseFinal(msg);
      if parsed.Err? {
        return Err(parsed.error);
      }
      var f := parsed.value;
      if f.combinedNonce != combinedNonce {
        return Err(Malformed("nonce mismatch"));
      }
      if f.channelBinding != Encode(BytesOf(gs2Header)) {
        return Err(Malformed("channel binding mismatch"));
      }
      var auth := AuthMessage(clientFirstBare, serverFirst, f.channelBinding, f.combinedNonce);
      var proof := Decode(f.clientProof);
      if proof.None? {
        return Err(Malformed("client proof not base64"));
      }
      if |proof.value| != 32 {
        return Err(Malformed("client proof wrong length"));
      }
      var candidate := XorInto(proof.value, c.hmac(verifier.storedKey, auth));
      var same := ConstantTimeEq(c.hash(candidate), verifier.storedKey);
      if !same {
        return Err(AuthFailed);
      }
      return Ok("v=" + Encode(c.hmac(verifier.serverKey, auth)));
    }
  }
}
