/**
  The wire form of the control channels: one opcode byte per message, with the
  client connection riding along as a control-message header on the handoff byte.
*/
module FdPass {
  import opened Wrappers
  import opened Text
  import opened Protocol

  const OP_FD_HANDOFF: byte := 0
  const OP_DRAIN_REQUEST: byte := 0x58

  const SOL_SOCKET: int := 1
  const SCM_RIGHTS: int := 1

  datatype Cmsg = Cmsg(level: int, kind: int, fd: int)

  /** One read from the socket: nothing at the end of the stream, else one byte and what rode along. */
  datatype Packet = EndOfStream | Packet(op: byte, cmsgs: seq<Cmsg>)

  datatype CtrlMsg = FdHandoff(fd: nat) | DrainRequest | Eof

  datatype WireError = NoRights | NegativeFd | UnknownOpcode(op: byte)

  datatype Read = Got(msg: CtrlMsg) | Refused(error: WireError)

  predicate IsRights(c: Cmsg) { c.level == SOL_SOCKET && c.kind == SCM_RIGHTS }

  /** `c` is the first entry of the list that carries descriptors. */
  predicate FirstRights(cmsgs: seq<Cmsg>, k: nat) {
    k < |cmsgs| && IsRights(cmsgs[k]) && forall j :: 0 <= j < k ==> !IsRights(cmsgs[j])
  }

  /** `recv_ctrl_nonblocking` behind the system call: the handoff branch walks the control-message list. */
  method RecvCtrl(p: Packet) returns (r: Read)
    ensures r == Got(Eof) <==> p == EndOfStream
    ensures r == Got(DrainRequest) <==> p.Packet? && p.op == OP_DRAIN_REQUEST
    ensures r.Got? && r.msg.FdHandoff? <==>
            p.Packet? && p.op == OP_FD_HANDOFF && exists k: nat :: FirstRights(p.cmsgs, k) && p.cmsgs[k].fd >= 0
    ensures r.Got? && r.msg.FdHandoff? ==> forall k: nat :: FirstRights(p.cmsgs, k) ==> r.msg.fd == p.cmsgs[k].fd
    ensures r == Refused(NoRights) <==> p.Packet? && p.op == OP_FD_HANDOFF && forall c :: c in p.cmsgs ==> !IsRights(c)
    ensures r.Refused? && r.error.UnknownOpcode? <==> p.Packet? && p.op !in {OP_FD_HANDOFF, OP_DRAIN_REQUEST}
  {
    if p == EndOfStream {
      return Got(Eof);
    }
    if p.op == OP_FD_HANDOFF {
      var i := 0;
      while i < |p.cmsgs|
        invariant i <= |p.cmsgs|
        invariant forall j :: 0 <= j < i ==> !IsRights(p.cmsgs[j])
      {
        if IsRights(p.cmsgs[i]) {
          assert FirstRights(p.cmsgs, i);
          assert forall k: nat :: FirstRights(p.cmsgs, k) ==> k == i;
          if p.cmsgs[i].fd < 0 {
            return Refused(NegativeFd);
          }
          return Got(FdHandoff(p.cmsgs[i].fd));
        }
        i := i + 1;
      }
      return Refused(NoRights);
    }
    r := if p.op == OP_DRAIN_REQUEST then Got(DrainRequest) else Refused(UnknownOpcode(p.op));
  }

  /** What the frontend sends for a message of the protocol. */
  function Wire(d: Down): Packet {
    match d
    case FdMsg(f) => Packet(OP_FD_HANDOFF, [Cmsg(SOL_SOCKET, SCM_RIGHTS, f)])
    case Drain => Packet(OP_DRAIN_REQUEST, [])
  }

  /** The packets as the wire carries them: byte 0 with the descriptor as its one rights entry, and 'X' alone. */
  lemma WireBytes(f: nat)
    ensures Wire(FdMsg(f)) == Packet(0, [Cmsg(1, 1, f)])
    ensures Wire(Drain) == Packet('X' as int, [])
  {
  }

  function WireAll(down: seq<Down>): (w: seq<Packet>)
    ensures |w| == |down|
  {
    seq(|down|, i requires 0 <= i < |down| => Wire(down[i]))
  }

  function Meaning(m: CtrlMsg): Option<Down> {
    match m
    case FdHandoff(f) => Some(FdMsg(f))
    case DrainRequest => Some(Drain)
    case Eof => None
  }

  /** One direction of the socket pair: what is buffered, and whether the sending side has been shut. */
  class Channel {
    var packets: seq<Packet>
    var shut: bool

    constructor ()
      ensures packets == [] && !shut
    {
      packets, shut := [], false;
    }

    /** `send_fd_nonblocking`: the descriptor rides in the control-message header; `taken` is the socket's verdict. */
    method SendFd(fd: nat, taken: bool) returns (ok: bool)
      modifies this`packets
      ensures ok == taken && packets == old(packets) + if taken then [Wire(FdMsg(fd))] else []
    {
      if !taken {
        return false;
      }
      ok := true;
      var header := Cmsg(SOL_SOCKET, SCM_RIGHTS, fd);
      packets := packets + [Packet(OP_FD_HANDOFF, [header])];
    }

    /** `send_drain_request_nonblocking`. */
    method SendDrainRequest(taken: bool) returns (ok: bool)
      modifies this`packets
      ensures ok == taken && packets == old(packets) + if taken then [Wire(Drain)] else []
    {
      if !taken {
        return false;
      }
      ok := true;
      packets := packets + [Packet(OP_DRAIN_REQUEST, [])];
    }

    /** `recvmsg`, on a channel that has something to read or is at its end. */
    method Recv() returns (p: Packet)
      requires packets != [] || shut
      modifies this`packets
      ensures if old(packets) == [] then p == EndOfStream && packets == []
              else p == old(packets)[0] && packets == old(packets)[1..]
    {
      if packets == [] {
        return EndOfStream;
      }
      p := packets[0];
      packets := packets[1..];
    }
  }

  /** The messages the socket took. */
  function Taken(down: seq<Down>, taken: seq<bool>): seq<Down>
    requires |down| == |taken|
  {
    if down == [] then []
    else
      var n := |down| - 1;
      Taken(down[..n], taken[..n]) + if taken[n] then [down[n]] else []
  }

  /** The frontend's sends, in order, each taken or refused by the socket. */
  method SendAll(c: Channel, down: seq<Down>, taken: seq<bool>)
    requires |down| == |taken|
    modifies c
    ensures c.packets == old(c.packets) + WireAll(Taken(down, taken)) && c.shut == old(c.shut)
  {
    assert WireAll(Taken([], [])) == [] && down[..0] == [] && taken[..0] == [];
    for i := 0 to |down|
      invariant c.packets == old(c.packets) + WireAll(Taken(down[..i], taken[..i])) && c.shut == old(c.shut)
    {
      var ok;
      match down[i] {
        case FdMsg(f) => ok := c.SendFd(f, taken[i]);
        case Drain => ok := c.SendDrainRequest(taken[i]);
      }
      TakenSnoc(down, taken, i);
    }
    assert down[..|down|] == down && taken[..|down|] == taken;
  }

  lemma TakenSnoc(down: seq<Down>, taken: seq<bool>, i: nat)
    requires |down| == |taken| && i < |down|
    ensures WireAll(Taken(down[..i + 1], taken[..i + 1]))
            == WireAll(Taken(down[..i], taken[..i])) + if taken[i] then [Wire(down[i])] else []
  {
    assert down[..i + 1][..i] == down[..i] && taken[..i + 1][..i] == taken[..i];
  }

  /** The slot's side: read and decode until the end. */
  method ReadToEnd(c: Channel, ghost down: seq<Down>) returns (got: seq<Down>)
    requires c.shut && c.packets == WireAll(down)
    modifies c
    ensures got == down && c.packets == []
  {
    got := [];
    ghost var i := 0;
    var more := true;
    while more
      invariant c.shut && i <= |down| && c.packets == WireAll(down)[i..] && got == down[..i]
      invariant !more ==> i == |down|
      decreases |down| - i, more
    {
      var p := c.Recv();
      var r := RecvCtrl(p);
      if i < |down| {
        assert p == Wire(down[i]);
        assert down[i].FdMsg? ==> FirstRights(p.cmsgs, 0);
      }
      match Meaning(r.msg) {
        case Some(d) =>
          got := got + [d];
          i := i + 1;
        case None =>
          more := false;
      }
    }
  }

  /** What the slot decodes is what the socket took before the frontend shut its side, in order, and then the end. */
  method SendAndRead(down: seq<Down>, taken: seq<bool>) returns (got: seq<Down>)
    requires |down| == |taken|
    ensures got == Taken(down, taken)
  {
    var c := new Channel();
    SendAll(c, down, taken);
    assert c.packets == WireAll(Taken(down, taken));
    c.shut := true;
    got := ReadToEnd(c, Taken(down, taken));
  }
}
