/**
  The startup handler: credential dispatch, the three-message SASL exchange held
  in one phase field, and its safety over whole message sequences.
*/
module Sasl {
  import opened Wrappers
  import opened Text
  import opened Scram
  import opened RolPassword
  import S = ScramServer

  const MECHANISM := "SCRAM-SHA-256"

  datatype Initial = Initial(mechanism: string, data: Option<string>)

  /**
    A frontend message during startup. `negotiated` says whether the protocol version
    of a startup message could be agreed on. A password-family message carries what it
    decodes to as SASLInitialResponse and as SASLResponse, None where it does not.
  */
  datatype Message =
    | Startup(negotiated: bool, user: Option<string>, database: Option<string>)
    | Password(initial: Option<Initial>, response: Option<string>)
    | Other

  datatype Frame =
    | StartSasl | Continue(serverFirst: string) | Final(serverFinal: string) | AuthOk | Fatal(sqlstate: string)

  /** One delivery: the crypto primitives, the catalog, the random source, and how many frames the socket takes. */
  datatype Env = Env(crypto: Crypto, lookup: string -> Credential, entropy: Option<seq<byte>>, io: nat)

  datatype Phase = Idle | AwaitFirst(server: Server) | AwaitFinal(server: Server) | Done

  /** What one delivery leaves: the phase, the frames that went out, and whether the handler returned cleanly. */
  datatype Reply = Reply(phase: Phase, frames: seq<Frame>, ok: bool)

  /** Send frames until the socket fails; `sent` is the phase if all went out, `unsent` otherwise. */
  function Emit(env: Env, frames: seq<Frame>, sent: Phase, unsent: Phase): Reply {
    if env.io < |frames| then Reply(unsent, frames[..env.io], false) else Reply(sent, frames, true)
  }

  function Sqlstate(e: ScramError): string {
    if e == NonceGenerationFailed then "XX000" else "28P01"
  }

  function HandleStartup(env: Env, ph: Phase, negotiated: bool, user: Option<string>, database: Option<string>): Reply {
    var u := if user.Some? then user.value else "";
    var db := if database.Some? then database.value else u;
    if !negotiated then Reply(ph, [], false)
    else if db != "postgres" then Emit(env, [Fatal("3D000")], ph, ph)
    else match env.lookup(u)
      case NoPassword => Emit(env, [AuthOk], ph, ph)
      case UnknownRole => Emit(env, [AuthOk], ph, ph)
      case ScramVerifier(v) => Emit(env, [StartSasl], AwaitFirst(NewServer(v)), AwaitFirst(NewServer(v)))
      case Md5(_) => Emit(env, [Fatal("0A000")], ph, ph)
      case Unsupported => Emit(env, [Fatal("28000")], ph, ph)
  }

  function HandleClientFirst(env: Env, s: Server, m: Message): Reply
    requires m.Password?
  {
    match m.initial
    case None => Reply(Done, [], false)
    case Some(Initial(mechanism, data)) =>
      if mechanism != MECHANISM then Emit(env, [Fatal("28P01")], Done, Done)
      else
        var (s', r) := OnClientFirst(s, if data.Some? then data.value else "", env.entropy);
        match r
        case Ok(first) => Emit(env, [Continue(first)], AwaitFinal(s'), Done)
        case Err(e) => Emit(env, [Fatal(Sqlstate(e))], Done, Done)
  }

  function HandleClientFinal(env: Env, s: Server, m: Message): Reply
    requires m.Password?
  {
    match m.response
    case None => Reply(Done, [], false)
    case Some(data) =>
      match OnClientFinal(env.crypto, s, data)
      case Ok(v) => Emit(env, [Final(v), AuthOk], Done, Done)
      case Err(e) => Emit(env, [Fatal(Sqlstate(e))], Done, Done)
  }

  function OnMessage(env: Env, ph: Phase, m: Message): Reply {
    match m
    case Startup(negotiated, user, database) => HandleStartup(env, ph, negotiated, user, database)
    case Password(_, _) =>
      (match ph
       case AwaitFirst(s) => HandleClientFirst(env, s, m)
       case AwaitFinal(s) => HandleClientFinal(env, s, m)
       case _ => Emit(env, [Fatal("08P01")], Done, Done))
    case Other => Reply(ph, [], true)
  }

  // ---------------------------------------------------------------------------
  // The handler object
  // ---------------------------------------------------------------------------

  datatype SaslPhase =
    | IdlePhase
    | AwaitingClientFirst(server: S.ScramServer)
    | AwaitingClientFinal(server: S.ScramServer)
    | DonePhase

  class StartupHandler {
    var sasl: SaslPhase

    constructor ()
      ensures View() == Idle
    {
      sasl := IdlePhase;
    }

    /** The server object owned by the current phase. */
    function Owned(): set<object>
      reads this
    {
      if sasl.AwaitingClientFirst? || sasl.AwaitingClientFinal? then {sasl.server} else {}
    }

    function View(): Phase
      reads this, Owned()
    {
      match sasl
      case IdlePhase => Idle
      case AwaitingClientFirst(s) => AwaitFirst(s.View())
      case AwaitingClientFinal(s) => AwaitFinal(s.View())
      case DonePhase => Done
    }

    /** The phase is taken out of the field and `Done` left behind; only the branches that continue put one back. */
    method OnStartup(env: Env, m: Message) returns (frames: seq<Frame>, ok: bool)
      modifies this, Owned()
      ensures Reply(View(), frames, ok) == OnMessage(env, old(View()), m)
      ensures fresh(Owned() - old(Owned()))
    {
      match m
      case Startup(negotiated, user, database) =>
        frames, ok := HandleStartupMessage(env, negotiated, user, database);
      case Password(_, _) =>
        var phase := sasl;
        sasl := DonePhase;
        match phase {
          case AwaitingClientFirst(server) =>
            frames, ok := HandleFirst(env, m, server);
          case AwaitingClientFinal(server) =>
            frames, ok := HandleFinal(env, m, server);
          case _ =>
            frames, ok := Send(env, [Fatal("08P01")]);
        }
      case Other =>
        frames, ok := [], true;
    }

    method Send(env: Env, out: seq<Frame>) returns (frames: seq<Frame>, ok: bool)
      ensures ok <==> |out| <= env.io
      ensures frames == if ok then out else out[..env.io]
    {
      ok := |out| <= env.io;
      frames := if ok then out else out[..env.io];
    }

    method HandleStartupMessage(env: Env, negotiated: bool, user: Option<string>, database: Option<string>)
      returns (frames: seq<Frame>, ok: bool)
      modifies this
      ensures Reply(View(), frames, ok) == HandleStartup(env, old(View()), negotiated, user, database)
      ensures fresh(Owned() - old(Owned()))
    {
      if !negotiated {
        return [], false;
      }
      var u := if user.Some? then user.value else "";
      var db := if database.Some? then database.value else u;
      if db != "postgres" {
        frames, ok := Send(env, [Fatal("3D000")]);
        return;
      }
      match env.lookup(u)
      case NoPassword =>
        frames, ok := Send(env, [AuthOk]);
      case UnknownRole =>
        frames, ok := Send(env, [AuthOk]);
      case ScramVerifier(v) =>
        var server := new S.ScramServer(v);
        sasl := AwaitingClientFirst(server);
        frames, ok := Send(env, [StartSasl]);
      case Md5(_) =>
        frames, ok := Send(env, [Fatal("0A000")]);
      case Unsupported =>
        frames, ok := Send(env, [Fatal("28000")]);
    }

    method HandleFirst(env: Env, m: Message, server: S.ScramServer) returns (frames: seq<Frame>, ok: bool)
      requires m.Password? && sasl == DonePhase
      modifies this, server
      ensures Reply(View(), frames, ok) == HandleClientFirst(env, old(server.View()), m)
      ensures Owned() <= {server}
    {
      if m.initial.None? {
        return [], false;
      }
      if m.initial.value.mechanism != MECHANISM {
        frames, ok := Send(env, [Fatal("28P01")]);
        return;
      }
      var data := if m.initial.value.data.Some? then m.initial.value.data.value else "";
      var r := server.OnClientFirst(data, env.entropy);
      match r
      case Ok(first) =>
        frames, ok := Send(env, [Continue(first)]);
        if ok {
          sasl := AwaitingClientFinal(server);
        }
      case Err(e) =>
        frames, ok := Send(env, [Fatal(Sqlstate(e))]);
    }

    method HandleFinal(env: Env, m: Message, server: S.ScramServer) returns (frames: seq<Frame>, ok: bool)
      requires m.Password? && sasl == DonePhase
      ensures Reply(View(), frames, ok) == HandleClientFinal(env, server.View(), m)
    {
      if m.response.None? {
        return [], false;
      }
      var r := server.OnClientFinal(env.crypto, m.response.value);
      match r
      case Ok(v) =>
        frames, ok := Send(env, [Final(v), AuthOk]);
      case Err(e) =>
        frames, ok := Send(env, [Fatal(Sqlstate(e))]);
    }
  }

  // ---------------------------------------------------------------------------
  // Whole message sequences
  // ---------------------------------------------------------------------------

  datatype Delivery = Delivery(env: Env, msg: Message)

  function PhaseAfter(ph: Phase, run: seq<Delivery>): Phase {
    if run == [] then ph
    else var last := run[|run| - 1];
      OnMessage(last.env, PhaseAfter(ph, run[..|run| - 1]), last.msg).phase
  }

  /** The reply to the k-th delivery of a run. */
  function ReplyAt(ph: Phase, run: seq<Delivery>, k: nat): Reply
    requires k < |run|
  {
    OnMessage(run[k].env, PhaseAfter(ph, run[..k]), run[k].msg)
  }

  predicate NoStartup(run: seq<Delivery>) {
    forall i :: 0 <= i < |run| ==> !run[i].msg.Startup?
  }

  lemma PhaseStep(ph: Phase, run: seq<Delivery>, k: nat)
    requires k < |run|
    ensures PhaseAfter(ph, run[..k + 1]) == ReplyAt(ph, run, k).phase
  {
    assert run[..k + 1][..k] == run[..k];
  }

  predicate Accepts(r: Reply) { AuthOk in r.frames }

  predicate Continues(r: Reply) { exists f :: f in r.frames && f.Continue? }

  /** At delivery i the handler awaited client-first on the startup's server, accepted it, answered, and kept `s'`. */
  predicate FirstAt(s: Server, run: seq<Delivery>, i: nat, s': Server)
    requires i < |run|
  {
    && PhaseAfter(AwaitFirst(s), run[..i]) == AwaitFirst(s)
    && FirstSucceeds(s, run[i], s') && Continues(ReplyAt(AwaitFirst(s), run, i))
  }

  predicate FirstSucceeds(s: Server, d: Delivery, s': Server) {
    && d.msg.Password? && d.msg.initial.Some? && d.msg.initial.value.mechanism == MECHANISM
    && var data := d.msg.initial.value.data;
       var (t, r) := OnClientFirst(s, if data.Some? then data.value else "", d.env.entropy);
       r.Ok? && t == s'
  }

  predicate FinalAt(s: Server, run: seq<Delivery>, k: nat)
    requires k < |run|
  {
    && run[k].msg.Password? && run[k].msg.response.Some?
    && OnClientFinal(run[k].env.crypto, s, run[k].msg.response.value).Ok?
  }

  lemma {:induction false} DoneIsFinal(ph: Phase, run: seq<Delivery>, j: nat, k: nat)
    requires j <= k <= |run| && NoStartup(run)
    requires PhaseAfter(ph, run[..j]) == Done
    ensures PhaseAfter(ph, run[..k]) == Done
    decreases k
  {
    if j < k {
      DoneIsFinal(ph, run, j, k - 1);
      PhaseStep(ph, run, k - 1);
    }
  }

  /** Where one delivery can have come from. */
  lemma StepOrigin(ph: Phase, d: Delivery)
    requires !d.msg.Startup?
    ensures var next := OnMessage(d.env, ph, d.msg).phase;
            && (next.Idle? ==> ph.Idle?)
            && (next.AwaitFirst? ==> ph == next)
            && (next.AwaitFinal? ==>
                  ph == next
                  || (&& ph.AwaitFirst? && FirstSucceeds(ph.server, d, next.server)
                      && Continues(OnMessage(d.env, ph, d.msg))))
  {
    var r := OnMessage(d.env, ph, d.msg);
    assert |r.frames| == 1 && r.frames[0].Continue? ==> r.frames[0] in r.frames;
  }

  /** Where a phase reached during a run came from. */
  lemma {:induction false} PhaseOrigin(s: Server, run: seq<Delivery>, k: nat)
    requires k <= |run| && NoStartup(run)
    ensures match PhaseAfter(AwaitFirst(s), run[..k])
            case Idle => false
            case AwaitFirst(t) => t == s
            case AwaitFinal(t) => exists i: nat :: i < k && FirstAt(s, run, i, t)
            case Done => true
    decreases k
  {
    if k > 0 {
      PhaseOrigin(s, run, k - 1);
      PhaseStep(AwaitFirst(s), run, k - 1);
      var before, after := PhaseAfter(AwaitFirst(s), run[..k - 1]), PhaseAfter(AwaitFirst(s), run[..k]);
      StepOrigin(before, run[k - 1]);
      assert before.AwaitFirst? && after.AwaitFinal? ==> FirstAt(s, run, k - 1, after.server);
    }
  }

  /**
    After a SCRAM startup, a client is admitted only by a successful client-first
    followed by a successful client-final on the same server object.
  */
  lemma AcceptNeedsExchange(s: Server, run: seq<Delivery>, k: nat)
    requires k < |run| && NoStartup(run)
    requires Accepts(ReplyAt(AwaitFirst(s), run, k))
    ensures exists i: nat, s' :: i < k && FirstAt(s, run, i, s') && FinalAt(s', run, k)
  {
    PhaseOrigin(s, run, k);
    var ph := PhaseAfter(AwaitFirst(s), run[..k]);
    assert ph.AwaitFinal?;
    var i: nat :| i < k && FirstAt(s, run, i, ph.server);
    assert FinalAt(ph.server, run, k);
  }

  lemma PasswordSettles(env: Env, ph: Phase, m: Message)
    requires m.Password?
    ensures Continues(OnMessage(env, ph, m)) || OnMessage(env, ph, m).phase == Done
  {
    var r := OnMessage(env, ph, m);
    assert |r.frames| == 1 && r.frames[0].Continue? ==> r.frames[0] in r.frames;
  }

  lemma AcceptIsPassword(env: Env, ph: Phase, m: Message)
    requires !m.Startup? && Accepts(OnMessage(env, ph, m))
    ensures m.Password? && !Continues(OnMessage(env, ph, m))
  {
  }

  /**
    A password message that is not answered with a server-first message (accepted,
    rejected, undecodable or cut off by the socket) ends the exchange: nothing later
    in the run is accepted, and every later password message is refused.
  */
  lemma OutcomeIsFinal(s: Server, run: seq<Delivery>, j: nat, k: nat)
    requires j < k < |run| && NoStartup(run)
    requires run[j].msg.Password? && !Continues(ReplyAt(AwaitFirst(s), run, j))
    ensures !Accepts(ReplyAt(AwaitFirst(s), run, k))
    ensures run[k].msg.Password? ==> ReplyAt(AwaitFirst(s), run, k) == Emit(run[k].env, [Fatal("08P01")], Done, Done)
  {
    PhaseStep(AwaitFirst(s), run, j);
    PasswordSettles(run[j].env, PhaseAfter(AwaitFirst(s), run[..j]), run[j].msg);
    DoneIsFinal(AwaitFirst(s), run, j + 1, k);
  }

  /** A client is admitted at most once after one startup. */
  lemma AcceptedOnce(s: Server, run: seq<Delivery>, j: nat, k: nat)
    requires j < |run| && k < |run| && NoStartup(run)
    requires Accepts(ReplyAt(AwaitFirst(s), run, j)) && Accepts(ReplyAt(AwaitFirst(s), run, k))
    ensures j == k
  {
    AcceptIsPassword(run[j].env, PhaseAfter(AwaitFirst(s), run[..j]), run[j].msg);
    AcceptIsPassword(run[k].env, PhaseAfter(AwaitFirst(s), run[..k]), run[k].msg);
    if j < k {
      OutcomeIsFinal(s, run, j, k);
    } else if k < j {
      OutcomeIsFinal(s, run, k, j);
    }
  }

  /** The honest client gets in: startup, client-first, client-final, for every key that hashes to StoredKey. */
  lemma HonestRunAccepted(v: Verifier, e0: Env, e1: Env, e2: Env, user: string, first: string, key: Digest)
    requires e0.lookup(user) == ScramVerifier(v) && e2.crypto.hash(key) == v.storedKey
    requires e0.io >= 1 && e1.io >= 1 && e2.io >= 2
    requires OnClientFirst(NewServer(v), first, e1.entropy).1.Ok?
    ensures var reply := OnClientFirst(NewServer(v), first, e1.entropy).1.value;
            var p := ParseClientFirst(first).value;
            var final := ClientFinalMessage(e2.crypto, key, p.gs2Header, p.bare, reply);
            var run := [Delivery(e0, Startup(true, Some(user), Some("postgres"))),
                        Delivery(e1, Password(Some(Initial(MECHANISM, Some(first))), None)),
                        Delivery(e2, Password(None, Some(final)))];
            Accepts(ReplyAt(Idle, run, 2))
  {
    var (s', r) := OnClientFirst(NewServer(v), first, e1.entropy);
    var p := ParseClientFirst(first).value;
    var final := ClientFinalMessage(e2.crypto, key, p.gs2Header, p.bare, r.value);
    var run := [Delivery(e0, Startup(true, Some(user), Some("postgres"))),
                Delivery(e1, Password(Some(Initial(MECHANISM, Some(first))), None)),
                Delivery(e2, Password(None, Some(final)))];
    assert OnClientFinal(e2.crypto, s', final).Ok? by {
      HonestClientAccepted(e2.crypto, NewServer(v), first, e1.entropy, key);
    }
    ThreeDeliveries(v, s', r.value, run[0], run[1], run[2]);
    assert run == [run[0], run[1], run[2]];
  }

  lemma ThreeDeliveries(v: Verifier, s': Server, reply: string, d0: Delivery, d1: Delivery, d2: Delivery)
    requires d0.msg.Startup? && d0.msg.negotiated && d0.msg.user.Some? && d0.msg.database == Some("postgres")
    requires d0.env.lookup(d0.msg.user.value) == ScramVerifier(v)
    requires d1.msg.Password? && d1.msg.initial.Some?
    requires d1.msg.initial.value.mechanism == MECHANISM && d1.msg.initial.value.data.Some?
    requires OnClientFirst(NewServer(v), d1.msg.initial.value.data.value, d1.env.entropy) == (s', Ok(reply))
    requires d2.msg.Password? && d2.msg.response.Some? && OnClientFinal(d2.env.crypto, s', d2.msg.response.value).Ok?
    requires d0.env.io >= 1 && d1.env.io >= 1 && d2.env.io >= 2
    ensures Accepts(ReplyAt(Idle, [d0, d1, d2], 2))
  {
    var run := [d0, d1, d2];
    assert run[..0] == [];
    PhaseStep(Idle, run, 0);
    assert ReplyAt(Idle, run, 0).phase == AwaitFirst(NewServer(v));
    PhaseStep(Idle, run, 1);
    assert ReplyAt(Idle, run, 1).phase == AwaitFinal(s');
  }
}
