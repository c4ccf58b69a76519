/**
  Who gets in. Over every sequence of deliveries to one connection's startup handler:
  exactly when a client is admitted, what every refusal tells it, and the frames of an
  honest client's exchange.
*/
module Admission {
  import opened RolPassword
  import opened Sasl
  import opened Scram
  import opened ScramLaws
  import opened Text
  import opened Wrappers

  // ---------------------------------------------------------------------------
  // One delivery
  // ---------------------------------------------------------------------------

  function User(m: Message): string
    requires m.Startup?
  {
    if m.user.Some? then m.user.value else ""
  }

  /** The database defaults to the user name. */
  function Database(m: Message): string
    requires m.Startup?
  {
    if m.database.Some? then m.database.value else User(m)
  }

  /** A startup message that gets as far as the credential lookup. */
  predicate Looked(m: Message) { m.Startup? && m.negotiated && Database(m) == "postgres" }

  /** The client-first message in a SASLInitialResponse; one without data counts as empty. */
  function FirstData(m: Message): string {
    if m.Password? && m.initial.Some? && m.initial.value.data.Some? then m.initial.value.data.value else ""
  }

  /**
    A startup message admits by itself exactly when the protocol was agreed on, it asks
    for the one database there is, and the catalog holds no password for its user.
  */
  lemma StartupAdmits(env: Env, ph: Phase, negotiated: bool, user: Option<string>, database: Option<string>)
    ensures var u := match user case Some(n) => n case None => "";
            var db := match database case Some(d) => d case None => u;
            AuthOk in OnMessage(env, ph, Startup(negotiated, user, database)).frames <==>
            negotiated && db == "postgres" && env.lookup(u) in {NoPassword, UnknownRole} && env.io >= 1
  {
  }

  /** What every other startup message is told, and the phase it leaves. */
  lemma StartupAnswered(env: Env, ph: Phase, m: Message)
    requires m.Startup? && env.io >= 1
    ensures var r := OnMessage(env, ph, m);
            && (!m.negotiated ==> r == Reply(ph, [], false))
            && (m.negotiated && Database(m) != "postgres" ==> r == Reply(ph, [Fatal("3D000")], true))
            && (Looked(m) ==>
                  match env.lookup(User(m))
                  case Md5(_) => r == Reply(ph, [Fatal("0A000")], true)
                  case Unsupported => r == Reply(ph, [Fatal("28000")], true)
                  case ScramVerifier(v) => r == Reply(AwaitFirst(Server(v, "", "", "", "")), [StartSasl], true)
                  case _ => r == Reply(ph, [AuthOk], true))
  {
  }

  /** A password message that nobody waits for is a protocol violation, whatever it holds, and ends the exchange. */
  lemma UnexpectedPassword(env: Env, ph: Phase, m: Message)
    requires m.Password? && (ph == Idle || ph == Done)
    ensures OnMessage(env, ph, m).phase == Done && AuthOk !in OnMessage(env, ph, m).frames
    ensures env.io >= 1 ==> OnMessage(env, ph, m).frames == [Fatal("08P01")]
  {
  }

  /** What is told to a client whose password message is refused, and that the exchange is over then. */
  lemma PasswordRefused(env: Env, ph: Phase, m: Message)
    requires m.Password? && env.io >= 1
    ensures var r := OnMessage(env, ph, m);
            && (ph.AwaitFirst? && m.initial.Some? && m.initial.value.mechanism != "SCRAM-SHA-256" ==>
                  r == Reply(Done, [Fatal("28P01")], true))
            && (ph.AwaitFirst? && m.initial.Some? && m.initial.value.mechanism == "SCRAM-SHA-256" ==>
                  match OnClientFirst(ph.server, FirstData(m), env.entropy).1
                  case Err(NonceGenerationFailed) => r == Reply(Done, [Fatal("XX000")], true)
                  case Err(_) => r == Reply(Done, [Fatal("28P01")], true)
                  case Ok(first) => r.frames == [Continue(first)] && r.phase.AwaitFinal?)
            && (ph.AwaitFinal? && m.response.Some? && OnClientFinal(env.crypto, ph.server, m.response.value).Err? ==>
                  r == Reply(Done, [Fatal("28P01")], true))
            && ((ph.AwaitFirst? && m.initial.None?) || (ph.AwaitFinal? && m.response.None?) ==>
                  r == Reply(Done, [], false))
  {
    if ph.AwaitFinal? && m.response.Some? {
      FinalErrors(env.crypto, ph.server, m.response.value);
    }
  }

  lemma FinalErrors(c: Crypto, s: Server, msg: string)
    ensures OnClientFinal(c, s, msg) != Err(NonceGenerationFailed)
  {
  }

  // ---------------------------------------------------------------------------
  // Any sequence of deliveries
  // ---------------------------------------------------------------------------

  /** The catalog lets the client in without a password, and it can be told so. */
  predicate Trusts(d: Delivery) {
    Looked(d.msg) && d.env.lookup(User(d.msg)) in {NoPassword, UnknownRole} && d.env.io >= 1
  }

  /** A startup message for a role with a SCRAM verifier. */
  predicate StartsSasl(d: Delivery) { Looked(d.msg) && d.env.lookup(User(d.msg)).ScramVerifier? }

  function ServerOf(d: Delivery): Server
    requires StartsSasl(d)
  {
    NewServer(d.env.lookup(User(d.msg)).verifier)
  }

  /** A client-first message that is good on this server, and whose answer went out. */
  predicate GoodFirst(s: Server, d: Delivery) {
    && d.msg.Password? && d.msg.initial.Some? && d.msg.initial.value.mechanism == "SCRAM-SHA-256"
    && OnClientFirst(s, FirstData(d.msg), d.env.entropy).1.Ok? && d.env.io >= 1
  }

  function AfterFirst(s: Server, d: Delivery): Server { OnClientFirst(s, FirstData(d.msg), d.env.entropy).0 }

  predicate GoodFinal(s: Server, d: Delivery) {
    && d.msg.Password? && d.msg.response.Some?
    && OnClientFinal(d.env.crypto, s, d.msg.response.value).Ok? && d.env.io >= 2
  }

  /** Between the two deliveries there was no password message and no other exchange was started. */
  predicate Quiet(run: seq<Delivery>, lo: nat, hi: nat)
    requires hi <= |run|
  {
    forall j :: lo < j < hi ==> !run[j].msg.Password? && !StartsSasl(run[j])
  }

  predicate Begun(run: seq<Delivery>, g: nat, k: nat)
    requires k <= |run|
  {
    g < k && StartsSasl(run[g]) && Quiet(run, g, k)
  }

  predicate Answered(run: seq<Delivery>, g: nat, i: nat, k: nat)
    requires k <= |run|
  {
    i < k && Begun(run, g, i) && GoodFirst(ServerOf(run[g]), run[i]) && Quiet(run, i, k)
  }

  /** What each phase says about the deliveries so far. */
  ghost predicate Explained(run: seq<Delivery>, k: nat, ph: Phase)
    requires k <= |run|
  {
    match ph
    case AwaitFirst(s) => exists g: nat :: Begun(run, g, k) && s == ServerOf(run[g])
    case AwaitFinal(t) => exists g: nat, i: nat :: Answered(run, g, i, k) && t == AfterFirst(ServerOf(run[g]), run[i])
    case _ => true
  }

  lemma QuietStep(run: seq<Delivery>, lo: nat, k: nat)
    requires k < |run| && Quiet(run, lo, k)
    ensures !run[k].msg.Password? && !StartsSasl(run[k]) ==> Quiet(run, lo, k + 1)
  {
  }

  lemma NextPhase(d: Delivery, ph: Phase)
    ensures var next := OnMessage(d.env, ph, d.msg).phase;
            && (StartsSasl(d) ==> next == AwaitFirst(ServerOf(d)))
            && (!StartsSasl(d) && !d.msg.Password? ==> next == ph)
            && (d.msg.Password? ==>
                  next == if ph.AwaitFirst? && GoodFirst(ph.server, d)
                          then AwaitFinal(AfterFirst(ph.server, d)) else Done)
  {
  }

  lemma {:induction false} EveryPhaseExplained(run: seq<Delivery>, k: nat)
    requires k <= |run|
    ensures Explained(run, k, PhaseAfter(Idle, run[..k]))
  {
    if k > 0 {
      var n := k - 1;
      var ph := PhaseAfter(Idle, run[..n]);
      EveryPhaseExplained(run, n);
      PhaseStep(Idle, run, n);
      NextPhase(run[n], ph);
      ExplainedStep(run, n, ph);
    }
  }

  lemma ExplainedStep(run: seq<Delivery>, n: nat, ph: Phase)
    requires n < |run| && Explained(run, n, ph)
    ensures Explained(run, n + 1, OnMessage(run[n].env, ph, run[n].msg).phase)
  {
    NextPhase(run[n], ph);
    if StartsSasl(run[n]) {
      assert Begun(run, n, n + 1);
    } else if ph.AwaitFirst? {
      var g: nat :| Begun(run, g, n) && ph.server == ServerOf(run[g]);
      if run[n].msg.Password? {
        assert GoodFirst(ph.server, run[n]) ==> Answered(run, g, n, n + 1);
      } else {
        QuietStep(run, g, n);
        assert Begun(run, g, n + 1);
      }
    } else if ph.AwaitFinal? && !run[n].msg.Password? {
      var g: nat, i: nat :| Answered(run, g, i, n) && ph.server == AfterFirst(ServerOf(run[g]), run[i]);
      QuietStep(run, i, n);
      assert Answered(run, g, i, n + 1);
    }
  }

  /** A phase that waits stays as it is while nothing but quiet deliveries come in. */
  lemma {:induction false} PhaseStays(run: seq<Delivery>, lo: nat, hi: nat)
    requires lo < hi <= |run| && Quiet(run, lo, hi)
    ensures PhaseAfter(Idle, run[..hi]) == PhaseAfter(Idle, run[..lo + 1])
    decreases hi
  {
    if lo + 1 < hi {
      PhaseStays(run, lo, hi - 1);
      PhaseStep(Idle, run, hi - 1);
      NextPhase(run[hi - 1], PhaseAfter(Idle, run[..hi - 1]));
    }
  }

  lemma PhaseOfBegun(run: seq<Delivery>, g: nat, k: nat)
    requires k <= |run| && Begun(run, g, k)
    ensures PhaseAfter(Idle, run[..k]) == AwaitFirst(ServerOf(run[g]))
  {
    PhaseStays(run, g, k);
    PhaseStep(Idle, run, g);
    NextPhase(run[g], PhaseAfter(Idle, run[..g]));
  }

  lemma PhaseOfAnswered(run: seq<Delivery>, g: nat, i: nat, k: nat)
    requires k <= |run| && Answered(run, g, i, k)
    ensures PhaseAfter(Idle, run[..k]) == AwaitFinal(AfterFirst(ServerOf(run[g]), run[i]))
  {
    PhaseOfBegun(run, g, i);
    PhaseStays(run, i, k);
    PhaseStep(Idle, run, i);
    NextPhase(run[i], PhaseAfter(Idle, run[..i]));
  }

  /** A complete exchange that ends with this delivery. */
  predicate Exchanged(run: seq<Delivery>, g: nat, i: nat, k: nat)
    requires k < |run|
  {
    Answered(run, g, i, k) && GoodFinal(AfterFirst(ServerOf(run[g]), run[i]), run[k])
  }

  /** The client has shown what it takes by this delivery: nothing where the catalog asks nothing, else an exchange. */
  ghost predicate Earned(run: seq<Delivery>, k: nat)
    requires k < |run|
  {
    Trusts(run[k]) || exists g: nat, i: nat :: Exchanged(run, g, i, k)
  }

  /**
    Whatever a client sends, in whatever order and however often: it is admitted at a
    delivery exactly when the catalog asks no password of it there, or when that is the
    last of a startup, a good client-first and a good client-final, on one server object
    and with no other password message and no other exchange started in between.
  */
  lemma AdmissionExact(run: seq<Delivery>, k: nat)
    requires k < |run|
    ensures AuthOk in ReplyAt(Idle, run, k).frames <==> Earned(run, k)
  {
    var ph := PhaseAfter(Idle, run[..k]);
    AdmitsWhen(run[k], ph);
    EveryPhaseExplained(run, k);
    if ph.AwaitFinal? && GoodFinal(ph.server, run[k]) {
      FinalCompletes(run, k, ph.server);
    }
    if g: nat, i: nat :| Exchanged(run, g, i, k) {
      PhaseOfAnswered(run, g, i, k);
    }
  }

  lemma FinalCompletes(run: seq<Delivery>, k: nat, t: Server)
    requires k < |run| && Explained(run, k, AwaitFinal(t)) && GoodFinal(t, run[k])
    ensures exists g: nat, i: nat :: Exchanged(run, g, i, k)
  {
    var g: nat, i: nat :| Answered(run, g, i, k) && t == AfterFirst(ServerOf(run[g]), run[i]);
    assert Exchanged(run, g, i, k);
  }

  lemma AdmitsWhen(d: Delivery, ph: Phase)
    ensures AuthOk in OnMessage(d.env, ph, d.msg).frames <==>
            Trusts(d) || (ph.AwaitFinal? && GoodFinal(ph.server, d))
  {
  }

  // ---------------------------------------------------------------------------
  // The honest client
  // ---------------------------------------------------------------------------

  lemma StartAnswer(d: Delivery, v: Verifier)
    requires StartsSasl(d) && ServerOf(d) == NewServer(v) && d.env.io >= 1
    ensures OnMessage(d.env, Idle, d.msg) == Reply(AwaitFirst(NewServer(v)), [StartSasl], true)
  {
  }

  lemma FirstAnswer(s: Server, d: Delivery, first: string)
    requires GoodFirst(s, d) && OnClientFirst(s, FirstData(d.msg), d.env.entropy).1 == Ok(first)
    ensures OnMessage(d.env, AwaitFirst(s), d.msg) == Reply(AwaitFinal(AfterFirst(s, d)), [Continue(first)], true)
  {
  }

  lemma FinalAnswer(s: Server, d: Delivery, signature: string)
    requires GoodFinal(s, d) && OnClientFinal(d.env.crypto, s, d.msg.response.value) == Ok(signature)
    ensures OnMessage(d.env, AwaitFinal(s), d.msg) == Reply(Done, [Final(signature), AuthOk], true)
  {
  }

  lemma ThreeReplies(d0: Delivery, d1: Delivery, d2: Delivery)
    ensures var run := [d0, d1, d2];
            var a := OnMessage(d0.env, Idle, d0.msg);
            var b := OnMessage(d1.env, a.phase, d1.msg);
            && ReplyAt(Idle, run, 0) == a && ReplyAt(Idle, run, 1) == b
            && ReplyAt(Idle, run, 2) == OnMessage(d2.env, b.phase, d2.msg)
  {
    var run := [d0, d1, d2];
    assert run[..0] == [];
    PhaseStep(Idle, run, 0);
    PhaseStep(Idle, run, 1);
  }

  /** The three deliveries of an honest client, every message written out, and all that it is sent back. */
  lemma HonestFrames(v: Verifier, e0: Env, e1: Env, e2: Env, user: string, flag: string, authzid: string,
                     name: string, nonce: string, key: Digest)
    requires e0.lookup(user) == ScramVerifier(v) && e0.io >= 1 && e1.io >= 1 && e2.io >= 2 && e1.entropy.Some?
    requires (flag == "n" || flag == "y") && Free(authzid, ',') && Free(name, ',') && Free(nonce, ',') && nonce != ""
    requires e2.crypto.hash(key) == v.storedKey
    requires Utf8(Written(e2.crypto, v, flag, authzid, name, nonce, e1.entropy.value, key).clientFirst)
    ensures var w := Written(e2.crypto, v, flag, authzid, name, nonce, e1.entropy.value, key);
            var run := [Delivery(e0, Startup(true, Some(user), Some("postgres"))),
                        Delivery(e1, Password(Some(Initial("SCRAM-SHA-256", Some(w.clientFirst))), None)),
                        Delivery(e2, Password(None, Some(w.final)))];
            && ReplyAt(Idle, run, 0).frames == [StartSasl]
            && ReplyAt(Idle, run, 1).frames == [Continue(w.serverFirst)]
            && ReplyAt(Idle, run, 2).frames == [Final(w.signature), AuthOk]
  {
    var w := Written(e2.crypto, v, flag, authzid, name, nonce, e1.entropy.value, key);
    var run := [Delivery(e0, Startup(true, Some(user), Some("postgres"))),
                Delivery(e1, Password(Some(Initial("SCRAM-SHA-256", Some(w.clientFirst))), None)),
                Delivery(e2, Password(None, Some(w.final)))];
    HonestExchange(e2.crypto, v, flag, authzid, name, nonce, e1.entropy.value, key);
    ThreeReplies(run[0], run[1], run[2]);
    assert run == [run[0], run[1], run[2]];
    StartAnswer(run[0], v);
    FirstAnswer(NewServer(v), run[1], w.serverFirst);
    FinalAnswer(AfterFirst(NewServer(v), run[1]), run[2], w.signature);
  }
}
