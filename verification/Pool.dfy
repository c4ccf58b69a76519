/**
  The pool object itself: the three containers, the id counter, the grow gate and
  the notifier, updated in place by the frontend's tasks. Each method is proved to
  make the step that the transition system makes: `Shows(s)` says that the object
  and the frontend part of `s` agree.
*/
module Pool {
  import opened Wrappers
  import opened DrainRequests
  import opened PoolState
  import opened Protocol

  class Pool {
    var ready: seq<Peer>
    var inFlight: map<nat, nat>
    var draining: map<nat, nat>
    var slotIdCounter: nat
    var growing: bool
    var permit: bool
    var waiters: seq<Fd>
    var watch: map<nat, nat>
    /** Slots whose channel this side has shut for sending. */
    var shut: set<nat>

    ghost function View(): Pools
      reads this
    {
      Pools(ready, inFlight, draining, slotIdCounter)
    }

    /** The frontend part of `s`, between two steps: no other task ever sees the grow flag set. */
    ghost predicate Shows(s: Sys)
      reads this
    {
      View() == s.pools && permit == s.permit && waiters == s.waiters && watch == s.watch && !growing
    }

    constructor ()
      ensures Shows(INIT) && shut == {}
    {
      ready, inFlight, draining, slotIdCounter := [], map[], map[], 0;
      growing, permit, waiters, watch, shut := false, false, [], map[], {};
    }

    /** `total()`. */
    function Size(): (n: nat)
      reads this
      ensures n == Total(View())
    {
      |ready| + |inFlight| + |draining|
    }

    method NextSlotId() returns (id: nat)
      modifies this`slotIdCounter
      ensures id == old(slotIdCounter) && slotIdCounter == id + 1
    {
      id := slotIdCounter;
      slotIdCounter := slotIdCounter + 1;
    }

    /** The accept loop parks a newly connected slot in `in_flight`, under an id never used before. */
    method AcceptOne(now: nat, ghost s: Sys) returns (id: nat)
      requires Shows(s) && s.now == now
      modifies this`slotIdCounter, this`inFlight
      ensures Shows(Step(s, AcceptSlot)) && id == old(slotIdCounter)
    {
      id := NextSlotId();
      inFlight := inFlight[id := now];
    }

    /** `notify_one`: the first waiter, or the one permit. */
    method NotifyOne(ghost s: Sys) returns (woken: Option<Fd>)
      requires Shows(s)
      modifies this`permit, this`waiters
      ensures Shows(Protocol.NotifyOne(s))
      ensures woken == if old(waiters) == [] then None else Some(old(waiters)[0])
    {
      if waiters == [] {
        permit := true;
        woken := None;
      } else {
        woken := Some(waiters[0]);
        waiters := waiters[1..];
      }
    }

    /** A slot announced that it is ready. */
    method OnReady(id: nat, now: nat, ghost s: Sys) returns (woken: Option<Fd>)
      requires Shows(s) && s.now == now
      modifies this`inFlight, this`ready, this`permit, this`waiters
      ensures var u := s.(pools := PoolState.OnReady(s.pools, id, now));
              Shows(if id in s.pools.inFlight then Protocol.NotifyOne(u) else u)
      ensures id !in old(inFlight) ==> woken.None?
    {
      if id !in inFlight {
        return None;
      }
      inFlight := inFlight - {id};
      ready := With(ready, Peer(id, now));
      woken := NotifyOne(s.(pools := PoolState.OnReady(s.pools, id, now)));
    }

    method OnDrainAck(id: nat)
      modifies this`draining
      ensures View() == PoolState.OnDrainAck(old(View()), id)
    {
      if id in draining {
        draining := draining - {id};
      }
    }

    /**
      The reader of a slot ended: the slot leaves whichever container holds it, the
      place it had is reported, and its channel is shut, so that a send still pending fails.
    */
    method CleanupOrphaned(id: nat) returns (was: Place)
      modifies this`ready, this`inFlight, this`draining, this`shut
      ensures View() == Cleanup(old(View()), id) && was == PlaceOf(old(View()), id)
      ensures shut == old(shut) + {id}
    {
      var k := Find(ready, id);
      if k < |ready| {
        ready := Without(ready, id);
        was := Ready;
      } else if id in inFlight {
        inFlight := inFlight - {id};
        was := InFlight;
      } else if id in draining {
        draining := draining - {id};
        was := Draining;
      } else {
        assert draining - {id} == draining;
        was := Gone;
      }
      shut := shut + {id};
    }

    /** The first ready slot, which moves to `in_flight`. */
    method TryPopReady() returns (slot: Option<nat>)
      modifies this`ready, this`inFlight
      ensures (View(), slot) == PopReady(old(View()))
    {
      if ready == [] {
        return None;
      }
      var q := ready[0];
      ready := ready[1..];
      inFlight := inFlight[q.id := q.lastReadyAt];
      slot := Some(q.id);
    }

    /** The grow gate: whether a worker is to be spawned. The guard clears the flag again on the way out. */
    method GrowGate(max: nat) returns (issue: bool)
      modifies this`growing
      ensures issue <==> Total(View()) < max && !old(growing)
      ensures growing == (old(growing) && !issue)
    {
      issue := false;
      if Size() < max && !growing {
        growing := true;
        issue := true;
      }
      if issue {
        growing := false;
      }
    }

    /**
      One turn of a handoff, on arrival or after a notification: take a ready slot,
      or grow and wait. A stored permit only sends it round the loop once more.
    */
    method PollHandoff(fd: Fd, arrived: bool, max: nat, ghost s: Sys) returns (slot: Option<nat>, grown: bool)
      requires Shows(s)
      modifies this`ready, this`inFlight, this`growing, this`permit, this`waiters
      ensures Shows(TryDispatch(s, fd))
      ensures slot == PopReady(s.pools).1
      ensures grown <==> arrived && slot.None? && Total(s.pools) < max
    {
      grown := false;
      slot := TryPopReady();
      if slot.None? {
        if arrived {
          grown := GrowGate(max);
        }
        while permit && slot.None?
          invariant slot.None? && Shows(s.(permit := permit))
          decreases permit
        {
          permit := false;
          slot := TryPopReady();
        }
        waiters := waiters + [fd];
      }
    }

    /** Ready to draining, the watchdog started, and 'X' to be sent: all of it only if the slot was ready. */
    method RequestDrain(id: nat, now: nat, ghost s: Sys, ghost sendOk: bool) returns (asked: bool)
      requires Shows(s) && s.now == now
      modifies this`ready, this`draining, this`watch
      ensures Shows(DrainOne(s, id, sendOk))
      ensures asked <==> id in Ids(s.pools.ready)
    {
      var k := Find(ready, id);
      if k == |ready| {
        return false;
      }
      var q := ready[k];
      ready := Without(ready, id);
      draining := draining[id := q.lastReadyAt];
      watch := watch[id := now + DRAIN_ACK_TIMEOUT];
      asked := true;
    }

    /** The slots in turn; `asked` are the ones sent 'X', in order. */
    method DrainEach(ids: seq<nat>, now: nat, ghost s: Sys, ghost sends: set<nat>) returns (asked: seq<nat>)
      requires Shows(s) && s.now == now
      modifies this`ready, this`draining, this`watch
      ensures Shows(DrainMany(s, ids, sends))
      ensures asked == Asked(s.pools, ids)
    {
      assert ids[..0] == [];
      asked := [];
      for i := 0 to |ids|
        invariant Shows(DrainMany(s, ids[..i], sends)) && DrainMany(s, ids[..i], sends).now == now
        invariant DrainMany(s, ids[..i], sends).pools == DrainAll(s.pools, ids[..i])
        invariant asked == Asked(s.pools, ids[..i])
      {
        assert ids[..i + 1][..i] == ids[..i];
        var sent := RequestDrain(ids[i], now, DrainMany(s, ids[..i], sends), ids[i] in sends);
        if sent {
          asked := asked + [ids[i]];
        }
      }
      assert ids[..|ids|] == ids;
    }

    /** The filter over the ready slots: those idle for longer than the limit, in order. */
    method IdleSlots(now: nat) returns (candidates: seq<nat>)
      ensures candidates == Candidates(ready, now)
    {
      candidates := [];
      for i := 0 to |ready|
        invariant candidates == Candidates(ready[..i], now)
      {
        CandidatesSnoc(ready[..i], ready[i], now);
        assert ready[..i + 1] == ready[..i] + [ready[i]];
        if now > ready[i].lastReadyAt && now - ready[i].lastReadyAt > IDLE_REAP_AFTER {
          candidates := candidates + [ready[i].id];
        }
      }
      assert ready[..|ready|] == ready;
    }

    /** One round of the idle reaper; `asked` are the slots sent 'X'. */
    method ReapOnce(now: nat, floor: nat, ghost s: Sys, ghost sends: set<nat>) returns (asked: seq<nat>)
      requires Shows(s) && s.now == now
      modifies this`ready, this`draining, this`watch
      ensures Shows(Step(s, Reap(floor, sends)))
      ensures asked == Asked(s.pools, ReapList(s.pools, now, floor))
    {
      var candidates := IdleSlots(now);
      var postReap := Sub(|ready|, |candidates|);
      var keep := Sub(floor, postReap);
      var toDrain := SkipFirst(candidates, keep);
      asked := DrainEach(toDrain, now, s, sends);
    }

    /** The ids of the first `n` ready slots. */
    method FirstKeys(n: nat) returns (keys: seq<nat>)
      ensures keys == ReadyKeys(ready[..Min(n, |ready|)])
    {
      keys := [];
      for i := 0 to |ready|
        invariant keys == ReadyKeys(ready[..Min(i, n)])
      {
        if i < n {
          assert ready[..i + 1] == ready[..i] + [ready[i]];
          keys := keys + [ready[i].id];
        }
      }
    }

    /** SIGHUP: drain what exceeds the ceiling, oldest first, ready slots only; `asked` are the slots sent 'X'. */
    method SighupReconcile(max: nat, now: nat, ghost s: Sys, ghost sends: set<nat>) returns (asked: seq<nat>)
      requires Shows(s) && s.now == now
      modifies this`ready, this`draining, this`watch
      ensures Shows(Step(s, Sighup(max, sends)))
      ensures asked == Asked(s.pools, SighupList(s.pools, max))
    {
      var total := Size();
      if total <= max {
        assert SighupList(s.pools, max) == [];
        return [];
      }
      var toDrain := FirstKeys(total - max);
      asked := DrainEach(toDrain, now, s, sends);
    }

    /** The watchdog of a drain: a slot it finds still draining is removed and its channel shut. */
    method WatchdogFires(id: nat) returns (close: bool)
      requires id in watch
      modifies this`draining, this`watch, this`shut
      ensures View() == PoolState.OnDrainAck(old(View()), id) && watch == old(watch) - {id}
      ensures close <==> id in old(draining)
      ensures shut == if close then old(shut) + {id} else old(shut)
    {
      watch := watch - {id};
      close := id in draining;
      if close {
        draining := draining - {id};
        shut := shut + {id};
      }
    }
  }

  /** The candidates the floor does not keep. */
  method SkipFirst(candidates: seq<nat>, keep: nat) returns (toDrain: seq<nat>)
    ensures toDrain == if keep < |candidates| then candidates[keep..] else []
  {
    toDrain := [];
    for i := 0 to |candidates|
      invariant toDrain == if keep < i then candidates[keep..i] else []
    {
      if keep <= i {
        toDrain := toDrain + [candidates[i]];
      }
    }
  }

  lemma {:induction false} CandidatesSnoc(ready: seq<Peer>, q: Peer, now: nat)
    ensures Candidates(ready + [q], now) == Candidates(ready, now) + if Idle(q, now) then [q.id] else []
  {
    if ready != [] {
      CandidatesSnoc(ready[1..], q, now);
      assert (ready + [q])[1..] == ready[1..] + [q];
    }
  }
}
