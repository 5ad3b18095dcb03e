/** What every run of the AFK workers keeps, under every interleaving and every answer of the
    outside world: exclusion, no lost work, and a bound on the work done. */
module RunnerTheorems {
  import opened Collections
  import opened FleetState
  import opened Runner

  // ---------------------------------------------------------------------------
  // The invariant
  // ---------------------------------------------------------------------------

  lemma StartInv(f: Fleet)
    requires Start(f)
    ensures Inv(f)
  {
    assert forall k | SlotOf(f.store.slots, k).Some? :: k in BusySlots(f.store);
  }

  /** After any step of kind `StepKind` with a consistent store, the invariant holds again. */
  lemma StepKeepsInv(f: Fleet, w: int, g: Fleet, n: int, q: Phase)
    requires Inv(f) && StepKind(f, w, g, n, q)
    requires Consistent(g.store) && g.store.concurrency == f.store.concurrency
    ensures Inv(g)
  {
    forall v | 0 <= v < |g.workers| ensures WorkerOk(g, v) {
      assert WorkerOk(f, v);
      if Busy(f.workers[v]) && v != w {
        OtherHolders(f, w, g, n, q, v);
      }
    }
    forall u, v, m | Works(g, u, m) && Works(g, v, m) ensures u == v {
      if Claims(f, w, g, n) {
        assert IssueOk(n, f.store.issues[n]);
        if u != w { assert WorkerOk(f, u); assert Works(f, u, m); }
        if v != w { assert WorkerOk(f, v); assert Works(f, v, m); }
      } else {
        assert Works(f, u, m) && Works(f, v, m);
      }
    }
    forall k | SlotOf(g.store.slots, k).Some?
      ensures exists v :: Works(g, v, g.store.slots[k].value)
    {
      var m := g.store.slots[k].value;
      if Claims(f, w, g, n) && m == n {
        assert Works(g, w, n);
      } else {
        assert SlotOk(g.store, k);
        assert SlotOf(f.store.slots, k) == Some(m);
        var v :| Works(f, v, m);
        assert WorkerOk(f, w) && SlotOk(f.store, k);
        assert Works(g, v, m);
      }
    }
  }

  /** A step of one worker leaves what the other workers hold alone. */
  lemma OtherHolders(f: Fleet, w: int, g: Fleet, n: int, q: Phase, v: int)
    requires Inv(f) && StepKind(f, w, g, n, q)
    requires 0 <= v < |f.workers| && v != w && Busy(f.workers[v])
    ensures HoldsSlot(g.store, f.workers[v].issue)
  {
    var m := f.workers[v].issue;
    assert WorkerOk(f, v);
    assert Works(f, v, m);
    if Claims(f, w, g, n) {
      assert IssueOk(m, f.store.issues[m]);
    } else if Settles(f, w, g, n) {
      assert WorkerOk(f, w);
      assert m != n;
    }
  }

  lemma StepKeeps(f: Fleet, w: int, input: Input, autoMerge: bool)
    requires Inv(f) && Next(f, w, input, autoMerge) != NotEnabled
    ensures Next(f, w, input, autoMerge).Moved?
    ensures var g := Next(f, w, input, autoMerge).fleet;
      && Inv(g) && Orphans(g.store) <= Orphans(f.store) && 0 <= w < |g.workers|
      && StepKind(f, w, g, Subject(f, w, g), g.workers[w])
  {
    StepCases(f, w, input, autoMerge);
    var g := Next(f, w, input, autoMerge).fleet;
    DisciplinedRun(f.store, WorkerStretch(f.store, f.workers[w], input, autoMerge).value.actions);
    StepKeepsInv(f, w, g, Subject(f, w, g), g.workers[w]);
  }

  // ---------------------------------------------------------------------------
  // Runs
  // ---------------------------------------------------------------------------

  datatype Move = Move(worker: int, input: Input)

  /** A run from a freshly seeded store: one more state than moves. */
  ghost predicate Run(trace: seq<Fleet>, moves: seq<Move>, autoMerge: bool) {
    && |trace| == |moves| + 1 && Start(trace[0])
    && forall i | 0 <= i < |moves| ::
         Next(trace[i], moves[i].worker, moves[i].input, autoMerge) == Moved(trace[i + 1])
  }

  lemma {:induction false} RunKeepsInv(trace: seq<Fleet>, moves: seq<Move>, autoMerge: bool, i: nat)
    requires Run(trace, moves, autoMerge) && i < |trace|
    ensures Inv(trace[i])
    ensures Orphans(trace[i].store) <= Orphans(trace[0].store)
    ensures trace[i].store.concurrency == trace[0].store.concurrency
  {
    if i == 0 {
      StartInv(trace[0]);
    } else {
      RunKeepsInv(trace, moves, autoMerge, i - 1);
      var move := moves[i - 1];
      assert Next(trace[i - 1], move.worker, move.input, autoMerge) == Moved(trace[i - 1 + 1]);
      StepKeeps(trace[i - 1], move.worker, move.input, autoMerge);
    }
  }

  /** No dispatch of a run ever raises: whatever a suspended worker comes back with, it moves on. */
  lemma NeverCrashes(trace: seq<Fleet>, moves: seq<Move>, autoMerge: bool, i: nat, w: int, input: Input)
    requires Run(trace, moves, autoMerge) && i < |trace|
    ensures Next(trace[i], w, input, autoMerge) != Crashed
  {
    RunKeepsInv(trace, moves, autoMerge, i);
    if Next(trace[i], w, input, autoMerge) != NotEnabled {
      StepKeeps(trace[i], w, input, autoMerge);
    }
  }

  // ---------------------------------------------------------------------------
  // Claim exclusion
  // ---------------------------------------------------------------------------

  /** In every reachable state: a slot names an issue exactly when the issue (unless a killed run
      orphaned it) names the slot; queued and settled issues name none; an in-flight issue that is
      not an orphan is being processed, and by one worker only. */
  lemma ClaimExclusion(trace: seq<Fleet>, moves: seq<Move>, autoMerge: bool, i: nat)
    requires Run(trace, moves, autoMerge) && i < |trace|
    ensures var s := trace[i].store;
      && (forall n, k | n in s.issues && n !in Orphans(trace[0].store) ::
            SlotOf(s.slots, k) == Some(n) <==> s.issues[n].slot == Some(k))
      && (forall n | n in s.issues && !InFlight(s.issues[n].status) :: s.issues[n].slot.None?)
      && (forall n | n in s.issues && InFlight(s.issues[n].status) && n !in Orphans(trace[0].store) ::
            exists w :: Works(trace[i], w, n))
      && (forall v, w, n | Works(trace[i], v, n) && Works(trace[i], w, n) :: v == w)
  {
    RunKeepsInv(trace, moves, autoMerge, i);
    var f := trace[i];
    var s := f.store;
    forall n, k | n in s.issues && n !in Orphans(trace[0].store)
      ensures SlotOf(s.slots, k) == Some(n) <==> s.issues[n].slot == Some(k)
    {
      if SlotOf(s.slots, k) == Some(n) { assert SlotOk(s, k); }
      assert n !in Orphans(s);
    }
    forall n | n in s.issues
      ensures !InFlight(s.issues[n].status) ==> s.issues[n].slot.None?
      ensures InFlight(s.issues[n].status) && n !in Orphans(trace[0].store) ==> exists w :: Works(f, w, n)
    {
      assert IssueOk(n, s.issues[n]);
      if InFlight(s.issues[n].status) && n !in Orphans(trace[0].store) {
        assert n !in Orphans(s);
        var k := s.issues[n].slot.value;
        assert SlotOf(s.slots, k) == Some(n);
      }
    }
  }

  function BusyWorkers(f: Fleet): set<int> {
    set w | 0 <= w < |f.workers| && Busy(f.workers[w])
  }

  ghost function WorkerOn(f: Fleet, k: int): (w: int)
    requires Inv(f) && SlotOf(f.store.slots, k).Some?
    ensures Works(f, w, f.store.slots[k].value)
  {
    var w :| Works(f, w, f.store.slots[k].value); w
  }

  /** Pigeonhole: there are exactly as many busy slots as processing workers. */
  lemma BusySlotsAreBusyWorkers(f: Fleet)
    requires Inv(f)
    ensures |BusySlots(f.store)| == |BusyWorkers(f)|
  {
    var on := map k | k in BusySlots(f.store) :: WorkerOn(f, k);
    forall j, k | j in on && k in on && j != k ensures on[j] != on[k] {
      assert SlotOk(f.store, j) && SlotOk(f.store, k);
    }
    InjectiveCard(on);
    assert on.Keys == BusySlots(f.store);
    forall w | w in BusyWorkers(f) ensures w in on.Values {
      assert WorkerOk(f, w);
      var n := f.workers[w].issue;
      var k := f.store.issues[n].slot.value;
      assert k in BusySlots(f.store);
      assert Works(f, w, n) && Works(f, on[k], n);
      assert on[k] in on.Values;
    }
    assert on.Values == BusyWorkers(f);
  }

  /** So a worker that is not processing always finds a free slot: `claim_next` comes back empty
      only when nothing is claimable. */
  lemma SlotFreeForIdleWorker(f: Fleet, w: int)
    requires Inv(f) && 0 <= w < |f.workers| && !Busy(f.workers[w])
    ensures FreeSlotIndex(f.store).Some?
  {
    if FreeSlotIndex(f.store).None? {
      var all := Range(0, f.store.concurrency);
      RangeCard(0, f.store.concurrency);
      forall k | k in all ensures k in BusySlots(f.store) {
        assert SlotOf(f.store.slots, k).Some?;
      }
      SubsetCard(all, BusySlots(f.store));
      BusySlotsAreBusyWorkers(f);
      assert w in all && w !in BusyWorkers(f);
      SubsetCard(BusyWorkers(f), all - {w});
    }
  }

  lemma ClaimRefusedOnlyForBlockers(
      trace: seq<Fleet>, moves: seq<Move>, autoMerge: bool, i: nat, w: int, open: set<int>)
    requires Run(trace, moves, autoMerge) && i < |trace|
    requires 0 <= w < |trace[i].workers| && !Busy(trace[i].workers[w])
    ensures ClaimNext(trace[i].store, open).None? <==>
      forall n | n in trace[i].store.issues && trace[i].store.issues[n].status.Queued? ::
        Withheld(trace[i].store.issues[n], open)
  {
    RunKeepsInv(trace, moves, autoMerge, i);
    SlotFreeForIdleWorker(trace[i], w);
    var s := trace[i].store;
    if (forall n | n in s.issues && s.issues[n].status.Queued? :: Withheld(s.issues[n], open)) {
      assert forall n | n in s.issues :: !Claimable(s.issues[n], open);
    }
    if ClaimNext(s, open).None? {
      forall n | n in s.issues && s.issues[n].status.Queued? ensures Withheld(s.issues[n], open) {
        assert !Claimable(s.issues[n], open);
      }
    }
  }

  // ---------------------------------------------------------------------------
  // No lost work
  // ---------------------------------------------------------------------------

  predicate AllReturned(f: Fleet) {
    forall w | 0 <= w < |f.workers| :: f.workers[w].Returned?
  }

  /** When the last worker has returned, no slot is busy and every issue is settled, or still queued
      behind a blocker that this worker read with force=True in its very last stretch (or is an
      in-flight leftover of a killed run that the session was not asked to resume). Workers that
      left earlier, after their own forced read, do not change this. */
  lemma NoWorkLost(trace: seq<Fleet>, moves: seq<Move>, autoMerge: bool)
    requires Run(trace, moves, autoMerge) && AllReturned(trace[|moves|])
    ensures |moves| > 0
    ensures var s := trace[|moves|].store; var last := moves[|moves| - 1];
      && BusySlots(s) == {}
      && 0 <= last.worker < |trace[|moves| - 1].workers|
      && (forall n | n in s.issues ::
            || Terminal(s.issues[n].status)
            || n in Orphans(trace[0].store)
            || (&& s.issues[n].status.Queued?
                && trace[|moves| - 1].workers[last.worker].Rechecking?
                && last.input.Blockers? && Withheld(s.issues[n], last.input.open)))
  {
    assert trace[0].workers[0] == Looping;
    var i := |moves| - 1;
    var f, g, w, input := trace[i], trace[i + 1], moves[i].worker, moves[i].input;
    assert Next(f, w, input, autoMerge) == Moved(g);
    RunKeepsInv(trace, moves, autoMerge, i);
    RunKeepsInv(trace, moves, autoMerge, i + 1);
    StepKeeps(f, w, input, autoMerge);
    ReturnsLast(f, w, g, Subject(f, w, g), g.workers[w]);
    BusySlotsAreBusyWorkers(g);
    assert BusyWorkers(g) == {};
    forall n | n in g.store.issues
      ensures Terminal(g.store.issues[n].status) || n in Orphans(trace[0].store) ||
        (g.store.issues[n].status.Queued? && f.workers[w].Rechecking? && input.Blockers?
         && Withheld(g.store.issues[n], input.open))
    {
      ClaimExclusion(trace, moves, autoMerge, i + 1);
      assert forall v :: !Works(g, v, n);
      if g.store.issues[n].status.Queued? {
        SlotFreeForIdleWorker(f, w);
        assert !IsDrained(f.store);
        assert !Claimable(g.store.issues[n], input.open);
      }
    }
  }

  /** The step into the all-returned state is a worker leaving an otherwise returned fleet. */
  lemma ReturnsLast(f: Fleet, w: int, g: Fleet, n: int, q: Phase)
    requires 0 <= w < |f.workers| && StepKind(f, w, g, n, q) && AllReturned(g)
    ensures f.workers[w] != Returned ==> Leaves(f, w, g) && !Busy(f.workers[w])
    ensures g.store == f.store || f.workers[w] == Returned
  {
    assert g.workers[w].Returned?;
  }

  // ---------------------------------------------------------------------------
  // Nobody waits for nothing
  // ---------------------------------------------------------------------------

  /** A worker goes to sleep only while some worker is processing an issue. */
  lemma WaitsOnlyForABusyWorker(trace: seq<Fleet>, moves: seq<Move>, autoMerge: bool, i: nat)
    requires Run(trace, moves, autoMerge) && i < |moves| && trace[i + 1] == trace[i]
    ensures exists v, n :: v != moves[i].worker && Works(trace[i], v, n)
  {
    var f, w := trace[i], moves[i].worker;
    assert Next(f, w, moves[i].input, autoMerge) == Moved(trace[i + 1]);
    RunKeepsInv(trace, moves, autoMerge, i);
    StepKeeps(f, w, moves[i].input, autoMerge);
    StillOnlyWhenWaiting(f, w, f, Subject(f, w, f), f.workers[w]);
    assert Waits(f, w, f);
    assert BusySlots(f.store) != {};
    var k := Pick(BusySlots(f.store));
    var v := WorkerOn(f, k);
    assert Works(f, v, f.store.slots[k].value) && v != w;
  }

  lemma StillOnlyWhenWaiting(f: Fleet, w: int, g: Fleet, n: int, q: Phase)
    requires 0 <= w < |f.workers| && StepKind(f, w, g, n, q)
    ensures g == f ==> Waits(f, w, g)
  {
  }
}
