/** From the live store to the timeline: what a running session leaves in the log, read back as its
    latest session, replays to the store's own state and measures the run truthfully. */
module LiveJournal {
  import opened Collections
  import opened FleetState
  import opened Snapshot
  import opened Journal
  import opened FleetStore
  import opened IssueHistory
  import opened Timeline
  import opened Metrics
  import opened Accounts
  import opened Runner
  import opened RunnerTheorems
  import opened Resume
  import Runs = Sessions

  function LastOf(s: AfkState, states: seq<AfkState>): AfkState {
    if states == [] then s else states[|states| - 1]
  }

  lemma CoreTransitive(s: AfkState, t: AfkState, u: AfkState)
    requires SameCore(s, t) && SameCore(t, u)
    ensures SameCore(s, u)
  {
    forall n | n in s.issues ensures CoreIssue(s.issues[n]) == CoreIssue(u.issues[n]) {
      assert CoreIssue(t.issues[n]) == CoreIssue(u.issues[n]);
    }
  }

  /** What was dispatched after the last recorded action changed no more than blockers and costs. */
  lemma {:induction false} LastRecordedIsCurrent(s: AfkState, calls: seq<Call>)
    ensures SameCore(LastOf(s, LiveStates(s, calls)), CallAll(s, calls))
    decreases |calls|
  {
    hide Reduce, SameCore;
    if calls == [] {
      SameCoreReflexive(s);
    } else {
      var a, t := calls[0].action, Dispatched(s, calls[0].action);
      LastRecordedIsCurrent(t, calls[1..]);
      if Logged(s, a) {
        assert LiveStates(s, calls) == [t] + LiveStates(t, calls[1..]);
        assert LastOf(s, LiveStates(s, calls)) == LastOf(t, LiveStates(t, calls[1..]));
      } else {
        assert LiveStates(s, calls) == LiveStates(t, calls[1..]);
        SameCoreReflexive(s);
        UnrecordedKeepsCore(s, a);
        if LiveStates(t, calls[1..]) == [] { CoreTransitive(s, t, CallAll(t, calls[1..])); }
      }
    }
  }

  lemma SameCoreReflexive(s: AfkState)
    ensures SameCore(s, s)
  {
  }

  lemma UnrecordedKeepsCore(s: AfkState, a: Action)
    requires !Logged(s, a)
    ensures SameCore(s, Dispatched(s, a))
  {
    SameCoreReflexive(s);
  }

  /** The lines of the session in the log of a live store. */
  ghost function OwnLines(store: Store): seq<Event>
    reads store, store.recorder
    requires store.Valid() && store.recorder != null
  {
    store.recorder.log[|store.earlier|..]
  }

  /** No earlier line carries the session's id, which names a second of local time. */
  ghost predicate FreshId(store: Store)
    reads store, store.recorder
  {
    && store.recorder != null && store.recorder.session != ""
    && forall i | 0 <= i < |store.earlier| :: store.earlier[i].session != store.recorder.session
  }

  /** At any moment the latest session of the log is the store's own exactly if the id was new, and what is
      in it journals the store's calls, whoever else adds lines to it. */
  lemma LatestIsOwn(store: Store)
    requires store.Valid() && store.recorder != null && store.recorder.session != ""
    ensures SessionEvents(store.recorder.log, None) == OwnLines(store) <==> FreshId(store)
    ensures Journals(OwnLines(store), store.recorder.session, store.attached, store.start, store.calls,
                     store.recorder.digest)
  {
    hide Reduce, ToJson, Recorded, SessionEvents;
    var own := OwnLines(store);
    assert store.recorder.log == store.earlier + own;
    LatestSession(store.earlier, own, store.recorder.session);
  }

  /** At any moment of a session with a new id: replaying the latest session of the log gives the store's
      state, up to blockers and costs, and each digest is right exactly if no live issue's blockers had
      been refreshed by then. */
  lemma TimelineShowsTheStore(store: Store)
    requires store.Valid() && FreshId(store)
    ensures var events, digest := SessionEvents(store.recorder.log, None), store.recorder.digest;
      var steps := Replay(events, digest); var states := [store.start] + LiveStates(store.start, store.calls);
      && steps.Some? && |steps.value| == |states|
      && SameCore(steps.value[|states| - 1].state, store.state)
      && (Injective(digest) ==> forall i | 0 <= i < |states| ::
            steps.value[i].digestOk <==> BlockedAs(states[i], EntryBlockers(BlockersOf(store.start), store.calls)))
  {
    hide Reduce, ToJson, Recorded, Replay, SameCore, SessionEvents, BlockedAs;
    var r, start, calls := store.recorder, store.start, store.calls;
    var events, digest := SessionEvents(r.log, None), r.digest;
    var states := [start] + LiveStates(start, calls);
    LatestIsOwn(store);
    ReplayIsASimulation(events, r.session, store.attached, start, calls, digest);
    assert Mirrors(Replay(events, digest).value[|states| - 1], states[|states| - 1], digest);
    LastRecordedIsCurrent(start, calls);
    assert states[|states| - 1] == LastOf(start, LiveStates(start, calls));
    CoreTransitive(Replay(events, digest).value[|states| - 1].state, states[|states| - 1], store.state);
    if Injective(digest) {
      forall i | 0 <= i < |states|
        ensures Replay(events, digest).value[i].digestOk <==>
          BlockedAs(states[i], EntryBlockers(BlockersOf(start), calls))
      {
        DigestOkExactly(events, r.session, store.attached, start, calls, digest, i);
      }
    }
  }

  /** A session of the runner: the base it starts from after a history, the seeding, then a run. */
  ghost predicate RunOfSession(sessions: seq<Session>, concurrency: int, maxRetries: int, items: seq<Item>,
                               trace: seq<Fleet>, moves: seq<Move>, autoMerge: bool)
  {
    var base := BaseOf(DiskAfter(sessions), concurrency, maxRetries);
    && History(sessions) && concurrency >= 1 && Run(trace, moves, autoMerge)
    && trace[0].store == Seeded(base, items)
  }

  /** What such a session dispatches, seeding included, keeps the discipline from the base on. */
  lemma SessionIsDisciplined(sessions: seq<Session>, concurrency: int, maxRetries: int, items: seq<Item>,
                             trace: seq<Fleet>, moves: seq<Move>, autoMerge: bool)
    requires RunOfSession(sessions, concurrency, maxRetries, items, trace, moves, autoMerge)
    ensures var base := BaseOf(DiskAfter(sessions), concurrency, maxRetries);
      var actions := SeedActions(base, items) + Runs.RunActions(trace, moves, autoMerge, |moves|);
      && Consistent(base) && base.concurrency == concurrency && DisciplinedAll(base, actions)
      && DispatchedAll(base, actions) == trace[|moves|].store
  {
    hide Reduce, Disciplined, Run, Consistent, Counted, Ready, LastFor, SeedActions, Runs.RunActions, DiskAfter,
      BusySlots;
    var base := BaseOf(DiskAfter(sessions), concurrency, maxRetries);
    CountersSurviveHistory(sessions);
    BaseIsConsistent(DiskAfter(sessions), concurrency, maxRetries);
    SeedingReadies(base, items);
    RunHasMoves(trace, moves, autoMerge);
    Runs.RunIsDisciplined(trace, moves, autoMerge, |moves|);
    DisciplinedAllConcat(base, SeedActions(base, items), Runs.RunActions(trace, moves, autoMerge, |moves|));
    DispatchedAllConcat(base, SeedActions(base, items), Runs.RunActions(trace, moves, autoMerge, |moves|));
  }

  lemma RunHasMoves(trace: seq<Fleet>, moves: seq<Move>, autoMerge: bool)
    requires Run(trace, moves, autoMerge)
    ensures |trace| == |moves| + 1
  {
  }

  /** Lines of other kinds do not disturb the metrics. */
  lemma JournalIsMeasured(events: seq<Event>, session: string, ts: int, s: AfkState, calls: seq<Call>,
                          digest: Json -> string, steps: seq<Step>, m: RunMetrics)
    requires Journals(events, session, ts, s, calls, digest) && InOrder(ts, calls)
    requires Consistent(s) && s.concurrency >= 1 && DisciplinedAll(s, ActionsOf(calls))
    requires Replay(events, digest) == Some(steps) && MetricsOf(m, steps)
    ensures MeasuredTruthfully(steps, m)
  {
    hide Reduce, Disciplined, DisciplinedAll, Consistent, Replay, SessionLog, MetricsOf, AgesAddUp, Clocked,
      Utilization, RawUtilization, Journals, InOrder, ActionsOf;
    ReplayOfSession(events, session, ts, s, calls, digest);
    TotalsAreAges(session, ts, s, calls, digest);
    UtilizationNeverClamped(session, ts, s, calls, digest, steps, m);
  }

  ghost predicate MeasuredTruthfully(steps: seq<Step>, m: RunMetrics) {
    && steps != [] && 0 <= m.busy <= m.concurrency * m.wall && Utilization(m) == RawUtilization(m)
    && Clocked(steps) && AgesAddUp(steps)
  }

  /** The metrics are those of the latest session in the store's log. */
  ghost predicate ReadOff(store: Store, steps: seq<Step>, m: RunMetrics)
    reads store, store.recorder
  {
    && store.recorder != null && steps != [] && MetricsOf(m, steps)
    && Replay(SessionEvents(store.recorder.log, None), store.recorder.digest) == Some(steps)
  }

  /** The store's dispatches kept the discipline, by clocks that do not run backwards. */
  ghost predicate Orderly(start: AfkState, attached: int, calls: seq<Call>) {
    Consistent(start) && start.concurrency >= 1 && DisciplinedAll(start, ActionsOf(calls)) && InOrder(attached, calls)
  }

  /** Of an orderly store the metrics tell the truth: slots are never over-used, so the clamp on utilization
      never bites, and every issue's total is its age, made up of its times in status. */
  lemma StoreIsMeasuredTruthfully(store: Store, steps: seq<Step>, m: RunMetrics)
    requires store.Valid() && FreshId(store) && ReadOff(store, steps, m)
    requires Orderly(store.start, store.attached, store.calls)
    ensures MeasuredTruthfully(steps, m)
  {
    hide Consistent, DisciplinedAll, ActionsOf, InOrder, Reduce, Replay, MetricsOf, MeasuredTruthfully, Journals,
      SessionEvents, LogHolds;
    LatestIsOwn(store);
    JournalIsMeasured(OwnLines(store), store.recorder.session, store.attached, store.start, store.calls,
                      store.recorder.digest, steps, m);
  }

  /** And if nothing was orphaned when it was attached, the time its slots were busy is the time its issues were
      in flight. */
  lemma StoreSlotTimeIsIssueTime(store: Store, steps: seq<Step>, m: RunMetrics)
    requires store.Valid() && FreshId(store) && ReadOff(store, steps, m)
    requires Orderly(store.start, store.attached, store.calls) && Orphans(store.start) == {}
    ensures m.busy == Sum(map n | n in m.dwell :: DwellInFlight(m.dwell[n]))
  {
    hide Consistent, DisciplinedAll, ActionsOf, InOrder, Reduce, Replay, MetricsOf, Journals, SessionEvents, LogHolds,
      Orphans, DwellInFlight;
    LatestIsOwn(store);
    SlotTimeIsIssueTime(OwnLines(store), store.recorder.session, store.attached, store.start, store.calls,
                        store.recorder.digest, steps, m);
  }

  /** A session of the runner made the store's dispatches. */
  ghost predicate MadeByRunner(start: AfkState, calls: seq<Call>, sessions: seq<Session>, concurrency: int,
                               maxRetries: int, items: seq<Item>, trace: seq<Fleet>, moves: seq<Move>, autoMerge: bool)
  {
    && RunOfSession(sessions, concurrency, maxRetries, items, trace, moves, autoMerge)
    && start == BaseOf(DiskAfter(sessions), concurrency, maxRetries)
    && ActionsOf(calls) == SeedActions(start, items) + Runs.RunActions(trace, moves, autoMerge, |moves|)
  }

  lemma RunnerIsOrderly(start: AfkState, attached: int, calls: seq<Call>, sessions: seq<Session>, concurrency: int,
                        maxRetries: int, items: seq<Item>, trace: seq<Fleet>, moves: seq<Move>, autoMerge: bool)
    requires MadeByRunner(start, calls, sessions, concurrency, maxRetries, items, trace, moves, autoMerge)
    requires InOrder(attached, calls)
    ensures Orderly(start, attached, calls)
    ensures |trace| == |moves| + 1 && CallAll(start, calls) == trace[|moves|].store
  {
    hide Reduce, DisciplinedAll, Consistent, InOrder, ActionsOf, SeedActions, Runs.RunActions, DiskAfter, BaseOf, Run;
    RunHasMoves(trace, moves, autoMerge);
    SessionIsDisciplined(sessions, concurrency, maxRetries, items, trace, moves, autoMerge);
    CallsAreDispatches(start, calls);
  }

  /** In particular for a session of the runner, which leaves the store in the last state of its run. */
  lemma RunIsMeasuredTruthfully(store: Store, steps: seq<Step>, m: RunMetrics, sessions: seq<Session>,
                                concurrency: int, maxRetries: int, items: seq<Item>,
                                trace: seq<Fleet>, moves: seq<Move>, autoMerge: bool)
    requires store.Valid() && FreshId(store) && ReadOff(store, steps, m) && InOrder(store.attached, store.calls)
    requires MadeByRunner(store.start, store.calls, sessions, concurrency, maxRetries, items, trace, moves, autoMerge)
    ensures |trace| == |moves| + 1 && store.state == trace[|moves|].store
    ensures MeasuredTruthfully(steps, m)
  {
    hide MadeByRunner, Orderly, ReadOff, FreshId, LogHolds, InOrder, MeasuredTruthfully;
    RunnerIsOrderly(store.start, store.attached, store.calls, sessions, concurrency, maxRetries, items, trace, moves,
                    autoMerge);
    StoreIsMeasuredTruthfully(store, steps, m);
  }

  lemma {:induction false} CallsAreDispatches(s: AfkState, calls: seq<Call>)
    ensures CallAll(s, calls) == DispatchedAll(s, ActionsOf(calls))
    decreases |calls|
  {
    if calls != [] {
      CallsAreDispatches(Dispatched(s, calls[0].action), calls[1..]);
      assert ActionsOf(calls)[1..] == ActionsOf(calls[1..]);
    }
  }

  /** What a live store knows of an issue is what was dispatched to it: its PR is the last one set, its retries
      the failures and its error the last one since it was requeued. */
  lemma StoreRemembers(store: Store, n: int)
    requires store.Valid() && n in store.start.issues
    ensures n in store.state.issues
    ensures var a, b, actions := store.start.issues[n], store.state.issues[n], ActionsOf(store.calls);
      && b.pr == LastPr(a.pr, actions, n)
      && b.retries == FailuresSince(a.retries, actions, n) && b.error == LastError(a.error, actions, n)
      && b.costUsd == LastCost(a.costUsd, actions, n) && b.blockedBy == LastBlockers(a.blockedBy, actions, n)
  {
    hide LogHolds, Reduce;
    CallsAreDispatches(store.start, store.calls);
    FieldsAreHistory(store.start, ActionsOf(store.calls), n);
  }
}
