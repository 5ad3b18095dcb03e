/** What `compute_metrics` derives from a replayed journal (agentrail/afk/timeline.py): time in
    status per issue, and how busy the slots were. Time is in whole ticks. */
module Metrics {
  import opened Collections
  import opened FleetState
  import opened Snapshot
  import opened Journal
  import opened Timeline

  /** An issue's running sums. */
  datatype Dwell = Dwell(inStatus: map<IssueStatus, int>, total: int)

  const NO_DWELL := Dwell(map[], 0)

  function Get<K, V>(m: map<K, V>, k: K, default: V): V {
    if k in m then m[k] else default
  }

  function Credit(d: Dwell, status: IssueStatus, dt: int): Dwell {
    Dwell(d.inStatus[status := Get(d.inStatus, status, 0) + dt], d.total + dt)
  }

  /** The interval before step `i` counts only when both of its ends carry a timestamp. */
  predicate Timed(steps: seq<Step>, i: int)
    requires 0 < i < |steps|
  {
    steps[i].ts.Some? && steps[i - 1].ts.Some?
  }

  function Dt(steps: seq<Step>, i: int): int
    requires 0 < i < |steps|
  {
    if Timed(steps, i) then Max(0, steps[i].ts.value - steps[i - 1].ts.value) else 0
  }

  /** Dwell of every issue after the first `i` intervals. */
  function Dwells(steps: seq<Step>, i: nat): map<int, Dwell>
    requires i < |steps| || i == 0
  {
    if i == 0 then map[]
    else if !Timed(steps, i) then Dwells(steps, i - 1)
    else CreditAll(Dwells(steps, i - 1), steps[i - 1].state.issues, Dt(steps, i))
  }

  function CreditAll(m: map<int, Dwell>, issues: map<int, IssueState>, dt: int): map<int, Dwell> {
    map n | n in m.Keys + issues.Keys ::
      if n in issues then Credit(Get(m, n, NO_DWELL), issues[n].status, dt) else m[n]
  }

  function BusyTime(steps: seq<Step>, i: nat): int
    requires i < |steps| || i == 0
  {
    if i == 0 then 0
    else BusyTime(steps, i - 1) + ActiveCount(steps[i - 1].state) * Dt(steps, i)
  }

  function TimedSteps(steps: seq<Step>): seq<int> {
    if steps == [] then []
    else (if steps[0].ts.Some? then [steps[0].ts.value] else []) + TimedSteps(steps[1..])
  }

  function WallTime(steps: seq<Step>): int {
    var timed := TimedSteps(steps);
    if timed == [] then 0 else Max(0, timed[|timed| - 1] - timed[0])
  }

  /** An issue and the time it spent in one status. */
  datatype Stay = Stay(issue: int, status: IssueStatus, time: int)

  /** `finals` holds the fields each issue of the last state ends with. */
  datatype RunMetrics = RunMetrics(
    started: Option<int>, ended: Option<int>, wall: int, issueCount: int, completed: int, failed: int,
    busy: int, concurrency: int, digestMismatches: int, dwell: map<int, Dwell>,
    finals: map<int, IssueState>, longest: Option<Stay>)

  /** The statuses in which an issue is not at rest. */
  const ACTIVE := [Queued, Claimed, Running, PrOpen, Autofixing]

  predicate IsStay(dwell: map<int, Dwell>, stay: Stay) {
    && stay.issue in dwell && stay.status in dwell[stay.issue].inStatus && !Terminal(stay.status)
    && stay.time == dwell[stay.issue].inStatus[stay.status]
  }

  /** A longest stay outside the resting statuses, if there is any stay there. */
  ghost predicate IsLongest(dwell: map<int, Dwell>, longest: Option<Stay>) {
    && (longest.Some? ==> IsStay(dwell, longest.value))
    && forall stay | IsStay(dwell, stay) :: longest.Some? && stay.time <= longest.value.time
  }

  function Mismatches(steps: seq<Step>): int {
    if steps == [] then 0 else (if steps[0].digestOk then 0 else 1) + Mismatches(steps[1..])
  }

  /** `slot_utilization`, before and after the clamp. */
  function RawUtilization(m: RunMetrics): real {
    if m.wall > 0 && m.concurrency > 0 then m.busy as real / (m.concurrency * m.wall) as real else 0.0
  }

  function Utilization(m: RunMetrics): real {
    if RawUtilization(m) > 1.0 then 1.0 else RawUtilization(m)
  }

  /** The inner loop over `prev.state.issues.items()`. */
  method CreditInterval(before: map<int, Dwell>, issues: map<int, IssueState>, dt: int)
    returns (dwell: map<int, Dwell>)
    ensures dwell == CreditAll(before, issues, dt)
  {
    dwell := before;
    var todo := issues.Keys;
    while todo != {}
      invariant todo <= issues.Keys
      invariant dwell.Keys == before.Keys + (issues.Keys - todo)
      invariant forall n | n in issues && n !in todo ::
        dwell[n] == Credit(Get(before, n, NO_DWELL), issues[n].status, dt)
      invariant forall n | n in before && (n !in issues || n in todo) :: dwell[n] == before[n]
      decreases todo
    {
      var n := MinOf(todo);
      dwell := dwell[n := Credit(Get(dwell, n, NO_DWELL), issues[n].status, dt)];
      todo := todo - {n};
    }
    SameDwells(dwell, before, issues, dt);
  }

  lemma SameDwells(dwell: map<int, Dwell>, before: map<int, Dwell>, issues: map<int, IssueState>, dt: int)
    requires dwell.Keys == before.Keys + issues.Keys
    requires forall n | n in issues :: dwell[n] == Credit(Get(before, n, NO_DWELL), issues[n].status, dt)
    requires forall n | n in before && n !in issues :: dwell[n] == before[n]
    ensures dwell == CreditAll(before, issues, dt)
  {
    var credited := CreditAll(before, issues, dt);
    assert dwell.Keys == credited.Keys;
    forall n | n in credited ensures n in dwell && dwell[n] == credited[n] {
      assert n in dwell.Keys;
    }
  }

  /** The last loop gives an entry to issues no interval has credited. */
  method AddMissing(before: map<int, Dwell>, issues: map<int, IssueState>) returns (dwell: map<int, Dwell>)
    ensures dwell.Keys == before.Keys + issues.Keys
    ensures forall n | n in dwell :: dwell[n] == Get(before, n, NO_DWELL)
  {
    dwell := before;
    var todo := issues.Keys;
    while todo != {}
      invariant todo <= issues.Keys
      invariant dwell.Keys == before.Keys + (issues.Keys - todo)
      invariant forall n | n in dwell :: dwell[n] == Get(before, n, NO_DWELL)
      decreases todo
    {
      var n := MinOf(todo);
      if n !in dwell { dwell := dwell[n := NO_DWELL]; }
      todo := todo - {n};
    }
  }

  /** The loop over all stays, for one issue. */
  method LongestOf(dwell: map<int, Dwell>, n: int, best: Option<Stay>) returns (longest: Option<Stay>)
    requires n in dwell
    ensures longest == best || (longest.Some? && longest.value.issue == n && IsStay(dwell, longest.value))
    ensures best.Some? ==> longest.Some? && best.value.time <= longest.value.time
    ensures forall stay | IsStay(dwell, stay) && stay.issue == n :: longest.Some? && stay.time <= longest.value.time
  {
    longest := best;
    for i := 0 to |ACTIVE|
      invariant longest == best || (longest.Some? && longest.value.issue == n && IsStay(dwell, longest.value))
      invariant best.Some? ==> longest.Some? && best.value.time <= longest.value.time
      invariant forall j | 0 <= j < i && ACTIVE[j] in dwell[n].inStatus ::
        longest.Some? && dwell[n].inStatus[ACTIVE[j]] <= longest.value.time
    {
      var status := ACTIVE[i];
      if status in dwell[n].inStatus {
        var time := dwell[n].inStatus[status];
        if longest.None? || time > longest.value.time { longest := Some(Stay(n, status, time)); }
      }
    }
    forall stay | IsStay(dwell, stay) && stay.issue == n ensures longest.Some? && stay.time <= longest.value.time {
      ActiveIndex(stay.status);
    }
  }

  lemma ActiveIndex(status: IssueStatus)
    requires !Terminal(status)
    ensures exists j :: 0 <= j < |ACTIVE| && ACTIVE[j] == status
  {
    assert ACTIVE[0] == Queued && ACTIVE[1] == Claimed && ACTIVE[2] == Running && ACTIVE[3] == PrOpen
      && ACTIVE[4] == Autofixing;
  }

  method LongestDwell(dwell: map<int, Dwell>) returns (longest: Option<Stay>)
    ensures IsLongest(dwell, longest)
  {
    longest := None;
    var todo := dwell.Keys;
    while todo != {}
      invariant todo <= dwell.Keys && (longest.Some? ==> IsStay(dwell, longest.value))
      invariant forall stay | IsStay(dwell, stay) && stay.issue !in todo ::
        longest.Some? && stay.time <= longest.value.time
      decreases todo
    {
      var n := MinOf(todo);
      longest := LongestOf(dwell, n, longest);
      todo := todo - {n};
    }
  }

  /** What the metrics of these steps are. */
  ghost predicate MetricsOf(m: RunMetrics, steps: seq<Step>)
    requires steps != []
  {
    var timed, final := TimedSteps(steps), steps[|steps| - 1].state;
    && m.started == (if timed == [] then None else Some(timed[0]))
    && m.ended == (if timed == [] then None else Some(timed[|timed| - 1]))
    && m.wall == WallTime(steps) && m.busy == BusyTime(steps, |steps| - 1)
    && m.dwell.Keys == Dwells(steps, |steps| - 1).Keys + final.issues.Keys
    && (forall n | n in m.dwell :: m.dwell[n] == Get(Dwells(steps, |steps| - 1), n, NO_DWELL))
    && IsLongest(m.dwell, m.longest) && m.finals == final.issues
    && m.issueCount == |final.issues| && m.completed == final.completed && m.failed == final.failed
    && m.concurrency == (if final.concurrency == 0 then 1 else final.concurrency)
    && m.digestMismatches == Mismatches(steps)
  }

  /** The loop over the steps. */
  method Accumulate(steps: seq<Step>) returns (dwell: map<int, Dwell>, busy: int)
    requires steps != []
    ensures dwell == Dwells(steps, |steps| - 1) && busy == BusyTime(steps, |steps| - 1)
  {
    hide CreditAll, ActiveCount;
    dwell, busy := map[], 0;
    for i := 1 to |steps|
      invariant dwell == Dwells(steps, i - 1)
      invariant busy == BusyTime(steps, i - 1)
    {
      if steps[i].ts.Some? && steps[i - 1].ts.Some? {
        var dt := Max(0, steps[i].ts.value - steps[i - 1].ts.value);
        dwell := CreditInterval(dwell, steps[i - 1].state.issues, dt);
        busy := busy + ActiveCount(steps[i - 1].state) * dt;
      }
    }
  }

  /** `compute_metrics`, from the replayed steps on. */
  method ComputeMetrics(steps: seq<Step>) returns (m: RunMetrics)
    requires steps != []
    ensures MetricsOf(m, steps)
  {
    hide Dwells, BusyTime, Mismatches, TimedSteps, IsLongest;
    var timed := TimedSteps(steps);
    var dwell, busy := Accumulate(steps);
    var final := steps[|steps| - 1].state;
    dwell := AddMissing(dwell, final.issues);
    var longest := LongestDwell(dwell);
    m := RunMetrics(
      if timed == [] then None else Some(timed[0]), if timed == [] then None else Some(timed[|timed| - 1]),
      WallTime(steps), |final.issues|, final.completed, final.failed, busy,
      if final.concurrency == 0 then 1 else final.concurrency, Mismatches(steps), dwell, final.issues, longest);
  }

  // ---------------------------------------------------------------------------
  // Time is conserved
  // ---------------------------------------------------------------------------

  /** Whatever the timestamps, an issue's times in the various statuses add up to its total. */
  lemma {:induction false} TimesAddUp(steps: seq<Step>, i: nat, n: int)
    requires i < |steps| && n in Dwells(steps, i)
    ensures Sum(Dwells(steps, i)[n].inStatus) == Dwells(steps, i)[n].total
    ensures forall status | status in Dwells(steps, i)[n].inStatus :: Dwells(steps, i)[n].inStatus[status] >= 0
  {
    if Timed(steps, i) {
      var before := Get(Dwells(steps, i - 1), n, NO_DWELL);
      if n in Dwells(steps, i - 1) {
        TimesAddUp(steps, i - 1, n);
      }
      if n in steps[i - 1].state.issues {
        var status := steps[i - 1].state.issues[n].status;
        SumUpdate(before.inStatus, status, Get(before.inStatus, status, 0) + Dt(steps, i));
      }
    } else {
      TimesAddUp(steps, i - 1, n);
    }
  }

  /** Every step carries a timestamp, time does not run backwards, and issues are never forgotten. */
  predicate Clocked(steps: seq<Step>) {
    && (forall i | 0 <= i < |steps| :: steps[i].ts.Some?)
    && (forall i | 0 < i < |steps| :: steps[i - 1].ts.value <= steps[i].ts.value)
    && (forall i | 0 < i < |steps| :: steps[i - 1].state.issues.Keys <= steps[i].state.issues.Keys)
  }

  /** The issue is first seen at step `first`. */
  predicate FirstSeen(steps: seq<Step>, n: int, first: nat) {
    first < |steps| && n in steps[first].state.issues
    && forall j | 0 <= j < first :: n !in steps[j].state.issues
  }

  lemma {:induction false} StaysSeen(steps: seq<Step>, n: int, first: nat, i: nat)
    requires Clocked(steps) && FirstSeen(steps, n, first) && first <= i < |steps|
    ensures n in steps[i].state.issues
  {
    if i > first { StaysSeen(steps, n, first, i - 1); }
  }

  /** An issue's total is the time from the step that first shows it to the last one. */
  lemma {:induction false} TotalIsAge(steps: seq<Step>, n: int, first: nat, i: nat)
    requires Clocked(steps) && FirstSeen(steps, n, first) && i < |steps|
    ensures n in Dwells(steps, i) <==> i > first
    ensures i > first ==> Dwells(steps, i)[n].total == steps[i].ts.value - steps[first].ts.value
  {
    if i > 0 {
      TotalIsAge(steps, n, first, i - 1);
      assert Timed(steps, i);
      if i - 1 >= first { StaysSeen(steps, n, first, i - 1); }
    }
  }

  lemma {:induction false} WallIsSpan(steps: seq<Step>)
    requires Clocked(steps) && steps != []
    ensures |TimedSteps(steps)| == |steps|
    ensures TimedSteps(steps)[0] == steps[0].ts.value
    ensures TimedSteps(steps)[|steps| - 1] == steps[|steps| - 1].ts.value
    ensures steps[0].ts.value <= steps[|steps| - 1].ts.value
  {
    if |steps| > 1 {
      assert Clocked(steps[1..]) by {
        forall i | 0 < i < |steps[1..]|
          ensures steps[1..][i - 1].ts.value <= steps[1..][i].ts.value
          ensures steps[1..][i - 1].state.issues.Keys <= steps[1..][i].state.issues.Keys
        {
          assert steps[1..][i - 1] == steps[i] && steps[1..][i] == steps[i + 1];
        }
      }
      WallIsSpan(steps[1..]);
      assert steps[1 - 1].ts.value <= steps[1].ts.value;
    }
  }

  // ---------------------------------------------------------------------------
  // Slots are never busier than there are slots
  // ---------------------------------------------------------------------------

  lemma ActiveWithinConcurrency(s: AfkState)
    requires forall k | k in BusySlots(s) :: 0 <= k < s.concurrency
    ensures ActiveCount(s) <= Max(0, s.concurrency)
  {
    if s.concurrency > 0 {
      RangeCard(0, s.concurrency);
      SubsetCard(BusySlots(s), Range(0, s.concurrency));
    } else {
      assert forall k :: k !in BusySlots(s);
      assert BusySlots(s) == {};
    }
  }

  lemma {:induction false} BusyWithinCapacity(steps: seq<Step>, c: int, i: nat)
    requires Clocked(steps) && i < |steps| && c >= 0
    requires forall j | 0 <= j < |steps| :: ActiveCount(steps[j].state) <= c
    ensures BusyTime(steps, i) <= c * (steps[i].ts.value - steps[0].ts.value)
  {
    if i > 0 {
      BusyWithinCapacity(steps, c, i - 1);
      assert Dt(steps, i) == steps[i].ts.value - steps[i - 1].ts.value >= 0;
      ScaleBound(ActiveCount(steps[i - 1].state), c, Dt(steps, i), steps[i - 1].ts.value - steps[0].ts.value);
    }
  }

  lemma ScaleBound(a: int, c: int, dt: int, span: int)
    requires a <= c && dt >= 0
    ensures c * span + a * dt <= c * (span + dt)
  {
    assert c * (span + dt) == c * span + c * dt;
    assert (c - a) * dt >= 0;
    assert (c - a) * dt == c * dt - a * dt;
  }

  /** Dispatches happen one after another. */
  predicate InOrder(ts: int, calls: seq<Call>)
    decreases |calls|
  {
    calls == [] || (ts <= calls[0].ts && InOrder(calls[0].ts, calls[1..]))
  }

  /** Consistent states that never forget an issue. */
  predicate LinkedFrom(prev: AfkState, states: seq<AfkState>)
    decreases |states|
  {
    states == [] ||
    (Consistent(states[0]) && states[0].concurrency == prev.concurrency
     && prev.issues.Keys <= states[0].issues.Keys && LinkedFrom(states[0], states[1..]))
  }

  lemma {:induction false} LiveStatesLinked(s: AfkState, calls: seq<Call>)
    requires Consistent(s) && DisciplinedAll(s, ActionsOf(calls))
    ensures LinkedFrom(s, LiveStates(s, calls))
    decreases |calls|
  {
    hide ActionToJson, Reduce, Consistent;
    if calls != [] {
      var a, t := calls[0].action, Dispatched(s, calls[0].action);
      DisciplinedKeepsConsistent(s, a);
      LiveStatesLinked(t, calls[1..]);
      var rest := LiveStates(t, calls[1..]);
      assert LiveStates(s, calls) == if Logged(s, a) then [t] + rest else rest;
      assert ([t] + rest)[1..] == rest;
    }
  }

  lemma {:induction false} LinkedIndex(prev: AfkState, states: seq<AfkState>)
    requires LinkedFrom(prev, states)
    ensures forall i | 0 <= i < |states| :: Consistent(states[i]) && states[i].concurrency == prev.concurrency
    ensures forall i | 0 < i < |states| :: states[i - 1].issues.Keys <= states[i].issues.Keys
    decreases |states|
  {
    hide Consistent;
    if states != [] {
      var rest := states[1..];
      LinkedIndex(states[0], rest);
      forall i | 0 < i < |states| ensures states[i - 1].issues.Keys <= states[i].issues.Keys {
        if i > 1 { assert states[i - 1] == rest[i - 2] && states[i] == rest[i - 1]; }
      }
      forall i | 0 <= i < |states|
        ensures Consistent(states[i]) && states[i].concurrency == prev.concurrency
      {
        if i > 0 { assert states[i] == rest[i - 1]; }
      }
    }
  }

  predicate OrderedFrom(ts: int, lines: seq<Event>)
    decreases |lines|
  {
    lines == [] ||
    (lines[0].ts.Some? && ts <= lines[0].ts.value && OrderedFrom(lines[0].ts.value, lines[1..]))
  }

  lemma {:induction false} RecordedInOrder(session: string, seqNo: int, ts: int, s: AfkState,
                                           calls: seq<Call>, digest: Json -> string)
    requires InOrder(ts, calls)
    ensures OrderedFrom(ts, Recorded(session, seqNo, s, calls, digest))
    decreases |calls|
  {
    hide ToJson, ActionToJson, Reduce;
    if calls != [] {
      var a, t := calls[0].action, Dispatched(s, calls[0].action);
      if Logged(s, a) {
        RecordedInOrder(session, seqNo + 1, calls[0].ts, t, calls[1..], digest);
        var line := RecordOf(session, seqNo, calls[0].ts, t, a, digest).value;
        var rest := Recorded(session, seqNo + 1, t, calls[1..], digest);
        assert Recorded(session, seqNo, s, calls, digest) == [line] + rest;
        assert ([line] + rest)[1..] == rest;
      } else {
        RecordedInOrder(session, seqNo, calls[0].ts, t, calls[1..], digest);
        assert Recorded(session, seqNo, s, calls, digest) == Recorded(session, seqNo, t, calls[1..], digest);
      }
    }
  }

  lemma {:induction false} OrderedIndex(ts: int, lines: seq<Event>)
    requires OrderedFrom(ts, lines)
    ensures forall i | 0 <= i < |lines| :: lines[i].ts.Some? && ts <= lines[i].ts.value
    ensures forall i | 0 < i < |lines| :: lines[i - 1].ts.value <= lines[i].ts.value
    decreases |lines|
  {
    if lines != [] {
      var rest := lines[1..];
      OrderedIndex(lines[0].ts.value, rest);
      forall i | 0 <= i < |lines| ensures lines[i].ts.Some? && ts <= lines[i].ts.value {
        if i > 0 { assert lines[i] == rest[i - 1]; }
      }
      forall i | 0 < i < |lines| ensures lines[i - 1].ts.value <= lines[i].ts.value {
        if i > 1 { assert lines[i - 1] == rest[i - 2] && lines[i] == rest[i - 1]; }
      }
    }
  }

  /** The steps replayed from the journal of a disciplined session are clocked, and at none of them
      are more slots busy than there are. */
  lemma SessionStepsClocked(session: string, ts: int, s: AfkState, calls: seq<Call>, digest: Json -> string)
    requires Consistent(s) && DisciplinedAll(s, ActionsOf(calls)) && InOrder(ts, calls)
    ensures var steps := Replay(SessionLog(session, ts, s, calls, digest), digest);
      && steps.Some? && Clocked(steps.value) && steps.value != []
      && forall i | 0 <= i < |steps.value| ::
           steps.value[i].state.concurrency == s.concurrency
           && ActiveCount(steps.value[i].state) <= Max(0, s.concurrency)
  {
    hide ToJson, FromJson, ActionToJson, ActionFromJson, Reduce, Consistent, Clocked, ActiveCount, SameBlockers;
    var log := SessionLog(session, ts, s, calls, digest);
    var lines := Recorded(session, 1, s, calls, digest);
    var states := LiveStates(s, calls);
    assert log[1..] == lines;
    StateRoundTrip(s);
    CostlessIsCore(s);
    ReplayFollows(session, 1, s, Costless(s), calls, digest);
    LiveStatesLinked(s, calls);
    RecordedInOrder(session, 1, ts, s, calls, digest);
    StepsClocked(log[0], Costless(s), s, ts, lines, states, digest);
  }

  lemma StepsClocked(first: Event, s: AfkState, live: AfkState, ts: int, lines: seq<Event>,
                     states: seq<AfkState>, digest: Json -> string)
    requires first.InitEvent? && first.ts == Some(ts) && SameCore(s, live) && Consistent(live)
    requires OrderedFrom(ts, lines) && LinkedFrom(live, states)
    requires Follows(ReplayFrom(s, lines, digest), lines, states, false, digest) ||
             Follows(ReplayFrom(s, lines, digest), lines, states, true, digest)
    ensures var steps := [StepOf(first, s, digest)] + ReplayFrom(s, lines, digest).value;
      && Clocked(steps)
      && forall i | 0 <= i < |steps| ::
           steps[i].state.concurrency == live.concurrency
           && ActiveCount(steps[i].state) <= Max(0, live.concurrency)
  {
    hide ToJson, ActionFromJson, Reduce, ReplayFrom, ActiveCount, SameBlockers;
    var tail := ReplayFrom(s, lines, digest).value;
    var steps := [StepOf(first, s, digest)] + tail;
    OrderedIndex(ts, lines);
    LinkedIndex(live, states);
    ActiveIsShared(s, live);
    forall i | 0 <= i < |steps|
      ensures steps[i].state.concurrency == live.concurrency
      ensures ActiveCount(steps[i].state) <= Max(0, live.concurrency)
      ensures steps[i].ts.Some?
    {
      if i > 0 {
        assert steps[i] == tail[i - 1] && Mirrors(tail[i - 1], states[i - 1], digest);
        ActiveIsShared(steps[i].state, states[i - 1]);
      }
    }
    forall i | 0 < i < |steps|
      ensures steps[i - 1].ts.value <= steps[i].ts.value
      ensures steps[i - 1].state.issues.Keys <= steps[i].state.issues.Keys
    {
      assert steps[i] == tail[i - 1] && Mirrors(tail[i - 1], states[i - 1], digest);
      if i > 1 {
        assert steps[i - 1] == tail[i - 2] && Mirrors(tail[i - 2], states[i - 2], digest);
      }
    }
  }

  lemma ActiveIsShared(s: AfkState, live: AfkState)
    requires SameCore(s, live) && Consistent(live)
    ensures ActiveCount(s) <= Max(0, live.concurrency)
  {
    forall k | k in BusySlots(live) ensures 0 <= k < live.concurrency {
      assert SlotOk(live, k);
    }
    assert BusySlots(s) == BusySlots(live);
    ActiveWithinConcurrency(live);
  }

  /** So the clamp on `slot_utilization` never bites on the journal of a disciplined session. */
  lemma UtilizationNeverClamped(session: string, ts: int, s: AfkState, calls: seq<Call>,
                                digest: Json -> string, steps: seq<Step>, m: RunMetrics)
    requires Consistent(s) && DisciplinedAll(s, ActionsOf(calls)) && InOrder(ts, calls) && s.concurrency >= 1
    requires Replay(SessionLog(session, ts, s, calls, digest), digest) == Some(steps)
    requires steps != [] && MetricsOf(m, steps)
    ensures 0 <= m.busy <= m.concurrency * m.wall
    ensures 0.0 <= RawUtilization(m) <= 1.0 && Utilization(m) == RawUtilization(m)
  {
    hide ToJson, FromJson, ActionToJson, ActionFromJson, Reduce, Replay, Consistent, Disciplined, SessionLog,
      Dwells, Mismatches, IsLongest, ActiveCount, BusyTime, Clocked;
    SessionStepsClocked(session, ts, s, calls, digest);
    WallIsSpan(steps);
    BusyWithinCapacity(steps, s.concurrency, |steps| - 1);
    BusyNonNegative(steps, |steps| - 1);
    if m.wall > 0 {
      assert m.concurrency * m.wall > 0;
      RatioAtMostOne(m.busy, m.concurrency * m.wall);
    }
  }

  ghost predicate AgesAddUp(steps: seq<Step>)
    requires steps != [] && Clocked(steps)
  {
    var last := |steps| - 1;
    forall n: int, first: nat | FirstSeen(steps, n, first) && first < last ::
      && n in Dwells(steps, last)
      && Dwells(steps, last)[n].total == steps[last].ts.value - steps[first].ts.value
      && Sum(Dwells(steps, last)[n].inStatus) == Dwells(steps, last)[n].total
  }

  /** And every issue's total is the time since it first appeared in the journal. */
  lemma TotalsAreAges(session: string, ts: int, s: AfkState, calls: seq<Call>, digest: Json -> string)
    requires Consistent(s) && DisciplinedAll(s, ActionsOf(calls)) && InOrder(ts, calls)
    ensures var replayed := Replay(SessionLog(session, ts, s, calls, digest), digest);
      replayed.Some? && replayed.value != [] && Clocked(replayed.value) && AgesAddUp(replayed.value)
  {
    hide ToJson, FromJson, ActionToJson, ActionFromJson, Reduce, Replay, Consistent;
    SessionStepsClocked(session, ts, s, calls, digest);
    var steps := Replay(SessionLog(session, ts, s, calls, digest), digest).value;
    forall n: int, first: nat | FirstSeen(steps, n, first) && first < |steps| - 1
      ensures n in Dwells(steps, |steps| - 1)
      ensures Dwells(steps, |steps| - 1)[n].total == steps[|steps| - 1].ts.value - steps[first].ts.value
      ensures Sum(Dwells(steps, |steps| - 1)[n].inStatus) == Dwells(steps, |steps| - 1)[n].total
    {
      TotalIsAge(steps, n, first, |steps| - 1);
      TimesAddUp(steps, |steps| - 1, n);
    }
  }

  lemma {:induction false} BusyNonNegative(steps: seq<Step>, i: nat)
    requires i < |steps|
    ensures BusyTime(steps, i) >= 0
  {
    if i > 0 {
      BusyNonNegative(steps, i - 1);
      assert ActiveCount(steps[i - 1].state) * Dt(steps, i) >= 0;
    }
  }

  lemma RatioAtMostOne(a: int, b: int)
    requires 0 <= a <= b && b > 0
    ensures 0.0 <= a as real / b as real <= 1.0
  {
  }
}
