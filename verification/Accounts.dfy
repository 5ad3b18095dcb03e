/** What the metrics of a run account for: each moment of each issue under the status it then had, and each
    moment of a busy slot as a moment of an issue in flight (agentrail/afk/timeline.py). */
module Accounts {
  import opened Collections
  import opened FleetState
  import opened Snapshot
  import opened Journal
  import opened Timeline
  import opened Metrics

  // ---------------------------------------------------------------------------
  // Times in status
  // ---------------------------------------------------------------------------

  /** The length of the intervals up to step `i` at whose start the issue had the status. */
  function TimeIn(steps: seq<Step>, i: nat, n: int, status: IssueStatus): int
    requires i < |steps| || i == 0
  {
    if i == 0 then 0 else
      var issues := steps[i - 1].state.issues;
      TimeIn(steps, i - 1, n, status) + (if n in issues && issues[n].status == status then Dt(steps, i) else 0)
  }

  /** An issue's time in a status is the length of exactly those intervals. */
  lemma {:induction false} DwellExactly(steps: seq<Step>, i: nat, n: int, status: IssueStatus)
    requires i < |steps|
    ensures TimeIn(steps, i, n, status) == Get(Get(Dwells(steps, i), n, NO_DWELL).inStatus, status, 0)
  {
    if i > 0 { DwellExactly(steps, i - 1, n, status); }
  }

  /** With clocks that run forward an interval is the time between its steps. */
  lemma IntervalsAreGaps(steps: seq<Step>, i: nat)
    requires Clocked(steps) && 0 < i < |steps|
    ensures Dt(steps, i) == steps[i].ts.value - steps[i - 1].ts.value >= 0
  {
  }

  /** And the wall time the time between the first step and the last. */
  lemma WallExactly(steps: seq<Step>)
    requires Clocked(steps) && steps != []
    ensures WallTime(steps) == steps[|steps| - 1].ts.value - steps[0].ts.value
  {
    WallIsSpan(steps);
  }

  function WrongDigests(steps: seq<Step>): set<int> {
    set i | 0 <= i < |steps| && !steps[i].digestOk
  }

  lemma ShiftedWrong(steps: seq<Step>)
    requires steps != []
    ensures |WrongDigests(steps)| == |WrongDigests(steps[1..])| + (if steps[0].digestOk then 0 else 1)
  {
    var rest := steps[1..];
    var shifted := map i | i in WrongDigests(rest) :: i + 1;
    InjectiveCard(shifted);
    assert shifted.Keys == WrongDigests(rest);
    forall i | i in WrongDigests(steps) && i != 0 ensures i in shifted.Values {
      assert rest[i - 1] == steps[i] && i - 1 in shifted && shifted[i - 1] == i;
    }
    assert WrongDigests(steps) - {0} == shifted.Values;
    WithoutCard(WrongDigests(steps), 0);
  }

  /** The mismatches are as many as there are steps with a wrong digest. */
  lemma {:induction false} MismatchesExactly(steps: seq<Step>)
    ensures Mismatches(steps) == |WrongDigests(steps)|
    decreases |steps|
  {
    hide WrongDigests;
    if steps != [] {
      MismatchesExactly(steps[1..]);
      ShiftedWrong(steps);
    } else {
      NoneWrong();
    }
  }

  lemma NoneWrong()
    ensures WrongDigests([]) == {}
  {
  }

  /** Utilization is the share of the slots' time that was busy: whole exactly if they all were all the time. */
  lemma UtilizationExactly(m: RunMetrics)
    requires m.wall > 0 && m.concurrency > 0 && 0 <= m.busy <= m.concurrency * m.wall
    ensures Utilization(m) == m.busy as real / (m.concurrency * m.wall) as real
    ensures 0.0 <= Utilization(m) <= 1.0
  {
    RatioAtMostOne(m.busy, m.concurrency * m.wall);
  }

  // ---------------------------------------------------------------------------
  // Busy slots are issues in flight
  // ---------------------------------------------------------------------------

  function InFlightIssues(s: AfkState): set<int> {
    set n | n in s.issues && InFlight(s.issues[n].status)
  }

  function Holding(s: AfkState): set<int> {
    set n | n in s.issues && HoldsSlot(s, n)
  }

  lemma BusySlotsAreHolders(s: AfkState)
    requires Consistent(s)
    ensures ActiveCount(s) == |Holding(s)|
  {
    var holder := map k | k in BusySlots(s) :: s.slots[k].value;
    forall j, k | j in holder && k in holder && j != k ensures holder[j] != holder[k] {
      assert SlotOk(s, j) && SlotOk(s, k);
    }
    InjectiveCard(holder);
    forall n | n in holder.Values ensures n in Holding(s) {
      assert SlotOk(s, KeyOf(holder, n));
    }
    forall n | n in Holding(s) ensures n in holder.Values {
      var k := s.issues[n].slot.value;
      assert k in holder && holder[k] == n;
    }
    assert holder.Values == Holding(s) && holder.Keys == BusySlots(s);
  }

  /** In a consistent state there are as many issues in flight as busy slots, and the orphans. */
  lemma InFlightCount(s: AfkState)
    requires Consistent(s)
    ensures |InFlightIssues(s)| == ActiveCount(s) + |Orphans(s)|
  {
    BusySlotsAreHolders(s);
    forall n | n in s.issues ensures IssueOk(n, s.issues[n]) {
    }
    assert InFlightIssues(s) == Holding(s) + Orphans(s) && Holding(s) * Orphans(s) == {};
  }

  /** An issue's time in flight. */
  function TimeInFlight(steps: seq<Step>, i: nat, n: int): int
    requires i < |steps| || i == 0
  {
    TimeIn(steps, i, n, Claimed) + TimeIn(steps, i, n, Running) + TimeIn(steps, i, n, PrOpen)
      + TimeIn(steps, i, n, Autofixing)
  }

  ghost function OrphanTime(steps: seq<Step>, i: nat): int
    requires i < |steps| || i == 0
  {
    if i == 0 then 0 else OrphanTime(steps, i - 1) + |Orphans(steps[i - 1].state)| * Dt(steps, i)
  }

  ghost function FlightTimes(steps: seq<Step>, i: nat, issues: set<int>): map<int, int>
    requires i < |steps| || i == 0
  {
    map n | n in issues :: TimeInFlight(steps, i, n)
  }

  /** Adding the same to some of the entries. */
  lemma {:induction false} SumLift<K>(a: map<K, int>, b: map<K, int>, some: set<K>, d: int)
    requires a.Keys == b.Keys && some <= a.Keys
    requires forall n | n in a :: b[n] == a[n] + (if n in some then d else 0)
    ensures Sum(b) == Sum(a) + |some| * d
    decreases |a|
  {
    if a.Keys == {} {
      assert a == b && some == {};
    } else {
      var k := Pick(a.Keys);
      SumSplit(a, k);
      SumSplit(b, k);
      WithoutCard(some, k);
      SumLift(a - {k}, b - {k}, some - {k}, d);
      Distribute(|some - {k}|, if k in some then 1 else 0, d);
    }
  }

  /** Slot time is issue time: over the whole timeline the time the slots were busy is the time the issues
      were in flight, less what orphans of a killed run were. */
  lemma {:induction false} BusyIsFlight(steps: seq<Step>, i: nat, issues: set<int>)
    requires i < |steps| && forall j | 0 <= j < |steps| :: Consistent(steps[j].state)
    requires forall j | 0 <= j < |steps| :: steps[j].state.issues.Keys <= issues
    ensures Sum(FlightTimes(steps, i, issues)) == BusyTime(steps, i) + OrphanTime(steps, i)
  {
    hide Consistent, ActiveCount, Orphans, InFlightIssues;
    if i == 0 {
      SumZero(FlightTimes(steps, 0, issues));
    } else {
      BusyIsFlight(steps, i - 1, issues);
      var s, dt := steps[i - 1].state, Dt(steps, i);
      InFlightCount(s);
      FlightStep(steps, i, issues);
      SumLift(FlightTimes(steps, i - 1, issues), FlightTimes(steps, i, issues), InFlightIssues(s), dt);
      Distribute(ActiveCount(s), |Orphans(s)|, dt);
    }
  }

  lemma Distribute(a: int, b: int, c: int)
    ensures (a + b) * c == a * c + b * c
  {
  }

  lemma FlightStep(steps: seq<Step>, i: nat, issues: set<int>)
    requires 0 < i < |steps| && steps[i - 1].state.issues.Keys <= issues
    ensures InFlightIssues(steps[i - 1].state) <= issues
    ensures forall n | n in issues ::
      FlightTimes(steps, i, issues)[n] ==
        FlightTimes(steps, i - 1, issues)[n]
          + (if n in InFlightIssues(steps[i - 1].state) then Dt(steps, i) else 0)
  {
  }

  lemma {:induction false} SumZero(m: map<int, int>)
    requires forall n | n in m :: m[n] == 0
    ensures Sum(m) == 0
    decreases |m|
  {
    if m.Keys != {} {
      var k := Pick(m.Keys);
      SumSplit(m, k);
      SumZero(m - {k});
    }
  }

  // ---------------------------------------------------------------------------
  // Of whole sessions
  // ---------------------------------------------------------------------------

  lemma {:induction false} LiveStatesSound(s: AfkState, calls: seq<Call>)
    requires Consistent(s) && DisciplinedAll(s, ActionsOf(calls))
    ensures forall t | t in LiveStates(s, calls) :: Consistent(t) && Orphans(t) <= Orphans(s)
    ensures forall t | t in LiveStates(s, calls) :: t.issues.Keys <= CallAll(s, calls).issues.Keys
    ensures s.issues.Keys <= CallAll(s, calls).issues.Keys
    decreases |calls|
  {
    hide Reduce, Consistent, Disciplined, Orphans, Logged;
    if calls != [] {
      DisciplinedKeepsConsistent(s, calls[0].action);
      LiveStatesSound(Dispatched(s, calls[0].action), calls[1..]);
    }
  }

  lemma CoreIsConsistent(a: AfkState, b: AfkState)
    requires SameCore(a, b) && Consistent(b)
    ensures Consistent(a) && Orphans(a) == Orphans(b)
  {
    forall n | n in a.issues ensures IssueOk(n, a.issues[n]) {
      assert IssueOk(n, b.issues[n]) && CoreIssue(a.issues[n]) == CoreIssue(b.issues[n]);
    }
    forall k | k in a.slots ensures SlotOk(a, k) {
      assert SlotOk(b, k);
      if SlotOf(a.slots, k).Some? {
        assert CoreIssue(a.issues[a.slots[k].value]) == CoreIssue(b.issues[a.slots[k].value]);
      }
    }
    forall n | n in a.issues ensures HoldsSlot(a, n) <==> HoldsSlot(b, n) {
      assert CoreIssue(a.issues[n]) == CoreIssue(b.issues[n]);
    }
    assert Orphans(a) <= Orphans(b) && Orphans(b) <= Orphans(a) by {
      forall n | n in a.issues ensures a.issues[n].slot == b.issues[n].slot {
        assert CoreIssue(a.issues[n]) == CoreIssue(b.issues[n]);
      }
    }
  }

  /** The replay of a disciplined session passes through consistent states only, and through no orphan that was
      not there at the start. */
  lemma ReplayedAreConsistent(events: seq<Event>, session: string, ts: int, s: AfkState, calls: seq<Call>,
                              digest: Json -> string)
    requires Journals(events, session, ts, s, calls, digest)
    requires Consistent(s) && DisciplinedAll(s, ActionsOf(calls))
    ensures Replay(events, digest).Some?
    ensures forall i | 0 <= i < |Replay(events, digest).value| ::
      var t := Replay(events, digest).value[i].state;
      Consistent(t) && Orphans(t) <= Orphans(s) && t.issues.Keys <= CallAll(s, calls).issues.Keys
  {
    hide Replay, Journals, Consistent, Orphans, SameCore, LiveStates, SameBlockers;
    ReplayIsASimulation(events, session, ts, s, calls, digest);
    LiveStatesSound(s, calls);
    var steps, states := Replay(events, digest).value, [s] + LiveStates(s, calls);
    forall i | 0 <= i < |steps|
      ensures Consistent(steps[i].state) && Orphans(steps[i].state) <= Orphans(s)
      ensures steps[i].state.issues.Keys <= CallAll(s, calls).issues.Keys
    {
      assert Mirrors(steps[i], states[i], digest);
      assert states[i] == s || states[i] in LiveStates(s, calls);
      CoreIsConsistent(steps[i].state, states[i]);
      CoreKeys(steps[i].state, states[i]);
    }
  }

  /** What the metrics call an issue's times in the statuses between the queue and the end. */
  function DwellInFlight(d: Dwell): int {
    Get(d.inStatus, Claimed, 0) + Get(d.inStatus, Running, 0) + Get(d.inStatus, PrOpen, 0)
      + Get(d.inStatus, Autofixing, 0)
  }

  /** So in the metrics of a disciplined session that started without orphans the busy slot time is the sum of
      all issues' times in flight, to the tick. */
  lemma SlotTimeIsIssueTime(events: seq<Event>, session: string, ts: int, s: AfkState, calls: seq<Call>,
                            digest: Json -> string, steps: seq<Step>, m: RunMetrics)
    requires Journals(events, session, ts, s, calls, digest)
    requires Consistent(s) && Orphans(s) == {} && DisciplinedAll(s, ActionsOf(calls))
    requires Replay(events, digest) == Some(steps) && steps != [] && MetricsOf(m, steps)
    ensures m.busy == Sum(map n | n in m.dwell :: DwellInFlight(m.dwell[n]))
  {
    hide Replay, Journals, Consistent, Orphans, CallAll, IsLongest, Mismatches, Dwells, BusyTime, TimedSteps;
    ReplayedAreConsistent(events, session, ts, s, calls, digest);
    var last, all := |steps| - 1, CallAll(s, calls).issues.Keys;
    BusyIsFlight(steps, last, all);
    NoOrphanTime(steps, last);
    forall n ensures TimeInFlight(steps, last, n) == DwellInFlight(Get(Dwells(steps, last), n, NO_DWELL)) {
      DwellExactly(steps, last, n, Claimed);
      DwellExactly(steps, last, n, Running);
      DwellExactly(steps, last, n, PrOpen);
      DwellExactly(steps, last, n, Autofixing);
    }
    DwellKeys(steps, last, all);
    var part := map n | n in m.dwell :: DwellInFlight(m.dwell[n]);
    SumOfPart(part, FlightTimes(steps, last, all));
  }

  lemma {:induction false} NoOrphanTime(steps: seq<Step>, i: nat)
    requires i < |steps| && forall j | 0 <= j < |steps| :: Orphans(steps[j].state) == {}
    ensures OrphanTime(steps, i) == 0
  {
    if i > 0 { NoOrphanTime(steps, i - 1); }
  }

  lemma {:induction false} DwellKeys(steps: seq<Step>, i: nat, all: set<int>)
    requires i < |steps| && forall j | 0 <= j < |steps| :: steps[j].state.issues.Keys <= all
    ensures Dwells(steps, i).Keys <= all
  {
    if i > 0 { DwellKeys(steps, i - 1, all); }
  }

  /** Entries that are zero do not count. */
  lemma {:induction false} SumOfPart(part: map<int, int>, whole: map<int, int>)
    requires part.Keys <= whole.Keys
    requires forall n | n in whole :: whole[n] == if n in part then part[n] else 0
    ensures Sum(part) == Sum(whole)
    decreases |whole|
  {
    if whole.Keys == {} {
      assert part == whole;
    } else {
      var k := Pick(whole.Keys);
      SumSplit(whole, k);
      if k in part {
        SumSplit(part, k);
        SumOfPart(part - {k}, whole - {k});
      } else {
        SumOfPart(part, whole - {k});
      }
    }
  }
}
