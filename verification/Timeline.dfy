/** Replaying a journal and measuring the run it records (agentrail/afk/timeline.py). */
module Timeline {
  import opened Collections
  import opened FleetState
  import opened Snapshot
  import opened Journal

  /** One replayed event: the state after it, and whether its digest is the recorded one. */
  datatype Step = Step(seqNo: int, ts: Option<int>, init: bool, state: AfkState, digestOk: bool)

  // ---------------------------------------------------------------------------
  // Replay
  // ---------------------------------------------------------------------------

  /** None stands for the exception a bad action would raise. */
  function ReplayFrom(s: AfkState, events: seq<Event>, digest: Json -> string): Option<seq<Step>>
    decreases |events|
  {
    if events == [] then Some([])
    else if !events[0].ActionEvent? then ReplayFrom(s, events[1..], digest)
    else
      var a := ActionFromJson(events[0].action);
      if a.None? || Reduce(s, a.value).Err? then None else
      var t := Dispatched(s, a.value);
      var rest := ReplayFrom(t, events[1..], digest);
      if rest.None? then None else Some([StepOf(events[0], t, digest)] + rest.value)
  }

  function StepOf(e: Event, s: AfkState, digest: Json -> string): Step
    requires !e.OtherEvent?
  {
    Step(e.seqNo, e.ts, e.InitEvent?, s, digest(ToJson(s)) == e.digest)
  }

  function Replay(events: seq<Event>, digest: Json -> string): Option<seq<Step>> {
    if events == [] then Some([])
    else if !events[0].InitEvent? || FromJson(events[0].state).None? then None
    else
      var s := FromJson(events[0].state).value;
      var rest := ReplayFrom(s, events[1..], digest);
      if rest.None? then None else Some([StepOf(events[0], s, digest)] + rest.value)
  }

  /** `replay`, as the loop it is. */
  method RunReplay(events: seq<Event>, digest: Json -> string) returns (r: Option<seq<Step>>)
    ensures r == Replay(events, digest)
  {
    hide ToJson, FromJson, ActionFromJson, Reduce;
    if events == [] { return Some([]); }
    if !events[0].InitEvent? { return None; }
    var first := FromJson(events[0].state);
    if first.None? { return None; }
    var state := first.value;
    var steps := [StepOf(events[0], state, digest)];
    for k := 1 to |events|
      invariant Replay(events, digest) ==
        var rest := ReplayFrom(state, events[k..], digest);
        if rest.None? then None else Some(steps + rest.value)
    {
      assert events[k..][1..] == events[k + 1..];
      if events[k].ActionEvent? {
        var a := ActionFromJson(events[k].action);
        if a.None? { return None; }
        var next := Reduce(state, a.value);
        if next.Err? { return None; }
        state := next.value;
        ghost var before := steps;
        steps := steps + [StepOf(events[k], state, digest)];
        ghost var rest := ReplayFrom(state, events[k + 1..], digest);
        assert rest.Some? ==> before + ([StepOf(events[k], state, digest)] + rest.value) == steps + rest.value;
      }
    }
    assert events[|events|..] == [];
    assert steps + [] == steps;
    return Some(steps);
  }

  // ---------------------------------------------------------------------------
  // Replay is a simulation of the live run
  // ---------------------------------------------------------------------------

  function CoreIssue(i: IssueState): IssueState {
    i.(costUsd := 0.0, blockedBy := [])
  }

  /** Equal but for blockers and costs, whose changes the journal does not record. */
  predicate SameCore(s: AfkState, t: AfkState) {
    && s.slots == t.slots && s.concurrency == t.concurrency && s.maxRetries == t.maxRetries
    && s.completed == t.completed && s.failed == t.failed
    && s.issues.Keys == t.issues.Keys
    && forall n | n in s.issues :: CoreIssue(s.issues[n]) == CoreIssue(t.issues[n])
  }

  predicate SameBlockers(s: AfkState, t: AfkState)
    requires s.issues.Keys == t.issues.Keys
  {
    forall n | n in s.issues :: s.issues[n].blockedBy == t.issues[n].blockedBy
  }

  lemma SameJson(s: AfkState, t: AfkState)
    requires SameCore(s, t)
    ensures ToJson(s) == ToJson(t) <==> SameBlockers(s, t)
  {
    hide ToJson;
    SameSnapshot(s, t);
    forall n | n in s.issues
      ensures Costless(s).issues[n] == Costless(t).issues[n] <==>
              s.issues[n].blockedBy == t.issues[n].blockedBy
    {
      assert CoreIssue(s.issues[n]) == CoreIssue(t.issues[n]);
    }
    if SameBlockers(s, t) {
      assert forall n | n in Costless(s).issues :: n in s.issues && Costless(s).issues[n] == Costless(t).issues[n];
      assert Costless(s).issues.Keys == Costless(t).issues.Keys;
      assert Costless(s).issues == Costless(t).issues;
    }
  }

  lemma CoreAccepts(s: AfkState, t: AfkState, a: Action)
    requires SameCore(s, t)
    ensures Reduce(s, a).Ok? <==> Reduce(t, a).Ok?
  {
    if !a.FreeSlot? && a.number in s.issues {
      assert CoreIssue(s.issues[a.number]) == CoreIssue(t.issues[a.number]);
    }
  }

  lemma CoreAfterCounts(s: AfkState, t: AfkState, a: Action)
    requires SameCore(s, t) && Recordable(a)
    ensures var u, v := Dispatched(s, a), Dispatched(t, a);
      && u.slots == v.slots && u.concurrency == v.concurrency && u.maxRetries == v.maxRetries
      && u.completed == v.completed && u.failed == v.failed && u.issues.Keys == v.issues.Keys
  {
    if !a.FreeSlot? && a.number in s.issues {
      assert CoreIssue(s.issues[a.number]) == CoreIssue(t.issues[a.number]);
    }
  }

  lemma CoreAfterIssue(s: AfkState, t: AfkState, a: Action, n: int)
    requires SameCore(s, t) && Recordable(a) && n in Dispatched(s, a).issues
    ensures n in Dispatched(t, a).issues
    ensures CoreIssue(Dispatched(s, a).issues[n]) == CoreIssue(Dispatched(t, a).issues[n])
  {
    if n in s.issues { assert CoreIssue(s.issues[n]) == CoreIssue(t.issues[n]); }
    if !a.FreeSlot? && a.number in s.issues {
      assert CoreIssue(s.issues[a.number]) == CoreIssue(t.issues[a.number]);
    }
  }

  lemma CoreAfter(s: AfkState, t: AfkState, a: Action)
    requires SameCore(s, t) && Recordable(a)
    ensures SameCore(Dispatched(s, a), Dispatched(t, a))
  {
    hide Dispatched, CoreIssue;
    CoreAfterCounts(s, t, a);
    forall n | n in Dispatched(s, a).issues
      ensures n in Dispatched(t, a).issues
      ensures CoreIssue(Dispatched(s, a).issues[n]) == CoreIssue(Dispatched(t, a).issues[n])
    {
      CoreAfterIssue(s, t, a, n);
    }
  }

  lemma CoreAfterUnrecorded(s: AfkState, t: AfkState, a: Action)
    requires SameCore(s, t) && !Recordable(a)
    ensures SameCore(Dispatched(s, a), t)
  {
    if a.number in s.issues {
      assert CoreIssue(s.issues[a.number]) == CoreIssue(t.issues[a.number]);
    }
  }

  /** The reducer cannot tell two states apart that differ only in blockers and costs. */
  lemma ReduceRespectsCore(s: AfkState, t: AfkState, a: Action)
    requires SameCore(s, t)
    ensures Reduce(s, a).Ok? <==> Reduce(t, a).Ok?
    ensures Recordable(a) ==> SameCore(Dispatched(s, a), Dispatched(t, a))
    ensures Recordable(a) && SameBlockers(s, t) ==> SameBlockers(Dispatched(s, a), Dispatched(t, a))
    ensures !Recordable(a) ==> SameCore(Dispatched(s, a), t)
    ensures a.RecordCost? && SameBlockers(s, t) ==> SameBlockers(Dispatched(s, a), t)
  {
    CoreAccepts(s, t, a);
    if Recordable(a) { CoreAfter(s, t, a); } else { CoreAfterUnrecorded(s, t, a); }
  }

  /** The live states right after each dispatch that is written to the journal. */
  function LiveStates(s: AfkState, calls: seq<Call>): seq<AfkState>
    decreases |calls|
  {
    if calls == [] then [] else
    var a, t := calls[0].action, Dispatched(s, calls[0].action);
    (if Logged(s, a) then [t] else []) + LiveStates(t, calls[1..])
  }

  /** No `SetBlockedBy` changes anything. */
  predicate BlockersQuiet(s: AfkState, calls: seq<Call>)
    decreases |calls|
  {
    calls == [] ||
    ((calls[0].action.SetBlockedBy? ==> Dispatched(s, calls[0].action) == s)
     && BlockersQuiet(Dispatched(s, calls[0].action), calls[1..]))
  }

  ghost predicate Injective(digest: Json -> string) {
    forall x, y :: digest(x) == digest(y) ==> x == y
  }

  /** A replayed step stands for a live state. */
  ghost predicate Mirrors(step: Step, live: AfkState, digest: Json -> string) {
    && SameCore(step.state, live)
    && (SameBlockers(step.state, live) ==> step.digestOk)
    && (Injective(digest) && step.digestOk ==> SameBlockers(step.state, live))
  }

  lemma StepMirrors(e: Event, s: AfkState, live: AfkState, digest: Json -> string)
    requires !e.OtherEvent? && e.digest == digest(ToJson(live)) && SameCore(s, live)
    ensures Mirrors(StepOf(e, s, digest), live, digest)
    ensures SameBlockers(s, live) ==> StepOf(e, s, digest).digestOk
  {
    SameJson(s, live);
  }

  /** Step by step, the replay of `lines` mirrors the live states. */
  ghost predicate Follows(steps: Option<seq<Step>>, lines: seq<Event>, states: seq<AfkState>,
                          quiet: bool, digest: Json -> string) {
    && steps.Some? && |steps.value| == |lines| == |states|
    && (forall i | 0 <= i < |states| :: Mirrors(steps.value[i], states[i], digest))
    && (forall i | 0 <= i < |states| ::
          !lines[i].OtherEvent? && steps.value[i].ts == lines[i].ts && steps.value[i].seqNo == lines[i].seqNo)
    && (quiet ==> forall i | 0 <= i < |states| :: steps.value[i].digestOk)
  }

  lemma FollowsNothing(digest: Json -> string)
    ensures forall quiet :: Follows(Some([]), [], [], quiet, digest)
  {
  }

  lemma FollowsSome(steps: Option<seq<Step>>, lines: seq<Event>, states: seq<AfkState>, quiet: bool,
                    digest: Json -> string)
    requires Follows(steps, lines, states, quiet, digest)
    ensures steps.Some?
  {
  }

  lemma FollowsQuieter(steps: Option<seq<Step>>, lines: seq<Event>, states: seq<AfkState>, quiet: bool,
                       quieter: bool, digest: Json -> string)
    requires Follows(steps, lines, states, quiet, digest) && (quieter ==> quiet)
    ensures Follows(steps, lines, states, quieter, digest)
  {
  }

  lemma FollowsCons(step: Step, line: Event, state: AfkState, steps: Option<seq<Step>>, lines: seq<Event>,
                    states: seq<AfkState>, quiet: bool, quietRest: bool, digest: Json -> string)
    requires Follows(steps, lines, states, quietRest, digest)
    requires Mirrors(step, state, digest)
    requires !line.OtherEvent? && step.ts == line.ts && step.seqNo == line.seqNo
    requires quiet ==> quietRest && step.digestOk
    ensures Follows(Some([step] + steps.value), [line] + lines, [state] + states, quiet, digest)
  {
    hide Mirrors;
  }

  lemma {:induction false} ReplayFollows(session: string, seqNo: int, live: AfkState, s: AfkState,
                                         calls: seq<Call>, digest: Json -> string)
    requires SameCore(s, live)
    ensures var lines := Recorded(session, seqNo, live, calls, digest);
      Follows(ReplayFrom(s, lines, digest), lines, LiveStates(live, calls),
              BlockersQuiet(live, calls) && SameBlockers(s, live), digest)
    decreases |calls|
  {
    hide ToJson, ActionToJson, ActionFromJson, Reduce, Mirrors, SameCore, SameBlockers, Follows;
    if calls == [] {
      FollowsNothing(digest);
      return;
    }
    var a, ts := calls[0].action, calls[0].ts;
    var next := Dispatched(live, a);
    CoreStep(live, s, a);
    CoreKeys(s, live);
    if Logged(live, a) {
      CoreKeys(Dispatched(s, a), next);
      var line := RecordOf(session, seqNo, ts, next, a, digest).value;
      var t := Dispatched(s, a);
      var rest := Recorded(session, seqNo + 1, next, calls[1..], digest);
      ActionRoundTrip(a);
      StepMirrors(line, t, next, digest);
      ReplayFollows(session, seqNo + 1, next, t, calls[1..], digest);
      FollowsSome(ReplayFrom(t, rest, digest), rest, LiveStates(next, calls[1..]),
                  BlockersQuiet(next, calls[1..]) && SameBlockers(t, next), digest);
      ReplayOneLine(line, a, rest, s, digest);
      assert Recorded(session, seqNo, live, calls, digest) == [line] + rest;
      assert LiveStates(live, calls) == [next] + LiveStates(next, calls[1..]);
      FollowsCons(StepOf(line, t, digest), line, next, ReplayFrom(t, rest, digest), rest,
                  LiveStates(next, calls[1..]), BlockersQuiet(live, calls) && SameBlockers(s, live),
                  BlockersQuiet(next, calls[1..]) && SameBlockers(t, next), digest);
    } else {
      CoreKeys(s, next);
      ReplayFollows(session, seqNo, next, s, calls[1..], digest);
      assert Recorded(session, seqNo, live, calls, digest) == Recorded(session, seqNo, next, calls[1..], digest);
      assert LiveStates(live, calls) == LiveStates(next, calls[1..]);
      FollowsQuieter(ReplayFrom(s, Recorded(session, seqNo, live, calls, digest), digest),
                     Recorded(session, seqNo, live, calls, digest), LiveStates(live, calls),
                     BlockersQuiet(next, calls[1..]) && SameBlockers(s, next),
                     BlockersQuiet(live, calls) && SameBlockers(s, live), digest);
    }
  }

  /** One dispatch on both sides: the replay takes the step if the journal has it. */
  lemma CoreStep(live: AfkState, s: AfkState, a: Action)
    requires SameCore(s, live)
    ensures Reduce(live, a).Ok? <==> Reduce(s, a).Ok?
    ensures var next, t := Dispatched(live, a), (if Logged(live, a) then Dispatched(s, a) else s);
      && SameCore(t, next)
      && ((a.SetBlockedBy? ==> next == live) && SameBlockers(s, live) ==> SameBlockers(t, next))
  {
    ReduceRespectsCore(live, s, a);
    if Recordable(a) && Reduce(live, a).Err? {
      assert Dispatched(live, a) == live;
    }
  }

  lemma ReplayOneLine(line: Event, a: Action, rest: seq<Event>, s: AfkState, digest: Json -> string)
    requires line.ActionEvent? && ActionFromJson(line.action) == Some(a) && Reduce(s, a).Ok?
    requires ReplayFrom(Dispatched(s, a), rest, digest).Some?
    ensures ReplayFrom(s, [line] + rest, digest)
         == Some([StepOf(line, Dispatched(s, a), digest)] + ReplayFrom(Dispatched(s, a), rest, digest).value)
  {
    hide ToJson, ActionFromJson, Reduce;
    assert ([line] + rest)[1..] == rest;
  }

  lemma {:induction false} ReplaySkipsOtherLines(s: AfkState, events: seq<Event>, digest: Json -> string)
    ensures ReplayFrom(s, events, digest) == ReplayFrom(s, ActionLines(events), digest)
    decreases |events|
  {
    hide ToJson, ActionFromJson, Reduce;
    if events != [] {
      var rest := ActionLines(events[1..]);
      if events[0].ActionEvent? {
        assert ActionLines(events)[1..] == rest;
        var a := ActionFromJson(events[0].action);
        if a.Some? && Reduce(s, a.value).Ok? {
          ReplaySkipsOtherLines(Dispatched(s, a.value), events[1..], digest);
        }
      } else {
        ReplaySkipsOtherLines(s, events[1..], digest);
        assert ActionLines(events) == rest;
      }
    }
  }

  /** Lines of other kinds do not matter. */
  lemma ReplayOfSession(events: seq<Event>, session: string, ts: int, s: AfkState, calls: seq<Call>,
                        digest: Json -> string)
    requires Journals(events, session, ts, s, calls, digest)
    ensures Replay(events, digest) == Replay(SessionLog(session, ts, s, calls, digest), digest)
  {
    hide ToJson, FromJson, Reduce, Recorded, ReplayFrom;
    var lines := SessionLog(session, ts, s, calls, digest);
    assert lines[1..] == Recorded(session, 1, s, calls, digest);
    if FromJson(ToJson(s)).Some? {
      ReplaySkipsOtherLines(FromJson(ToJson(s)).value, events[1..], digest);
    }
  }

  /** Replaying what a session wrote gives, event by event, the live state up to blockers and costs.
      Digests all match as long as no `SetBlockedBy` changed anything, and when the digest is
      injective a step's digest matches exactly if its blockers are the live ones. */
  lemma ReplayIsASimulation(events: seq<Event>, session: string, ts: int, s: AfkState, calls: seq<Call>,
                            digest: Json -> string)
    requires Journals(events, session, ts, s, calls, digest)
    ensures var steps := Replay(events, digest); var states := [s] + LiveStates(s, calls);
      && steps.Some? && |steps.value| == |states|
      && (forall i | 0 <= i < |states| :: Mirrors(steps.value[i], states[i], digest))
      && (BlockersQuiet(s, calls) ==> forall i | 0 <= i < |states| :: steps.value[i].digestOk)
  {
    hide ToJson, FromJson, ReplayFrom, Recorded, LiveStates, Mirrors, SameCore, SameBlockers;
    StateRoundTrip(s);
    var t := Costless(s);
    CostlessIsCore(s);
    StepMirrors(events[0], t, s, digest);
    ReplaySkipsOtherLines(t, events[1..], digest);
    ReplayFollows(session, 1, s, t, calls, digest);
  }

  lemma {:induction false} RecordedInTurn(session: string, seqNo: int, s: AfkState, calls: seq<Call>,
                                          digest: Json -> string)
    ensures Numbered(Recorded(session, seqNo, s, calls, digest), seqNo)
    decreases |calls|
  {
    hide Reduce, ToJson, ActionToJson;
    if calls != [] {
      var a, t := calls[0].action, Dispatched(s, calls[0].action);
      RecordedInTurn(session, if Logged(s, a) then seqNo + 1 else seqNo, t, calls[1..], digest);
      if Logged(s, a) {
        var line := RecordOf(session, seqNo, calls[0].ts, t, a, digest).value;
        NumberedCons(line, Recorded(session, seqNo + 1, t, calls[1..], digest), seqNo);
      }
    }
  }

  predicate Numbered(lines: seq<Event>, from: int) {
    forall i | 0 <= i < |lines| :: lines[i].ActionEvent? && lines[i].seqNo == from + i
  }

  lemma NumberedCons(line: Event, rest: seq<Event>, from: int)
    requires line.ActionEvent? && line.seqNo == from && Numbered(rest, from + 1)
    ensures Numbered([line] + rest, from)
  {
  }

  /** The steps of a replayed session are numbered from zero. */
  lemma StepsInTurn(events: seq<Event>, session: string, ts: int, s: AfkState, calls: seq<Call>,
                    digest: Json -> string)
    requires Journals(events, session, ts, s, calls, digest)
    ensures Replay(events, digest).Some?
    ensures forall i | 0 <= i < |Replay(events, digest).value| :: Replay(events, digest).value[i].seqNo == i
  {
    hide ToJson, FromJson, ReplayFrom, Recorded, LiveStates, Mirrors, SameCore, SameBlockers;
    StateRoundTrip(s);
    CostlessIsCore(s);
    ReplaySkipsOtherLines(Costless(s), events[1..], digest);
    ReplayFollows(session, 1, s, Costless(s), calls, digest);
    RecordedInTurn(session, 1, s, calls, digest);
  }

  function BlockersOf(s: AfkState): map<int, seq<int>> {
    map n | n in s.issues :: s.issues[n].blockedBy
  }

  /** The blockers each issue came into the journal with: those in the init record, or those of the
      first `EnqueueIssue` for it. */
  function EntryBlockers(known: map<int, seq<int>>, calls: seq<Call>): map<int, seq<int>>
    decreases |calls|
  {
    if calls == [] then known else EntryBlockers(Noted(known, calls[0].action), calls[1..])
  }

  function Noted(known: map<int, seq<int>>, a: Action): map<int, seq<int>> {
    if a.EnqueueIssue? && a.number !in known then known[a.number := a.blockedBy] else known
  }

  lemma {:induction false} EntryBlockersStay(known: map<int, seq<int>>, calls: seq<Call>)
    ensures forall n | n in known :: n in EntryBlockers(known, calls) && EntryBlockers(known, calls)[n] == known[n]
    decreases |calls|
  {
    if calls != [] { EntryBlockersStay(Noted(known, calls[0].action), calls[1..]); }
  }

  /** The issues of the state are blocked as the table says. */
  predicate BlockedAs(s: AfkState, table: map<int, seq<int>>) {
    forall n | n in s.issues :: n in table && s.issues[n].blockedBy == table[n]
  }

  /** What the journal records moves no issue's blockers. */
  lemma RecordedKeepsBlockers(s: AfkState, a: Action, known: map<int, seq<int>>)
    requires BlockedAs(s, known) && s.issues.Keys == known.Keys && Recordable(a) && Reduce(s, a).Ok?
    ensures BlockedAs(Dispatched(s, a), Noted(known, a)) && Dispatched(s, a).issues.Keys == Noted(known, a).Keys
  {
  }

  lemma BlockedAsLonger(s: AfkState, known: map<int, seq<int>>, calls: seq<Call>)
    requires BlockedAs(s, known)
    ensures BlockedAs(s, EntryBlockers(known, calls))
  {
    EntryBlockersStay(known, calls);
  }

  /** What is not recorded, because it was rejected or cannot be, brings no issue into the journal. */
  lemma UnrecordedNotesNothing(live: AfkState, a: Action, known: map<int, seq<int>>)
    requires live.issues.Keys == known.Keys && !Logged(live, a)
    ensures Noted(known, a) == known && Dispatched(live, a).issues.Keys == live.issues.Keys
  {
  }

  /** Every state of a replay has the blockers the issues came with. */
  lemma {:induction false} ReplayKeepsEntryBlockers(session: string, seqNo: int, live: AfkState, s: AfkState,
                                                    calls: seq<Call>, known: map<int, seq<int>>,
                                                    digest: Json -> string)
    requires SameCore(s, live) && BlockedAs(s, known) && s.issues.Keys == known.Keys
    ensures var steps := ReplayFrom(s, Recorded(session, seqNo, live, calls, digest), digest);
      steps.Some? && forall i | 0 <= i < |steps.value| :: BlockedAs(steps.value[i].state, EntryBlockers(known, calls))
    decreases |calls|
  {
    hide ToJson, ActionToJson, ActionFromJson, Reduce, SameCore, BlockedAs;
    if calls == [] { return; }
    var a, next := calls[0].action, Dispatched(live, calls[0].action);
    CoreStep(live, s, a);
    CoreKeys(s, live);
    if Logged(live, a) {
      var line := RecordOf(session, seqNo, calls[0].ts, next, a, digest).value;
      var t, rest := Dispatched(s, a), Recorded(session, seqNo + 1, next, calls[1..], digest);
      ActionRoundTrip(a);
      RecordedKeepsBlockers(s, a, known);
      ReplayKeepsEntryBlockers(session, seqNo + 1, next, t, calls[1..], Noted(known, a), digest);
      ReplayOneLine(line, a, rest, s, digest);
      BlockedAsLonger(t, Noted(known, a), calls[1..]);
      assert Recorded(session, seqNo, live, calls, digest) == [line] + rest;
    } else {
      UnrecordedNotesNothing(live, a, known);
      ReplayKeepsEntryBlockers(session, seqNo, next, s, calls[1..], known, digest);
      assert Recorded(session, seqNo, live, calls, digest) == Recorded(session, seqNo, next, calls[1..], digest);
    }
  }

  lemma CoreKeys(s: AfkState, t: AfkState)
    requires SameCore(s, t)
    ensures s.issues.Keys == t.issues.Keys
  {
  }

  /** When a digest is right: exactly if, at that moment, every live issue is blocked by what it came
      into the journal with. So a mismatch tells of refreshed blockers as well as of an edited log. */
  lemma DigestOkExactly(events: seq<Event>, session: string, ts: int, s: AfkState, calls: seq<Call>,
                        digest: Json -> string, i: nat)
    requires Journals(events, session, ts, s, calls, digest) && Injective(digest) && i <= |LiveStates(s, calls)|
    ensures Replay(events, digest).Some? && i < |Replay(events, digest).value|
    ensures var live := ([s] + LiveStates(s, calls))[i]; var entry := EntryBlockers(BlockersOf(s), calls);
      Replay(events, digest).value[i].digestOk <==> BlockedAs(live, entry)
  {
    hide ToJson, FromJson, ActionToJson, ActionFromJson, Reduce;
    ReplayIsASimulation(events, session, ts, s, calls, digest);
    var t := Costless(s);
    StateRoundTrip(s);
    CostlessIsCore(s);
    ReplaySkipsOtherLines(t, events[1..], digest);
    assert BlockedAs(t, BlockersOf(s)) && t.issues.Keys == BlockersOf(s).Keys;
    ReplayKeepsEntryBlockers(session, 1, s, t, calls, BlockersOf(s), digest);
    BlockedAsLonger(t, BlockersOf(s), calls);
    var step, live := Replay(events, digest).value[i], ([s] + LiveStates(s, calls))[i];
    assert Mirrors(step, live, digest);
    var entry := EntryBlockers(BlockersOf(s), calls);
    assert BlockedAs(step.state, entry);
    assert SameBlockers(step.state, live) <==> BlockedAs(live, entry);
  }

  lemma CostlessIsCore(s: AfkState)
    ensures SameCore(Costless(s), s) && SameBlockers(Costless(s), s)
  {
    assert Costless(s).issues.Keys == s.issues.Keys;
    assert forall n | n in s.issues :: Costless(s).issues[n] == WithoutCost(s.issues[n]);
  }

  /** In particular a resume that refreshes an issue's blockers makes the digests after it mismatch,
      although nobody edited the log and the reducer did not change. */
  lemma RefreshedBlockersBreakTheDigest(events: seq<Event>, session: string, ts: int, s: AfkState,
                                        calls: seq<Call>, digest: Json -> string, i: nat, n: int)
    requires Journals(events, session, ts, s, calls, digest) && Injective(digest)
    requires i <= |LiveStates(s, calls)|
    requires var live := ([s] + LiveStates(s, calls))[i]; var entry := EntryBlockers(BlockersOf(s), calls);
      n in live.issues && n in entry && live.issues[n].blockedBy != entry[n]
    ensures Replay(events, digest).Some? && i < |Replay(events, digest).value|
    ensures !Replay(events, digest).value[i].digestOk
  {
    hide ToJson, Replay, EntryBlockers, LiveStates;
    DigestOkExactly(events, session, ts, s, calls, digest, i);
  }

  /** For instance a session that resumes an issue with new blockers: the digest of the init record is right,
      that of the first recorded action is not. */
  lemma ResumeBreaksTheDigest(events: seq<Event>, session: string, ts: int, s: AfkState, n: int,
                              blockers: seq<int>, digest: Json -> string)
    requires n in s.issues && blockers != s.issues[n].blockedBy && Injective(digest)
    requires Journals(events, session, ts, s, [Call(SetBlockedBy(n, blockers), ts), Call(RequeueIssue(n), ts)], digest)
    ensures var steps := Replay(events, digest);
      steps.Some? && |steps.value| == 2 && steps.value[0].digestOk && !steps.value[1].digestOk
  {
    hide ToJson, Replay, Journals, Reduce;
    var calls := [Call(SetBlockedBy(n, blockers), ts), Call(RequeueIssue(n), ts)];
    var last := Dispatched(Dispatched(s, SetBlockedBy(n, blockers)), RequeueIssue(n));
    RefreshedStates(s, n, blockers, ts);
    EntryBlockersOfOld(s, calls);
    ReplayIsASimulation(events, session, ts, s, calls, digest);
    DigestOkExactly(events, session, ts, s, calls, digest, 0);
    assert ([s] + LiveStates(s, calls))[1] == last;
    DigestOkExactly(events, session, ts, s, calls, digest, 1);
  }

  lemma RefreshedStates(s: AfkState, n: int, blockers: seq<int>, ts: int)
    requires n in s.issues
    ensures var last := Dispatched(Dispatched(s, SetBlockedBy(n, blockers)), RequeueIssue(n));
      && LiveStates(s, [Call(SetBlockedBy(n, blockers), ts), Call(RequeueIssue(n), ts)]) == [last]
      && n in last.issues && last.issues[n].blockedBy == blockers
  {
    var calls := [Call(SetBlockedBy(n, blockers), ts), Call(RequeueIssue(n), ts)];
    var mid := Dispatched(s, SetBlockedBy(n, blockers));
    assert calls[1..] == [Call(RequeueIssue(n), ts)] && calls[1..][1..] == [];
    assert LiveStates(s, calls) == LiveStates(mid, calls[1..]);
    var last := Dispatched(mid, RequeueIssue(n));
    assert LiveStates(mid, calls[1..]) == [last] + LiveStates(last, []);
  }

  lemma EntryBlockersOfOld(s: AfkState, calls: seq<Call>)
    ensures BlockedAs(s, EntryBlockers(BlockersOf(s), calls))
    ensures forall n | n in s.issues :: EntryBlockers(BlockersOf(s), calls)[n] == s.issues[n].blockedBy
  {
    EntryBlockersStay(BlockersOf(s), calls);
  }

  /** In a replay an issue keeps the blockers it has at the first step. */
  lemma {:induction false} BlockersNeverMoveFrom(s: AfkState, events: seq<Event>, digest: Json -> string, n: int)
    requires n in s.issues && ReplayFrom(s, events, digest).Some?
    ensures forall i | 0 <= i < |ReplayFrom(s, events, digest).value| ::
      var t := ReplayFrom(s, events, digest).value[i].state;
      n in t.issues && t.issues[n].blockedBy == s.issues[n].blockedBy
    decreases |events|
  {
    hide ToJson;
    if events != [] {
      if events[0].ActionEvent? {
        var a := ActionFromJson(events[0].action).value;
        assert !a.SetBlockedBy?;
        BlockersNeverMoveFrom(Dispatched(s, a), events[1..], digest, n);
      } else {
        BlockersNeverMoveFrom(s, events[1..], digest, n);
      }
    }
  }

  lemma BlockersNeverMove(events: seq<Event>, digest: Json -> string, n: int)
    requires Replay(events, digest).Some? && events != []
    requires n in Replay(events, digest).value[0].state.issues
    ensures var steps := Replay(events, digest).value;
      forall i | 0 <= i < |steps| ::
        n in steps[i].state.issues && steps[i].state.issues[n].blockedBy == steps[0].state.issues[n].blockedBy
  {
    hide ToJson, FromJson, ActionFromJson, Reduce;
    var s := FromJson(events[0].state).value;
    BlockersNeverMoveFrom(s, events[1..], digest, n);
  }
}
