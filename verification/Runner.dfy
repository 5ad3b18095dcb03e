/** The AFK workers (agentrail/afk/runner.py) as interleaved steps over one store. A step is one
    stretch of a worker between two `await`s; whatever the outside world answers at an `await`
    (open blockers, the agent, CI, the merge) is an arbitrary input of the step. */
module Runner {
  import opened Collections
  import opened FleetState

  /** Where a worker is suspended. */
  datatype Phase =
    | Looping                              // reading the open blockers, possibly from the cache
    | Rechecking                           // reading them with force=True before giving up
    | Starting(issue: int)
    | Implementing(issue: int)
    | Gating(issue: int, attempts: int)
    | Merging(issue: int)
    | Fixing(issue: int, attempts: int)
    | Returned

  /** What the awaited call came back with. */
  datatype Input =
    | Blockers(open: set<int>)
    | Detected(pr: Option<int>)
    | Implemented(ok: bool, costUsd: real, reason: string, pr: Option<int>)
    | Gated(passed: bool)
    | MergeDone(ok: bool)
    | FixDone(ok: bool)
    | Raised(error: string)

  datatype Stretch = Stretch(actions: seq<Action>, next: Phase)

  datatype Fleet = Fleet(store: AfkState, workers: seq<Phase>)

  datatype Outcome = NotEnabled | Crashed | Moved(fleet: Fleet)

  const MAX_FIX := 2

  predicate Busy(p: Phase) {
    !p.Looping? && !p.Rechecking? && !p.Returned?
  }

  /** A PR number of 0 is falsy. */
  predicate Truthy(pr: Option<int>) {
    pr.Some? && pr.value != 0
  }

  // ---------------------------------------------------------------------------
  // One stretch
  // ---------------------------------------------------------------------------

  /** `_worker`, from the blocker read to the next suspension. */
  function LoopStretch(s: AfkState, open: set<int>): Stretch {
    var claim := ClaimNext(s, open);
    if claim.Some? then Stretch([claim.value], Starting(claim.value.number))
    else if IsDrained(s) then Stretch([], Returned)
    else if ActiveCount(s) == 0 && AnyQueued(s) then Stretch([], Rechecking)
    else Stretch([], Looping)
  }

  function RecheckStretch(s: AfkState, open: set<int>): Stretch {
    var claim := ClaimNext(s, open);
    if claim.Some? then Stretch([claim.value], Starting(claim.value.number))
    else Stretch([], Returned)
  }

  /** `_process` and `_gate_and_fix`, one suspension at a time. */
  function ProcessStretch(s: AfkState, p: Phase, input: Input, autoMerge: bool): Option<Stretch>
    requires Busy(p) && p.issue in s.issues
  {
    var n := p.issue;
    if input.Raised? then
      Some(Stretch([RecordFailure(n, Some("worker exception: " + input.error))], Looping))
    else match p
    case Starting(_) =>
      if !input.Detected? then None else
      var pr := if Truthy(s.issues[n].pr) then s.issues[n].pr else input.pr;
      if Truthy(pr) then Some(Stretch([SetPr(n, pr.value), SetStatus(n, PrOpen)], Gating(n, 0)))
      else Some(Stretch([SetStatus(n, Running)], Implementing(n)))
    case Implementing(_) =>
      if !input.Implemented? then None
      else if !input.ok then
        Some(Stretch([RecordCost(n, input.costUsd), RecordFailure(n, Some(input.reason))], Looping))
      else if !Truthy(input.pr) then
        Some(Stretch([RecordCost(n, input.costUsd), RecordFailure(n, Some("no PR opened"))], Looping))
      else
        Some(Stretch([RecordCost(n, input.costUsd), SetPr(n, input.pr.value), SetStatus(n, PrOpen)],
                     Gating(n, 0)))
    case Gating(_, attempts) =>
      if !input.Gated? then None
      else if input.passed && !autoMerge then Some(Stretch([SetStatus(n, Commented)], Looping))
      else if input.passed then Some(Stretch([], Merging(n)))
      else if attempts >= MAX_FIX then Some(Stretch([SetStatus(n, HumanReview)], Looping))
      else Some(Stretch([SetStatus(n, Autofixing)], Fixing(n, attempts + 1)))
    case Merging(_) =>
      if !input.MergeDone? then None
      else if input.ok then Some(Stretch([SetStatus(n, Merged)], Looping))
      else Some(Stretch([RecordFailure(n, Some("merge failed"))], Looping))
    case Fixing(_, attempts) =>
      if !input.FixDone? then None
      else if input.ok then Some(Stretch([], Gating(n, attempts)))
      else Some(Stretch([SetStatus(n, HumanReview)], Looping))
  }

  function WorkerStretch(s: AfkState, p: Phase, input: Input, autoMerge: bool): Option<Stretch> {
    if p.Returned? then None
    else if p.Looping? then
      if input.Blockers? then Some(LoopStretch(s, input.open)) else None
    else if p.Rechecking? then
      if input.Blockers? then Some(RecheckStretch(s, input.open)) else None
    else if p.issue in s.issues then ProcessStretch(s, p, input, autoMerge)
    else None
  }

  /** Worker `w` runs one stretch. A dispatch that raises outside `_process` would kill the worker. */
  function Next(f: Fleet, w: int, input: Input, autoMerge: bool): Outcome {
    if !(0 <= w < |f.workers|) then NotEnabled else
    var stretch := WorkerStretch(f.store, f.workers[w], input, autoMerge);
    if stretch.None? then NotEnabled
    else if !AllAccepted(f.store, stretch.value.actions) then Crashed
    else Moved(Fleet(DispatchedAll(f.store, stretch.value.actions),
                     f.workers[w := stretch.value.next]))
  }

  predicate AllAccepted(s: AfkState, actions: seq<Action>)
    decreases |actions|
  {
    actions == [] ||
    (Reduce(s, actions[0]).Ok? && AllAccepted(Dispatched(s, actions[0]), actions[1..]))
  }

  // ---------------------------------------------------------------------------
  // What one stretch does to the store
  // ---------------------------------------------------------------------------

  predicate SameElsewhere(s: AfkState, t: AfkState, n: int) {
    && t.concurrency == s.concurrency && t.maxRetries == s.maxRetries
    && n in s.issues && t.issues.Keys == s.issues.Keys
    && forall m | m in s.issues && m != n :: t.issues[m] == s.issues[m]
  }

  /** The issue stays in flight in its slot. */
  predicate WorkedOn(s: AfkState, t: AfkState, n: int) {
    && SameElsewhere(s, t, n) && t.slots == s.slots
    && t.issues[n].slot == s.issues[n].slot && InFlight(t.issues[n].status)
    && t.issues[n].retries == s.issues[n].retries
  }

  /** The issue gives its slot back, for good or for another attempt. */
  predicate Settled(s: AfkState, t: AfkState, n: int) {
    && SameElsewhere(s, t, n)
    && s.issues[n].slot.Some? && t.slots == s.slots[s.issues[n].slot.value := None]
    && t.issues[n].slot.None?
    && (Terminal(t.issues[n].status) ||
        (t.issues[n].status.Queued? && t.issues[n].retries == s.issues[n].retries + 1
         && t.issues[n].retries < s.maxRetries))
  }

  /** A queued issue takes a free slot. */
  predicate TookSlot(s: AfkState, t: AfkState, n: int, k: int) {
    && SameElsewhere(s, t, n) && s.issues[n].status.Queued?
    && 0 <= k < s.concurrency && SlotOf(s.slots, k).None? && t.slots == s.slots[k := Some(n)]
    && t.issues[n] == s.issues[n].(status := Claimed, slot := Some(k))
  }

  predicate KeepsIssue(a: Action, n: int) {
    match a
    case SetPr(m, _) => m == n
    case RecordCost(m, _) => m == n
    case SetStatus(m, status) => m == n && InFlight(status)
    case _ => false
  }

  predicate SettlesIssue(a: Action, n: int) {
    match a
    case RecordFailure(m, _) => m == n
    case SetStatus(m, status) => m == n && Terminal(status)
    case _ => false
  }

  lemma ActionEffect(s: AfkState, a: Action, n: int)
    requires Consistent(s) && HoldsSlot(s, n) && (KeepsIssue(a, n) || SettlesIssue(a, n))
    ensures Disciplined(s, a)
    ensures KeepsIssue(a, n) ==>
      WorkedOn(s, Dispatched(s, a), n) && HoldsSlot(Dispatched(s, a), n)
    ensures SettlesIssue(a, n) ==> Settled(s, Dispatched(s, a), n)
  {
    assert IssueOk(n, s.issues[n]);
  }

  /** A stretch of `_process` works on its issue and settles it, if at all, with its last action. */
  lemma {:induction false} ActionsEffect(s: AfkState, actions: seq<Action>, n: int)
    requires Consistent(s) && HoldsSlot(s, n)
    requires forall i | 0 <= i < |actions| - 1 :: KeepsIssue(actions[i], n)
    requires actions != [] ==>
      KeepsIssue(actions[|actions| - 1], n) || SettlesIssue(actions[|actions| - 1], n)
    ensures DisciplinedAll(s, actions)
    ensures if actions == [] || KeepsIssue(actions[|actions| - 1], n)
            then WorkedOn(s, DispatchedAll(s, actions), n)
            else Settled(s, DispatchedAll(s, actions), n)
    decreases |actions|
  {
    assert IssueOk(n, s.issues[n]);
    if actions != [] {
      ActionEffect(s, actions[0], n);
      if KeepsIssue(actions[0], n) {
        DisciplinedKeepsConsistent(s, actions[0]);
        ActionsEffect(Dispatched(s, actions[0]), actions[1..], n);
      } else {
        assert actions[1..] == [];
      }
    }
  }

  /** How far a claim still has to go; it falls at every stretch of the claim. */
  function Rank(p: Phase): int {
    match p
    case Returned => 0
    case Rechecking => 1
    case Looping => 2
    case Merging(_) => 3
    case Gating(_, a) => 8 - 2 * a
    case Fixing(_, a) => 9 - 2 * a
    case Implementing(_) => 9
    case Starting(_) => 10
  }

  /** Gate evaluations and fixes the worker may still make within its current claim of `n`. */
  function GatesLeft(p: Phase, n: int): int {
    if !Busy(p) || p.issue != n then 0 else
    match p
    case Gating(_, a) => MAX_FIX + 1 - a
    case Fixing(_, a) => MAX_FIX + 1 - a
    case Merging(_) => 0
    case _ => MAX_FIX + 1
  }

  function FixesLeft(p: Phase, n: int): int {
    if !Busy(p) || p.issue != n then 0 else
    match p
    case Gating(_, a) => MAX_FIX - a
    case Fixing(_, a) => MAX_FIX + 1 - a
    case Merging(_) => 0
    case _ => MAX_FIX
  }

  predicate PhaseOk(p: Phase) {
    && (p.Gating? ==> 0 <= p.attempts <= MAX_FIX)
    && (p.Fixing? ==> 1 <= p.attempts <= MAX_FIX)
  }

  /** The shape of a stretch: it keeps its issue in work up to its last action, and either settles the
      issue with that and goes back to the loop, or goes on with the issue, closer to the end. */
  lemma ProcessShape(s: AfkState, p: Phase, input: Input, autoMerge: bool)
    requires Busy(p) && PhaseOk(p) && p.issue in s.issues && ProcessStretch(s, p, input, autoMerge).Some?
    ensures var stretch := ProcessStretch(s, p, input, autoMerge).value;
      var actions := stretch.actions; var q := stretch.next; var n := p.issue;
      && (forall i | 0 <= i < |actions| - 1 :: KeepsIssue(actions[i], n))
      && Rank(q) < Rank(p)
      && (if actions != [] && !KeepsIssue(actions[|actions| - 1], n)
          then SettlesIssue(actions[|actions| - 1], n) && q == Looping
          else && Busy(q) && q.issue == n && PhaseOk(q)
               && GatesLeft(q, n) + (if p.Gating? then 1 else 0) <= GatesLeft(p, n)
               && FixesLeft(q, n) + (if p.Fixing? then 1 else 0) <= FixesLeft(p, n))
  {
  }

  lemma ProcessEffect(s: AfkState, p: Phase, input: Input, autoMerge: bool)
    requires Consistent(s) && Busy(p) && PhaseOk(p) && HoldsSlot(s, p.issue)
    requires ProcessStretch(s, p, input, autoMerge).Some?
    ensures var stretch := ProcessStretch(s, p, input, autoMerge).value;
      var t := DispatchedAll(s, stretch.actions); var n := p.issue; var q := stretch.next;
      && DisciplinedAll(s, stretch.actions)
      && Rank(q) < Rank(p)
      && (|| (q == Looping && Settled(s, t, n))
          || (&& Busy(q) && q.issue == n && PhaseOk(q) && WorkedOn(s, t, n)
              && GatesLeft(q, n) + (if p.Gating? then 1 else 0) <= GatesLeft(p, n)
              && FixesLeft(q, n) + (if p.Fixing? then 1 else 0) <= FixesLeft(p, n)))
  {
    hide ProcessStretch, Consistent, Reduce, KeepsIssue, SettlesIssue, Rank, GatesLeft, FixesLeft;
    ProcessShape(s, p, input, autoMerge);
    ActionsEffect(s, ProcessStretch(s, p, input, autoMerge).value.actions, p.issue);
  }

  lemma ClaimEffect(s: AfkState, open: set<int>)
    requires Consistent(s) && ClaimNext(s, open).Some?
    ensures var a := ClaimNext(s, open).value;
      Disciplined(s, a) && TookSlot(s, Dispatched(s, a), a.number, a.slot) &&
      Claimable(s.issues[a.number], open)
  {
  }

  lemma {:induction false} DisciplinedAccepted(s: AfkState, actions: seq<Action>)
    requires Consistent(s) && DisciplinedAll(s, actions)
    ensures AllAccepted(s, actions)
    decreases |actions|
  {
    if actions != [] {
      DisciplinedKeepsConsistent(s, actions[0]);
      DisciplinedAccepted(Dispatched(s, actions[0]), actions[1..]);
    }
  }

  // ---------------------------------------------------------------------------
  // The fleet invariant
  // ---------------------------------------------------------------------------

  predicate Works(f: Fleet, w: int, n: int) {
    0 <= w < |f.workers| && Busy(f.workers[w]) && f.workers[w].issue == n
  }

  predicate WorkerOk(f: Fleet, w: int)
    requires 0 <= w < |f.workers|
  {
    PhaseOk(f.workers[w]) && (Busy(f.workers[w]) ==> HoldsSlot(f.store, f.workers[w].issue))
  }

  ghost predicate Inv(f: Fleet) {
    && |f.workers| == f.store.concurrency
    && Consistent(f.store)
    && (forall w | 0 <= w < |f.workers| :: WorkerOk(f, w))
    && (forall v, w, n | Works(f, v, n) && Works(f, w, n) :: v == w)
    && (forall k | SlotOf(f.store.slots, k).Some? ::
          exists w :: Works(f, w, f.store.slots[k].value))
  }

  /** The state `run` starts from: every worker at the top of its loop, every slot free. */
  predicate Start(f: Fleet) {
    && f.store.concurrency >= 1 && |f.workers| == f.store.concurrency
    && Consistent(f.store) && BusySlots(f.store) == {}
    && forall w | 0 <= w < |f.workers| :: f.workers[w] == Looping
  }

  /** The kinds of step there are; every theorem below is a case split on them. */
  predicate Waits(f: Fleet, w: int, g: Fleet) {
    g == f && 0 <= w < |f.workers| && f.workers[w].Looping? && ActiveCount(f.store) > 0
  }

  predicate Leaves(f: Fleet, w: int, g: Fleet) {
    && 0 <= w < |f.workers| && g.store == f.store && !Busy(f.workers[w])
    && ((f.workers[w].Looping? && g.workers == f.workers[w := Rechecking]) ||
        (!f.workers[w].Returned? && g.workers == f.workers[w := Returned]))
  }

  predicate Claims(f: Fleet, w: int, g: Fleet, n: int) {
    && 0 <= w < |f.workers| && !Busy(f.workers[w]) && !f.workers[w].Returned?
    && g.workers == f.workers[w := Starting(n)]
    && n in g.store.issues && g.store.issues[n].slot.Some?
    && TookSlot(f.store, g.store, n, g.store.issues[n].slot.value)
  }

  predicate Works1(f: Fleet, w: int, g: Fleet, n: int, q: Phase) {
    && Works(f, w, n) && g.workers == f.workers[w := q] && Rank(q) < Rank(f.workers[w])
    && Busy(q) && q.issue == n && PhaseOk(q) && WorkedOn(f.store, g.store, n)
    && GatesLeft(q, n) + (if f.workers[w].Gating? then 1 else 0) <= GatesLeft(f.workers[w], n)
    && FixesLeft(q, n) + (if f.workers[w].Fixing? then 1 else 0) <= FixesLeft(f.workers[w], n)
  }

  predicate Settles(f: Fleet, w: int, g: Fleet, n: int) {
    && Works(f, w, n) && g.workers == f.workers[w := Looping] && Rank(f.workers[w]) > 2
    && Settled(f.store, g.store, n)
  }

  predicate StepKind(f: Fleet, w: int, g: Fleet, n: int, q: Phase) {
    Waits(f, w, g) || Leaves(f, w, g) || Claims(f, w, g, n) || Works1(f, w, g, n, q) || Settles(f, w, g, n)
  }

  /** The issue a step is about (meaningless for a step that touches none). */
  function Subject(f: Fleet, w: int, g: Fleet): int {
    if 0 <= w < |f.workers| && Busy(f.workers[w]) then f.workers[w].issue
    else if 0 <= w < |g.workers| && Busy(g.workers[w]) then g.workers[w].issue
    else 0
  }

  /** In an invariant state a step never crashes, keeps the runner's discipline, and is of one of
      the five kinds. */
  lemma StepCases(f: Fleet, w: int, input: Input, autoMerge: bool)
    requires Inv(f) && Next(f, w, input, autoMerge) != NotEnabled
    ensures Next(f, w, input, autoMerge).Moved?
    ensures var stretch := WorkerStretch(f.store, f.workers[w], input, autoMerge).value;
      DisciplinedAll(f.store, stretch.actions)
    ensures var g := Next(f, w, input, autoMerge).fleet;
      g.workers[w] == WorkerStretch(f.store, f.workers[w], input, autoMerge).value.next &&
      StepKind(f, w, g, Subject(f, w, g), g.workers[w])
  {
    var p := f.workers[w];
    var stretch := WorkerStretch(f.store, p, input, autoMerge).value;
    assert WorkerOk(f, w);
    if Busy(p) {
      ProcessEffect(f.store, p, input, autoMerge);
    } else {
      var claim := ClaimNext(f.store, input.open);
      if claim.Some? {
        ClaimEffect(f.store, input.open);
        DispatchedOne(f.store, claim.value);
      }
      assert stretch.actions != [] ==> stretch.actions[1..] == [];
    }
    DisciplinedAccepted(f.store, stretch.actions);
    assert stretch.next == p ==> f.workers[w := p] == f.workers;
    var g := Next(f, w, input, autoMerge).fleet;
    if Busy(p) {
      assert Works1(f, w, g, p.issue, g.workers[w]) || Settles(f, w, g, p.issue);
    } else if ClaimNext(f.store, input.open).Some? {
      assert Claims(f, w, g, g.workers[w].issue);
    } else if stretch.next == p {
      assert g == f;
      assert Waits(f, w, g);
    } else {
      assert Leaves(f, w, g);
    }
  }
}
