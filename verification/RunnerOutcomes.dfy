/** What becomes of an issue, told from the answers its worker got: which answers merge it, leave it as a
    comment, hand it to a human or send it back, and with which PR. Nothing here mentions what a stretch
    dispatches; it is all said of the states of a run and the inputs between them. */
module RunnerOutcomes {
  import opened Collections
  import opened FleetState
  import opened Runner
  import opened RunnerTheorems

  // ---------------------------------------------------------------------------
  // One answer
  // ---------------------------------------------------------------------------

  /** The answer is a failure of the attempt: an exception, a failed implementation, one without a PR, or a
      failed merge. */
  predicate FailsOn(p: Phase, input: Input) {
    || (Busy(p) && input.Raised?)
    || (p.Implementing? && input.Implemented? && (!input.ok || !Truthy(input.pr)))
    || (p.Merging? && input == MergeDone(false))
  }

  function FailureText(p: Phase, input: Input): string {
    if input.Raised? then "worker exception: " + input.error
    else if p.Implementing? && input.Implemented? then (if !input.ok then input.reason else "no PR opened")
    else "merge failed"
  }

  /** The answer takes the issue to a human: the third gate is red, or a fix fails. */
  predicate EscalatesOn(p: Phase, input: Input) {
    (p.Gating? && p.attempts == 2 && input == Gated(false)) || (p.Fixing? && input == FixDone(false))
  }

  /** The PR an answer brings, where one is looked for. */
  function PrBrought(known: Option<int>, p: Phase, input: Input): Option<int> {
    if p.Starting? && input.Detected? then (if Truthy(known) then known else input.pr)
    else if p.Implementing? && input.Implemented? && input.ok then input.pr
    else None
  }

  /** How an issue ends a stretch, field by field. */
  predicate Ends(a: IssueState, b: IssueState, p: Phase, input: Input, autoMerge: bool, maxRetries: int) {
    && (b.status.Merged? <==> p.Merging? && input == MergeDone(true))
    && (b.status.Commented? <==> p.Gating? && input == Gated(true) && !autoMerge)
    && (b.status.HumanReview? <==> EscalatesOn(p, input) || (FailsOn(p, input) && a.retries + 1 >= maxRetries))
    && (b.status.Queued? <==> FailsOn(p, input) && a.retries + 1 < maxRetries)
    && (Truthy(PrBrought(a.pr, p, input)) ==> b.status.PrOpen?)
    && (p.Starting? && input.Detected? && !Truthy(PrBrought(a.pr, p, input)) ==> b.status.Running?)
    && (p.Gating? && p.attempts < 2 && input == Gated(false) ==> b.status.Autofixing?)
    && ((p.Gating? && input == Gated(true) && autoMerge) || (p.Fixing? && input == FixDone(true)) ==>
          b.status == a.status)
    && !b.status.Failed?
  }

  predicate Carries(a: IssueState, b: IssueState, p: Phase, input: Input) {
    && b.retries == a.retries + (if FailsOn(p, input) then 1 else 0)
    && b.error == (if FailsOn(p, input) then Some(FailureText(p, input)) else a.error)
    && b.pr == (if Truthy(PrBrought(a.pr, p, input)) then PrBrought(a.pr, p, input) else a.pr)
    && b.costUsd == (if p.Implementing? && input.Implemented? then input.costUsd else a.costUsd)
    && b.number == a.number && b.title == a.title && b.url == a.url && b.blockedBy == a.blockedBy
    && b.reviewRounds == a.reviewRounds
  }

  /** What the four actions of a coroutine do to the record of their issue. */
  function OnIssue(i: IssueState, a: Action, maxRetries: int): IssueState
  {
    match a
    case SetPr(_, pr) => i.(pr := Some(pr))
    case SetStatus(_, status) => i.(status := status, slot := if Terminal(status) then None else i.slot)
    case RecordCost(_, cost) => i.(costUsd := cost)
    case RecordFailure(_, error) =>
      i.(status := if i.retries + 1 >= maxRetries then HumanReview else Queued, slot := None,
         retries := i.retries + 1, error := error)
    case _ => i
  }

  predicate About(a: Action, n: int) {
    (a.SetPr? || a.SetStatus? || a.RecordCost? || a.RecordFailure?) && a.number == n
  }

  lemma DispatchedOnIssue(s: AfkState, a: Action, n: int)
    requires n in s.issues && About(a, n)
    ensures var t := Dispatched(s, a);
      n in t.issues && t.issues[n] == OnIssue(s.issues[n], a, s.maxRetries) && t.maxRetries == s.maxRetries
  {
  }

  function OnIssueAll(i: IssueState, actions: seq<Action>, maxRetries: int): IssueState
    decreases |actions|
  {
    if actions == [] then i else OnIssueAll(OnIssue(i, actions[0], maxRetries), actions[1..], maxRetries)
  }

  lemma {:induction false} DispatchedOnIssueAll(s: AfkState, actions: seq<Action>, n: int)
    requires n in s.issues && forall k | 0 <= k < |actions| :: About(actions[k], n)
    ensures var t := DispatchedAll(s, actions);
      n in t.issues && t.issues[n] == OnIssueAll(s.issues[n], actions, s.maxRetries)
    decreases |actions|
  {
    if actions != [] {
      DispatchedOnIssue(s, actions[0], n);
      DispatchedOnIssueAll(Dispatched(s, actions[0]), actions[1..], n);
    }
  }

  lemma ActionsAreAbout(s: AfkState, p: Phase, input: Input, autoMerge: bool)
    requires Busy(p) && p.issue in s.issues && ProcessStretch(s, p, input, autoMerge).Some?
    ensures var actions := ProcessStretch(s, p, input, autoMerge).value.actions;
      forall k | 0 <= k < |actions| :: About(actions[k], p.issue)
  {
  }

  lemma UpToThree(i: IssueState, actions: seq<Action>, maxRetries: int)
    ensures |actions| == 0 ==> OnIssueAll(i, actions, maxRetries) == i
    ensures |actions| == 1 ==> OnIssueAll(i, actions, maxRetries) == OnIssue(i, actions[0], maxRetries)
    ensures |actions| == 2 ==>
      OnIssueAll(i, actions, maxRetries) == OnIssue(OnIssue(i, actions[0], maxRetries), actions[1], maxRetries)
    ensures |actions| == 3 ==>
      OnIssueAll(i, actions, maxRetries) ==
      OnIssue(OnIssue(OnIssue(i, actions[0], maxRetries), actions[1], maxRetries), actions[2], maxRetries)
  {
    hide OnIssue;
    if |actions| >= 1 {
      var one, rest := OnIssue(i, actions[0], maxRetries), actions[1..];
      assert OnIssueAll(i, actions, maxRetries) == OnIssueAll(one, rest, maxRetries);
      if |actions| >= 2 {
        var two := OnIssue(one, rest[0], maxRetries);
        assert OnIssueAll(one, rest, maxRetries) == OnIssueAll(two, rest[1..], maxRetries);
        if |actions| == 3 {
          assert OnIssueAll(two, rest[1..], maxRetries)
              == OnIssueAll(OnIssue(two, rest[1..][0], maxRetries), rest[1..][1..], maxRetries);
        }
      }
    }
  }

  lemma RecordEnds(s: AfkState, p: Phase, input: Input, autoMerge: bool)
    requires Busy(p) && PhaseOk(p) && p.issue in s.issues && ProcessStretch(s, p, input, autoMerge).Some?
    requires InFlight(s.issues[p.issue].status)
    ensures var i := s.issues[p.issue];
      Ends(i, OnIssueAll(i, ProcessStretch(s, p, input, autoMerge).value.actions, s.maxRetries), p, input, autoMerge,
           s.maxRetries)
  {
    hide OnIssueAll;
    UpToThree(s.issues[p.issue], ProcessStretch(s, p, input, autoMerge).value.actions, s.maxRetries);
  }

  lemma RecordCarries(s: AfkState, p: Phase, input: Input, autoMerge: bool)
    requires Busy(p) && PhaseOk(p) && p.issue in s.issues && ProcessStretch(s, p, input, autoMerge).Some?
    ensures var i := s.issues[p.issue];
      Carries(i, OnIssueAll(i, ProcessStretch(s, p, input, autoMerge).value.actions, s.maxRetries), p, input)
  {
    hide OnIssueAll;
    UpToThree(s.issues[p.issue], ProcessStretch(s, p, input, autoMerge).value.actions, s.maxRetries);
  }

  lemma ProcessEnds(s: AfkState, p: Phase, input: Input, autoMerge: bool)
    requires Busy(p) && PhaseOk(p) && p.issue in s.issues && ProcessStretch(s, p, input, autoMerge).Some?
    requires InFlight(s.issues[p.issue].status)
    ensures var t := DispatchedAll(s, ProcessStretch(s, p, input, autoMerge).value.actions); var n := p.issue;
      && n in t.issues && Ends(s.issues[n], t.issues[n], p, input, autoMerge, s.maxRetries)
      && Carries(s.issues[n], t.issues[n], p, input)
  {
    hide DispatchedAll, Reduce, OnIssueAll, OnIssue, Ends, Carries, ProcessStretch;
    ActionsAreAbout(s, p, input, autoMerge);
    DispatchedOnIssueAll(s, ProcessStretch(s, p, input, autoMerge).value.actions, p.issue);
    RecordEnds(s, p, input, autoMerge);
    RecordCarries(s, p, input, autoMerge);
  }

  // ---------------------------------------------------------------------------
  // Whole moves
  // ---------------------------------------------------------------------------

  /** The phase a worker goes on in, told from its answer. */
  predicate GoesOn(a: IssueState, p: Phase, q: Phase, input: Input, autoMerge: bool) {
    && (q.Gating? <==> Truthy(PrBrought(a.pr, p, input)) || (p.Fixing? && input == FixDone(true)))
    && (q.Gating? ==> q.attempts == if p.Fixing? then p.attempts else 0)
    && (q.Fixing? <==> p.Gating? && p.attempts < 2 && input == Gated(false))
    && (q.Fixing? ==> q.attempts == p.attempts + 1)
    && (q.Merging? <==> p.Gating? && input == Gated(true) && autoMerge)
    && (q.Implementing? <==> p.Starting? && input.Detected? && !Truthy(PrBrought(a.pr, p, input)))
    && !q.Starting? && !q.Rechecking? && !q.Returned?
    && (Busy(q) ==> q.issue == p.issue)
  }

  lemma ProcessGoesOn(s: AfkState, p: Phase, input: Input, autoMerge: bool)
    requires Busy(p) && PhaseOk(p) && p.issue in s.issues && ProcessStretch(s, p, input, autoMerge).Some?
    ensures GoesOn(s.issues[p.issue], p, ProcessStretch(s, p, input, autoMerge).value.next, input, autoMerge)
  {
  }

  /** What a move by a worker in work does to its issue. */
  predicate Treats(f: Fleet, w: int, input: Input, autoMerge: bool, g: Fleet)
    requires 0 <= w < |f.workers| == |g.workers| && Busy(f.workers[w])
  {
    var p, n := f.workers[w], f.workers[w].issue;
    && n in f.store.issues && n in g.store.issues
    && Ends(f.store.issues[n], g.store.issues[n], p, input, autoMerge, f.store.maxRetries)
    && Carries(f.store.issues[n], g.store.issues[n], p, input)
    && GoesOn(f.store.issues[n], p, g.workers[w], input, autoMerge)
  }

  /** What a move leaves alone: other workers, and every issue it neither works on nor claims. */
  predicate LeavesOthers(f: Fleet, w: int, g: Fleet)
    requires 0 <= w < |f.workers| == |g.workers|
  {
    && g.store.issues.Keys == f.store.issues.Keys
    && (forall v | 0 <= v < |f.workers| && v != w :: g.workers[v] == f.workers[v])
    && (forall m | m in f.store.issues && !Works(f, w, m) ::
          || g.store.issues[m] == f.store.issues[m]
          || (&& !Busy(f.workers[w]) && g.workers[w] == Starting(m) && f.store.issues[m].status.Queued?
              && g.store.issues[m].status.Claimed?
              && g.store.issues[m] == f.store.issues[m].(status := Claimed, slot := g.store.issues[m].slot)))
    && (!Busy(f.workers[w]) && Busy(g.workers[w]) ==> g.workers[w].Starting?)
    && g.store.maxRetries == f.store.maxRetries
  }

  lemma MoveKeepsOthers(f: Fleet, w: int, g: Fleet, n: int, q: Phase)
    requires Inv(f) && StepKind(f, w, g, n, q) && 0 <= w < |f.workers| && q == g.workers[w]
    requires n == Subject(f, w, g)
    ensures |g.workers| == |f.workers| && LeavesOthers(f, w, g)
  {
  }

  lemma MoveEnds(f: Fleet, w: int, input: Input, autoMerge: bool, g: Fleet)
    requires Inv(f) && Next(f, w, input, autoMerge) == Moved(g)
    ensures 0 <= w < |f.workers| == |g.workers| && LeavesOthers(f, w, g)
    ensures Busy(f.workers[w]) ==> Treats(f, w, input, autoMerge, g)
    ensures Busy(f.workers[w]) ==> InFlight(f.store.issues[f.workers[w].issue].status)
  {
    hide StepKind, ProcessStretch, LoopStretch, RecheckStretch, DispatchedAll, Reduce, Ends, Carries, GoesOn,
      LeavesOthers;
    StepKeeps(f, w, input, autoMerge);
    MoveKeepsOthers(f, w, g, Subject(f, w, g), g.workers[w]);
    assert WorkerOk(f, w);
    if Busy(f.workers[w]) {
      assert IssueOk(f.workers[w].issue, f.store.issues[f.workers[w].issue]);
      ProcessEnds(f.store, f.workers[w], input, autoMerge);
      ProcessGoesOn(f.store, f.workers[w], input, autoMerge);
    }
  }

  // ---------------------------------------------------------------------------
  // Which answers change the status of an issue
  // ---------------------------------------------------------------------------

  /** Move `i` of the run takes issue `n` to the status. */
  predicate Becomes(trace: seq<Fleet>, i: nat, n: int, status: IssueStatus)
    requires i + 1 < |trace|
  {
    var s, t := trace[i].store.issues, trace[i + 1].store.issues;
    n in s && n in t && s[n].status != status && t[n].status == status
  }

  /** The moving worker is in work on `n`. */
  predicate MoverOn(trace: seq<Fleet>, moves: seq<Move>, i: nat, n: int)
    requires i < |moves| && i < |trace|
  {
    Works(trace[i], moves[i].worker, n)
  }

  lemma MoveOfRun(trace: seq<Fleet>, moves: seq<Move>, autoMerge: bool, i: nat)
    requires Run(trace, moves, autoMerge) && i < |moves|
    ensures var f, g, w := trace[i], trace[i + 1], moves[i].worker;
      && Inv(f) && 0 <= w < |f.workers| == |g.workers| && LeavesOthers(f, w, g)
      && Next(f, w, moves[i].input, autoMerge) == Moved(g)
      && (Busy(f.workers[w]) ==>
            && Treats(f, w, moves[i].input, autoMerge, g)
            && InFlight(f.store.issues[f.workers[w].issue].status))
  {
    hide Next, Inv, Treats, LeavesOthers;
    RunKeepsInv(trace, moves, autoMerge, i);
    assert Next(trace[i], moves[i].worker, moves[i].input, autoMerge) == Moved(trace[i + 1]);
    MoveEnds(trace[i], moves[i].worker, moves[i].input, autoMerge, trace[i + 1]);
  }

  /** An issue nobody works on can only be claimed. */
  lemma OnlyItsWorkerSettles(trace: seq<Fleet>, moves: seq<Move>, autoMerge: bool, i: nat, n: int)
    requires Run(trace, moves, autoMerge) && i < |moves| && n in trace[i].store.issues
    ensures n in trace[i + 1].store.issues
    ensures !MoverOn(trace, moves, i, n) ==>
      var a, b := trace[i].store.issues[n], trace[i + 1].store.issues[n];
      a == b || (a.status.Queued? && b == a.(status := Claimed, slot := b.slot))
  {
    hide Next, Inv, Treats;
    MoveOfRun(trace, moves, autoMerge, i);
  }

  /** An issue becomes Merged exactly when the worker merging it hears that the merge went through. */
  lemma MergedExactly(trace: seq<Fleet>, moves: seq<Move>, autoMerge: bool, i: nat, n: int)
    requires Run(trace, moves, autoMerge) && i < |moves|
    ensures Becomes(trace, i, n, Merged) <==>
      MoverOn(trace, moves, i, n) && trace[i].workers[moves[i].worker].Merging? && moves[i].input == MergeDone(true)
  {
    hide Next, Inv, LeavesOthers, Carries, GoesOn;
    MoveOfRun(trace, moves, autoMerge, i);
    if n in trace[i].store.issues { OnlyItsWorkerSettles(trace, moves, autoMerge, i, n); }
    KeysStay(trace, moves, autoMerge, i);
  }

  /** It becomes Commented exactly when its gate passes and merging is not permitted. */
  lemma CommentedExactly(trace: seq<Fleet>, moves: seq<Move>, autoMerge: bool, i: nat, n: int)
    requires Run(trace, moves, autoMerge) && i < |moves|
    ensures Becomes(trace, i, n, Commented) <==>
      && MoverOn(trace, moves, i, n) && trace[i].workers[moves[i].worker].Gating?
      && moves[i].input == Gated(true) && !autoMerge
  {
    hide Next, Inv, LeavesOthers, Carries, GoesOn;
    MoveOfRun(trace, moves, autoMerge, i);
    if n in trace[i].store.issues { OnlyItsWorkerSettles(trace, moves, autoMerge, i, n); }
    KeysStay(trace, moves, autoMerge, i);
  }

  /** It comes to wait for a human exactly when the third gate is red or a fix fails, or when a failure uses
      up its retries. */
  lemma HumanReviewExactly(trace: seq<Fleet>, moves: seq<Move>, autoMerge: bool, i: nat, n: int)
    requires Run(trace, moves, autoMerge) && i < |moves|
    ensures Becomes(trace, i, n, HumanReview) <==>
      && n in trace[i].store.issues && MoverOn(trace, moves, i, n)
      && var p, input := trace[i].workers[moves[i].worker], moves[i].input;
         || EscalatesOn(p, input)
         || (FailsOn(p, input) && trace[i].store.issues[n].retries + 1 >= trace[i].store.maxRetries)
  {
    hide Next, Inv, LeavesOthers, Carries, GoesOn, EscalatesOn, FailsOn;
    MoveOfRun(trace, moves, autoMerge, i);
    if n in trace[i].store.issues { OnlyItsWorkerSettles(trace, moves, autoMerge, i, n); }
    KeysStay(trace, moves, autoMerge, i);
  }

  /** It goes back to the queue exactly when an attempt fails and leaves it another. */
  lemma RequeuedExactly(trace: seq<Fleet>, moves: seq<Move>, autoMerge: bool, i: nat, n: int)
    requires Run(trace, moves, autoMerge) && i < |moves|
    ensures Becomes(trace, i, n, Queued) <==>
      && n in trace[i].store.issues && MoverOn(trace, moves, i, n)
      && FailsOn(trace[i].workers[moves[i].worker], moves[i].input)
      && trace[i].store.issues[n].retries + 1 < trace[i].store.maxRetries
  {
    hide Next, Inv, LeavesOthers, Carries, GoesOn, FailsOn;
    MoveOfRun(trace, moves, autoMerge, i);
    if n in trace[i].store.issues { OnlyItsWorkerSettles(trace, moves, autoMerge, i, n); }
    KeysStay(trace, moves, autoMerge, i);
  }

  /** A failure is recorded exactly on an exception, a failed implementation, one without a PR or a failed
      merge; it adds one to the retries and leaves its reason. */
  lemma FailureExactly(trace: seq<Fleet>, moves: seq<Move>, autoMerge: bool, i: nat, n: int)
    requires Run(trace, moves, autoMerge) && i < |moves| && n in trace[i].store.issues
    ensures n in trace[i + 1].store.issues
    ensures var a, b := trace[i].store.issues[n], trace[i + 1].store.issues[n];
      var failed := MoverOn(trace, moves, i, n) && FailsOn(trace[i].workers[moves[i].worker], moves[i].input);
      && b.retries == a.retries + (if failed then 1 else 0)
      && b.error == (if failed then Some(FailureText(trace[i].workers[moves[i].worker], moves[i].input)) else a.error)
  {
    hide Next, Inv, LeavesOthers, Ends, GoesOn, FailsOn;
    MoveOfRun(trace, moves, autoMerge, i);
    OnlyItsWorkerSettles(trace, moves, autoMerge, i, n);
  }

  lemma KeysStay(trace: seq<Fleet>, moves: seq<Move>, autoMerge: bool, i: nat)
    requires Run(trace, moves, autoMerge) && i < |moves|
    ensures trace[i + 1].store.issues.Keys == trace[i].store.issues.Keys
  {
    hide Next, Inv, Treats;
    MoveOfRun(trace, moves, autoMerge, i);
  }

  // ---------------------------------------------------------------------------
  // What an idle worker does
  // ---------------------------------------------------------------------------

  /** The least issue that is queued and not blocked by what was read. */
  predicate NextUp(s: AfkState, open: set<int>, n: int) {
    && n in s.issues && s.issues[n].status.Queued? && Elements(s.issues[n].blockedBy) * open == {}
    && forall m | m in s.issues && s.issues[m].status.Queued? && Elements(s.issues[m].blockedBy) * open == {} :: n <= m
  }

  ghost predicate AnyBusy(s: AfkState) {
    exists k :: SlotOf(s.slots, k).Some?
  }

  /** In the loop: a worker claims the next issue up; with none it returns if nothing is queued and nobody works,
      reads the blockers again if something is queued and nobody works, and sleeps while somebody works. */
  lemma LoopExactly(f: Fleet, w: int, open: set<int>, autoMerge: bool, g: Fleet)
    requires Inv(f) && 0 <= w < |f.workers| && f.workers[w].Looping?
    requires Next(f, w, Blockers(open), autoMerge) == Moved(g)
    ensures forall n :: g.workers[w] == Starting(n) <==> NextUp(f.store, open, n)
    ensures (forall n :: !NextUp(f.store, open, n)) ==>
      && g.store == f.store
      && (g.workers[w] == Returned <==> !AnyQueued(f.store) && !AnyBusy(f.store))
      && (g.workers[w] == Rechecking <==> AnyQueued(f.store) && !AnyBusy(f.store))
      && (g.workers[w] == Looping <==> AnyBusy(f.store))
  {
    SlotFreeForIdleWorker(f, w);
    ClaimIsNextUp(f.store, open);
    BusyMeansAny(f.store);
  }

  /** After the forced read: it claims the next issue up, or returns. */
  lemma RecheckExactly(f: Fleet, w: int, open: set<int>, autoMerge: bool, g: Fleet)
    requires Inv(f) && 0 <= w < |f.workers| && f.workers[w].Rechecking?
    requires Next(f, w, Blockers(open), autoMerge) == Moved(g)
    ensures forall n :: g.workers[w] == Starting(n) <==> NextUp(f.store, open, n)
    ensures (forall n :: !NextUp(f.store, open, n)) ==> g.store == f.store && g.workers[w] == Returned
  {
    SlotFreeForIdleWorker(f, w);
    ClaimIsNextUp(f.store, open);
  }

  lemma BusyMeansAny(s: AfkState)
    ensures ActiveCount(s) == 0 <==> !AnyBusy(s)
  {
    forall k ensures SlotOf(s.slots, k).Some? ==> BusySlots(s) != {} {
      assert SlotOf(s.slots, k).Some? ==> k in BusySlots(s);
    }
    if BusySlots(s) != {} { assert SlotOf(s.slots, Pick(BusySlots(s))).Some?; }
  }

  lemma ClaimIsNextUp(s: AfkState, open: set<int>)
    requires FreeSlotIndex(s).Some?
    ensures ClaimNext(s, open).Some? ==> NextUp(s, open, ClaimNext(s, open).value.number)
    ensures ClaimNext(s, open).None? ==> forall n :: !NextUp(s, open, n)
    ensures forall m, n | NextUp(s, open, m) && NextUp(s, open, n) :: m == n
  {
    hide Withheld;
    forall n | n in s.issues
      ensures Claimable(s.issues[n], open) <==>
        s.issues[n].status.Queued? && Elements(s.issues[n].blockedBy) * open == {}
    {
      WithheldMeans(s.issues[n], open);
    }
  }

  lemma WithheldMeans(issue: IssueState, open: set<int>)
    ensures Withheld(issue, open) <==> Elements(issue.blockedBy) * open != {}
  {
  }

  // ---------------------------------------------------------------------------
  // The story of a claim
  // ---------------------------------------------------------------------------

  /** What worker `w` was answered in the moves from `from` up to `to`. */
  function Answered(moves: seq<Move>, w: int, from: nat, to: nat): seq<Input>
    requires to <= |moves|
  {
    if to <= from then [] else
      Answered(moves, w, from, to - 1) + (if moves[to - 1].worker == w then [moves[to - 1].input] else [])
  }

  /** The worker claimed `n` with the move that led to state `c`, and has worked on it up to state `i`. */
  predicate InClaim(trace: seq<Fleet>, moves: seq<Move>, w: int, n: int, c: nat, i: nat)
    requires |trace| == |moves| + 1 && i < |trace|
  {
    && 0 < c <= i && moves[c - 1].worker == w
    && 0 <= w < |trace[c - 1].workers| && !Busy(trace[c - 1].workers[w])
    && Works(trace[c], w, n) && trace[c].workers[w] == Starting(n)
    && forall k | c <= k <= i :: Works(trace[k], w, n)
  }

  /** The state that the last claim of worker `w` before state `i` led to. */
  function ClaimedAt(trace: seq<Fleet>, moves: seq<Move>, w: int, i: nat): (c: nat)
    requires |trace| == |moves| + 1 && i < |trace|
    ensures c <= i
  {
    if i == 0 then 0
    else if moves[i - 1].worker == w && 0 <= w < |trace[i - 1].workers| && !Busy(trace[i - 1].workers[w]) then i
    else ClaimedAt(trace, moves, w, i - 1)
  }

  /** A PR is there: known or detected when the claim starts, or opened by the implementation. */
  predicate Opened(known: Option<int>, answers: seq<Input>) {
    && answers != [] && answers[0].Detected?
    && (Truthy(known) || Truthy(answers[0].pr) ||
        (|answers| >= 2 && answers[1].Implemented? && answers[1].ok && Truthy(answers[1].pr)))
  }

  function PrOf(known: Option<int>, answers: seq<Input>): Option<int>
    requires Opened(known, answers)
  {
    if Truthy(known) then known else if Truthy(answers[0].pr) then answers[0].pr else answers[1].pr
  }

  /** The answers since the PR was there. */
  function SinceOpened(known: Option<int>, answers: seq<Input>): seq<Input>
    requires Opened(known, answers)
  {
    if Truthy(known) || Truthy(answers[0].pr) then answers[1..] else answers[2..]
  }

  /** The gate was red and then fixed, so often. */
  function RedAndFixed(rounds: nat): seq<Input> {
    if rounds == 0 then [] else RedAndFixed(rounds - 1) + [Gated(false), FixDone(true)]
  }

  /** Where the answers so far have brought the worker, and the PR on record. */
  predicate Stands(p: Phase, autoMerge: bool, known: Option<int>, answers: seq<Input>, pr: Option<int>) {
    match p
    case Starting(_) => answers == [] && pr == known
    case Implementing(_) =>
      |answers| == 1 && answers[0].Detected? && !Truthy(known) && !Truthy(answers[0].pr) && pr == known
    case Gating(_, a) =>
      0 <= a <= 2 && Opened(known, answers) && pr == PrOf(known, answers)
        && SinceOpened(known, answers) == RedAndFixed(a)
    case Fixing(_, a) =>
      1 <= a <= 2 && Opened(known, answers) && pr == PrOf(known, answers)
        && SinceOpened(known, answers) == RedAndFixed(a - 1) + [Gated(false)]
    case Merging(_) =>
      autoMerge && Opened(known, answers) && pr == PrOf(known, answers)
        && exists a: nat | a <= 2 :: SinceOpened(known, answers) == RedAndFixed(a) + [Gated(true)]
    case _ => false
  }

  lemma OpenedMore(known: Option<int>, answers: seq<Input>, more: Input)
    requires Opened(known, answers)
    ensures Opened(known, answers + [more]) && PrOf(known, answers + [more]) == PrOf(known, answers)
    ensures SinceOpened(known, answers + [more]) == SinceOpened(known, answers) + [more]
  {
  }

  /** One more answer. */
  lemma StandsOn(a: IssueState, b: IssueState, p: Phase, q: Phase, input: Input, autoMerge: bool,
                 known: Option<int>, answers: seq<Input>)
    requires Busy(p) && Busy(q) && Stands(p, autoMerge, known, answers, a.pr)
    requires GoesOn(a, p, q, input, autoMerge) && Carries(a, b, p, input)
    ensures Stands(q, autoMerge, known, answers + [input], b.pr)
  {
    if p.Gating? || p.Fixing? || p.Merging? { OpenedMore(known, answers, input); }
    if p.Fixing? {
      ConcatTwo(RedAndFixed(p.attempts - 1), Gated(false), input);
    }
    if q.Gating? && !p.Fixing? {
      assert RedAndFixed(0) == [];
      assert Opened(known, answers + [input]);
    }
  }

  lemma ConcatTwo(xs: seq<Input>, x: Input, y: Input)
    ensures xs + [x] + [y] == xs + [x, y]
  {
  }

  lemma SameWhenOthersMove(trace: seq<Fleet>, moves: seq<Move>, autoMerge: bool, i: nat, w: int, n: int)
    requires Run(trace, moves, autoMerge) && i < |moves| && moves[i].worker != w && Works(trace[i], w, n)
    ensures Works(trace[i + 1], w, n) && trace[i + 1].workers[w] == trace[i].workers[w]
    ensures n in trace[i].store.issues && n in trace[i + 1].store.issues
    ensures trace[i + 1].store.issues[n] == trace[i].store.issues[n]
  {
    hide Next, Treats, Consistent, PhaseOk;
    MoveOfRun(trace, moves, autoMerge, i);
    assert WorkerOk(trace[i], w);
    assert !Works(trace[i], moves[i].worker, n);
    HolderInFlight(trace[i], n);
  }

  lemma HolderInFlight(f: Fleet, n: int)
    requires Inv(f) && HoldsSlot(f.store, n)
    ensures InFlight(f.store.issues[n].status)
  {
    assert IssueOk(n, f.store.issues[n]);
  }

  /** At any time of a run, a worker in work on an issue claimed it once, has worked on nothing else since,
      and stands where the answers since then have brought it, with the PR they named on record. */
  lemma {:induction false} ClaimStory(trace: seq<Fleet>, moves: seq<Move>, autoMerge: bool, w: int, n: int, i: nat)
    requires Run(trace, moves, autoMerge) && i < |trace| && Works(trace[i], w, n)
    ensures var c := ClaimedAt(trace, moves, w, i);
      && InClaim(trace, moves, w, n, c, i)
      && n in trace[c].store.issues && n in trace[i].store.issues
      && Stands(trace[i].workers[w], autoMerge, trace[c].store.issues[n].pr, Answered(moves, w, c, i),
                trace[i].store.issues[n].pr)
  {
    hide Next, Inv, Stands, Treats, LeavesOthers, Start;
    if i == 0 {
      NobodyWorksAtStart(trace[0], w);
      return;
    }
    var c := ClaimedAt(trace, moves, w, i - 1);
    if moves[i - 1].worker != w {
      PreviousWorks(trace, moves, autoMerge, w, n, i);
      ClaimStory(trace, moves, autoMerge, w, n, i - 1);
      SameWhenOthersMove(trace, moves, autoMerge, i - 1, w, n);
      assert Answered(moves, w, c, i) == Answered(moves, w, c, i - 1);
    } else {
      MoveOfRun(trace, moves, autoMerge, i - 1);
      if Busy(trace[i - 1].workers[w]) {
        OwnMove(trace[i - 1], w, moves[i - 1].input, autoMerge, trace[i]);
        ClaimStory(trace, moves, autoMerge, w, n, i - 1);
        StandsOn(trace[i - 1].store.issues[n], trace[i].store.issues[n], trace[i - 1].workers[w], trace[i].workers[w],
                 moves[i - 1].input, autoMerge, trace[c].store.issues[n].pr, Answered(moves, w, c, i - 1));
        assert Answered(moves, w, c, i) == Answered(moves, w, c, i - 1) + [moves[i - 1].input];
      } else {
        assert Answered(moves, w, i, i) == [];
        ClaimStarts(trace[i - 1], w, trace[i], n);
        RunKeepsInv(trace, moves, autoMerge, i);
        HoldersKnown(trace[i], w, n);
        StandsAtStart(trace[i].workers[w], autoMerge, trace[i].store.issues[n].pr);
      }
    }
  }

  lemma StandsAtStart(p: Phase, autoMerge: bool, known: Option<int>)
    requires p.Starting?
    ensures Stands(p, autoMerge, known, [], known)
  {
  }

  lemma HoldersKnown(f: Fleet, w: int, n: int)
    requires Inv(f) && Works(f, w, n)
    ensures n in f.store.issues
  {
    assert WorkerOk(f, w);
  }

  lemma NobodyWorksAtStart(f: Fleet, w: int)
    requires Start(f)
    ensures forall n :: !Works(f, w, n)
  {
  }

  lemma PreviousWorks(trace: seq<Fleet>, moves: seq<Move>, autoMerge: bool, w: int, n: int, i: nat)
    requires Run(trace, moves, autoMerge) && 0 < i < |trace| && moves[i - 1].worker != w && Works(trace[i], w, n)
    ensures Works(trace[i - 1], w, n)
  {
    hide Next, Inv, Treats;
    MoveOfRun(trace, moves, autoMerge, i - 1);
  }

  lemma OwnMove(f: Fleet, w: int, input: Input, autoMerge: bool, g: Fleet)
    requires 0 <= w < |f.workers| == |g.workers| && Busy(f.workers[w]) && Treats(f, w, input, autoMerge, g)
    ensures var n := f.workers[w].issue;
      && n in f.store.issues && n in g.store.issues
      && GoesOn(f.store.issues[n], f.workers[w], g.workers[w], input, autoMerge)
      && Carries(f.store.issues[n], g.store.issues[n], f.workers[w], input)
      && (Busy(g.workers[w]) ==> g.workers[w].issue == n)
  {
  }

  lemma ClaimStarts(f: Fleet, w: int, g: Fleet, n: int)
    requires 0 <= w < |f.workers| == |g.workers| && LeavesOthers(f, w, g) && !Busy(f.workers[w]) && Works(g, w, n)
    ensures g.workers[w] == Starting(n)
  {
  }

  /** A worker at the gate, merging or fixing has the PR of its claim on record. */
  lemma PrOnRecord(trace: seq<Fleet>, moves: seq<Move>, autoMerge: bool, w: int, n: int, i: nat)
    requires Run(trace, moves, autoMerge) && i < |trace| && Works(trace[i], w, n)
    requires trace[i].workers[w].Gating? || trace[i].workers[w].Merging? || trace[i].workers[w].Fixing?
    ensures var c := ClaimedAt(trace, moves, w, i);
      && InClaim(trace, moves, w, n, c, i) && n in trace[c].store.issues && n in trace[i].store.issues
      && var known, answers := trace[c].store.issues[n].pr, Answered(moves, w, c, i);
      && Opened(known, answers) && PrOf(known, answers).Some? && PrOf(known, answers) != Some(0)
      && trace[i].store.issues[n].pr == PrOf(known, answers)
  {
    ClaimStory(trace, moves, autoMerge, w, n, i);
  }

  // ---------------------------------------------------------------------------
  // What the whole story of a claim comes to
  // ---------------------------------------------------------------------------

  /** A PR was there, at most two red gates were fixed, a gate passed, and the merge went through. */
  predicate MergeStory(known: Option<int>, answers: seq<Input>) {
    Opened(known, answers) &&
    exists a: nat | a <= 2 :: SinceOpened(known, answers) == RedAndFixed(a) + [Gated(true), MergeDone(true)]
  }

  predicate CommentStory(known: Option<int>, answers: seq<Input>) {
    Opened(known, answers) &&
    exists a: nat | a <= 2 :: SinceOpened(known, answers) == RedAndFixed(a) + [Gated(true)]
  }

  /** Three red gates with two fixes between them, or a red gate and a fix that failed. */
  predicate EscalationStory(known: Option<int>, answers: seq<Input>) {
    Opened(known, answers) &&
    (|| SinceOpened(known, answers) == RedAndFixed(2) + [Gated(false)]
     || exists a: nat | a < 2 :: SinceOpened(known, answers) == RedAndFixed(a) + [Gated(false), FixDone(false)])
  }

  lemma {:induction false} RoundsLength(a: nat)
    ensures |RedAndFixed(a)| == 2 * a
  {
    if a > 0 { RoundsLength(a - 1); }
  }

  lemma LastOfStory(known: Option<int>, answers: seq<Input>, last: Input, story: seq<Input>)
    requires Opened(known, answers)
    requires |story| >= 1 && SinceOpened(known, answers + [last]) == story
    ensures last == story[|story| - 1] && SinceOpened(known, answers) == story[..|story| - 1]
  {
    OpenedMore(known, answers, last);
  }

  /** The answer the claim ended with was a failure. */
  predicate FailureStory(answers: seq<Input>) {
    answers != [] &&
    var last := answers[|answers| - 1];
    || last.Raised? || last == MergeDone(false)
    || (last.Implemented? && (!last.ok || !Truthy(last.pr)))
  }

  /** The phase an answer is for, read off a story it ends. */
  lemma MergeStoryEnds(p: Phase, autoMerge: bool, known: Option<int>, answers: seq<Input>, pr: Option<int>, last: Input)
    requires Busy(p) && Stands(p, autoMerge, known, answers, pr) && Suits(p, last)
    ensures MergeStory(known, answers + [last]) <==> p.Merging? && last == MergeDone(true)
  {
    if MergeStory(known, answers + [last]) {
      var a: nat :| a <= 2 &&
        SinceOpened(known, answers + [last]) == RedAndFixed(a) + [Gated(true), MergeDone(true)];
      assert (answers + [last])[|answers|] == last;
      assert p.Merging? by {
        StoryLast(known, answers + [last], RedAndFixed(a) + [Gated(true), MergeDone(true)]);
      }
    } else if p.Merging? && last == MergeDone(true) {
      OpenedMore(known, answers, last);
      var a: nat :| a <= 2 && SinceOpened(known, answers) == RedAndFixed(a) + [Gated(true)];
      ConcatTwo(RedAndFixed(a), Gated(true), last);
    }
  }

  /** An input a worker in that phase can take. */
  predicate Suits(p: Phase, input: Input) {
    match p
    case Starting(_) => input.Detected? || input.Raised?
    case Implementing(_) => input.Implemented? || input.Raised?
    case Gating(_, _) => input.Gated? || input.Raised?
    case Merging(_) => input.MergeDone? || input.Raised?
    case Fixing(_, _) => input.FixDone? || input.Raised?
    case _ => false
  }

  lemma StoryLast(known: Option<int>, answers: seq<Input>, story: seq<Input>)
    requires Opened(known, answers) && story != [] && SinceOpened(known, answers) == story
    ensures answers[|answers| - 1] == story[|story| - 1]
  {
  }

  lemma CommentStoryEnds(p: Phase, autoMerge: bool, known: Option<int>, answers: seq<Input>, pr: Option<int>, last: Input)
    requires Busy(p) && Stands(p, autoMerge, known, answers, pr) && Suits(p, last)
    ensures CommentStory(known, answers + [last]) <==> p.Gating? && last == Gated(true)
  {
    if CommentStory(known, answers + [last]) {
      var a: nat :| a <= 2 && SinceOpened(known, answers + [last]) == RedAndFixed(a) + [Gated(true)];
      StoryLast(known, answers + [last], RedAndFixed(a) + [Gated(true)]);
    } else if p.Gating? && last == Gated(true) {
      OpenedMore(known, answers, last);
    }
  }

  lemma EscalationStoryEnds(p: Phase, autoMerge: bool, known: Option<int>, answers: seq<Input>, pr: Option<int>,
                            last: Input)
    requires Busy(p) && Stands(p, autoMerge, known, answers, pr) && Suits(p, last)
    ensures EscalationStory(known, answers + [last]) <==> EscalatesOn(p, last)
  {
    if EscalationStory(known, answers + [last]) {
      if SinceOpened(known, answers + [last]) == RedAndFixed(2) + [Gated(false)] {
        StoryLast(known, answers + [last], RedAndFixed(2) + [Gated(false)]);
        OpenedMore(known, answers, last);
        RoundsLength(2);
        RoundsLength(p.attempts);
      } else {
        var a: nat :| a < 2 && SinceOpened(known, answers + [last]) == RedAndFixed(a) + [Gated(false), FixDone(false)];
        StoryLast(known, answers + [last], RedAndFixed(a) + [Gated(false), FixDone(false)]);
      }
    } else if EscalatesOn(p, last) {
      OpenedMore(known, answers, last);
      if p.Fixing? { ConcatTwo(RedAndFixed(p.attempts - 1), Gated(false), last); }
    }
  }

  lemma MoverSuits(f: Fleet, w: int, input: Input, autoMerge: bool)
    requires 0 <= w < |f.workers| && Busy(f.workers[w]) && Next(f, w, input, autoMerge) != NotEnabled
    ensures Suits(f.workers[w], input)
  {
  }

  /** So the answers of a claim decide what becomes of the issue: merged, left as a comment, handed to a human,
      or failed, each exactly after the answers that should lead there. */
  lemma StoryDecides(trace: seq<Fleet>, moves: seq<Move>, autoMerge: bool, i: nat, n: int)
    requires Run(trace, moves, autoMerge) && i < |moves| && MoverOn(trace, moves, i, n)
    ensures var w := moves[i].worker; var c := ClaimedAt(trace, moves, w, i);
      && InClaim(trace, moves, w, n, c, i) && n in trace[c].store.issues
      && n in trace[i].store.issues && n in trace[i + 1].store.issues
      && DecidedBy(trace[i].store.issues[n], trace[i + 1].store.issues[n], autoMerge,
                   trace[c].store.issues[n].pr, Answered(moves, w, c, i + 1))
  {
    hide Next, Inv, LeavesOthers, Stands, MergeStory, CommentStory, EscalationStory, GoesOn, Answered, InClaim,
      EscalatesOn;
    var w := moves[i].worker;
    MoveOfRun(trace, moves, autoMerge, i);
    MoverSuits(trace[i], w, moves[i].input, autoMerge);
    ClaimStory(trace, moves, autoMerge, w, n, i);
    var c := ClaimedAt(trace, moves, w, i);
    var known, answers, p := trace[c].store.issues[n].pr, Answered(moves, w, c, i), trace[i].workers[w];
    AnsweredMore(trace, moves, w, n, c, i);
    MergeStoryEnds(p, autoMerge, known, answers, trace[i].store.issues[n].pr, moves[i].input);
    CommentStoryEnds(p, autoMerge, known, answers, trace[i].store.issues[n].pr, moves[i].input);
    EscalationStoryEnds(p, autoMerge, known, answers, trace[i].store.issues[n].pr, moves[i].input);
    EscalationIsNoFailure(p, moves[i].input);
  }

  /** The record before and after the last answer, and what all of the answers should make of it. */
  predicate DecidedBy(a: IssueState, b: IssueState, autoMerge: bool, known: Option<int>, answers: seq<Input>) {
    && (b.status.Merged? <==> MergeStory(known, answers))
    && (b.status.Commented? <==> !autoMerge && CommentStory(known, answers))
    && (b.status.HumanReview? && b.retries == a.retries <==> EscalationStory(known, answers))
    && (b.retries == a.retries + 1 <==> FailureStory(answers))
  }

  lemma EscalationIsNoFailure(p: Phase, input: Input)
    ensures !(EscalatesOn(p, input) && FailsOn(p, input))
  {
  }

  lemma AnsweredMore(trace: seq<Fleet>, moves: seq<Move>, w: int, n: int, c: nat, i: nat)
    requires |trace| == |moves| + 1 && i < |moves| && InClaim(trace, moves, w, n, c, i) && moves[i].worker == w
    ensures Answered(moves, w, c, i + 1) == Answered(moves, w, c, i) + [moves[i].input]
  {
  }
}
