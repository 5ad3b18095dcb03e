/** Every run of the AFK workers does a bounded amount of work, and never gets stuck before the
    work is done. */
module RunnerBounds {
  import opened Collections
  import opened FleetState
  import opened Runner
  import opened RunnerTheorems

  // ---------------------------------------------------------------------------
  // The measure
  // ---------------------------------------------------------------------------

  /** Claims an issue can still see: one per attempt before its retries run out. */
  function ClaimsLeft(s: AfkState, n: int): int {
    if n !in s.issues then 0 else
    var attempts := Max(1, s.maxRetries - s.issues[n].retries);
    if s.issues[n].status.Queued? then attempts
    else if HoldsSlot(s, n) then attempts - 1
    else 0
  }

  function ClaimMap(s: AfkState): map<int, int> {
    map n | n in s.issues :: ClaimsLeft(s, n)
  }

  function PhaseSum(workers: seq<Phase>, weight: Phase -> int): int {
    if workers == [] then 0 else weight(workers[0]) + PhaseSum(workers[1..], weight)
  }

  function GateWeight(n: int): Phase -> int { p => GatesLeft(p, n) }

  function FixWeight(n: int): Phase -> int { p => FixesLeft(p, n) }

  /** A claim is worth ten stretches: at most nine to carry it out, plus the claim itself. */
  ghost function Work(f: Fleet): int {
    10 * Sum(ClaimMap(f.store)) + PhaseSum(f.workers, Rank)
  }

  lemma {:induction false} PhaseSumUpdate(workers: seq<Phase>, w: int, p: Phase, weight: Phase -> int)
    requires 0 <= w < |workers|
    ensures PhaseSum(workers[w := p], weight)
         == PhaseSum(workers, weight) - weight(workers[w]) + weight(p)
  {
    if w == 0 {
      assert workers[w := p][1..] == workers[1..];
    } else {
      PhaseSumUpdate(workers[1..], w - 1, p, weight);
      assert workers[w := p][1..] == workers[1..][w - 1 := p];
    }
  }

  lemma {:induction false} PhaseSumBounds(workers: seq<Phase>, weight: Phase -> int, c: int)
    requires forall w | 0 <= w < |workers| :: weight(workers[w]) >= c
    ensures PhaseSum(workers, weight) >= c * |workers|
    ensures (forall w | 0 <= w < |workers| :: weight(workers[w]) == c) ==>
      PhaseSum(workers, weight) == c * |workers|
  {
    if workers != [] { PhaseSumBounds(workers[1..], weight, c); }
  }

  /** A step moves the claims left of its own issue only, and never up. */
  lemma StepClaims(f: Fleet, w: int, g: Fleet, n: int, q: Phase)
    requires Inv(f) && StepKind(f, w, g, n, q)
    ensures g.store.issues.Keys == f.store.issues.Keys
    ensures forall m | m != n :: ClaimsLeft(g.store, m) == ClaimsLeft(f.store, m)
    ensures Claims(f, w, g, n) ==> ClaimsLeft(g.store, n) == ClaimsLeft(f.store, n) - 1
    ensures !Claims(f, w, g, n) ==> ClaimsLeft(g.store, n) <= ClaimsLeft(f.store, n)
  {
    assert WorkerOk(f, w);
  }

  lemma StepRank(f: Fleet, w: int, g: Fleet, n: int, q: Phase)
    requires Inv(f) && StepKind(f, w, g, n, q) && q == g.workers[w] && g != f
    ensures 0 <= w < |f.workers| && g.workers == f.workers[w := q]
    ensures Claims(f, w, g, n) ==> Rank(q) < Rank(f.workers[w]) + 10 && n in f.store.issues
    ensures !Claims(f, w, g, n) ==> Rank(q) < Rank(f.workers[w])
  {
    assert WorkerOk(f, w);
  }

  lemma StepWork(f: Fleet, w: int, g: Fleet, n: int, q: Phase)
    requires Inv(f) && StepKind(f, w, g, n, q) && q == g.workers[w]
    ensures g != f ==> Work(g) < Work(f)
  {
    hide StepKind, Inv, Claims, ClaimsLeft, Rank;
    StepClaims(f, w, g, n, q);
    if g == f { return; }
    StepRank(f, w, g, n, q);
    PhaseSumUpdate(f.workers, w, q, Rank);
    if n in f.store.issues {
      SumUpdate(ClaimMap(f.store), n, ClaimsLeft(g.store, n));
      assert ClaimMap(g.store) == ClaimMap(f.store)[n := ClaimsLeft(g.store, n)];
    } else {
      assert ClaimMap(g.store) == ClaimMap(f.store);
    }
  }

  lemma WorkNonNegative(f: Fleet)
    requires Inv(f)
    ensures Work(f) >= 0
  {
    SumNonNegative(ClaimMap(f.store));
    forall w | 0 <= w < |f.workers| ensures Rank(f.workers[w]) >= 0 {
      assert WorkerOk(f, w);
    }
    PhaseSumBounds(f.workers, Rank, 0);
  }

  // ---------------------------------------------------------------------------
  // Whole runs terminate
  // ---------------------------------------------------------------------------

  /** Moves that change anything: all of them except sleeping. */
  function Strides(trace: seq<Fleet>, i: nat): nat
    requires i < |trace|
  {
    if i == 0 then 0 else Strides(trace, i - 1) + (if trace[i] != trace[i - 1] then 1 else 0)
  }

  lemma {:induction false} StridesSpendWork(trace: seq<Fleet>, moves: seq<Move>, autoMerge: bool, i: nat)
    requires Run(trace, moves, autoMerge) && i < |trace|
    ensures Strides(trace, i) + Work(trace[i]) <= Work(trace[0])
  {
    if i > 0 {
      StridesSpendWork(trace, moves, autoMerge, i - 1);
      var f, move := trace[i - 1], moves[i - 1];
      assert Next(f, move.worker, move.input, autoMerge) == Moved(trace[i - 1 + 1]);
      RunKeepsInv(trace, moves, autoMerge, i - 1);
      StepKeeps(f, move.worker, move.input, autoMerge);
      StepWork(f, move.worker, trace[i], Subject(f, move.worker, trace[i]), trace[i].workers[move.worker]);
    }
  }

  /** Ten moves per attempt each queued issue has left, and two per worker. */
  ghost function MoveBound(s: AfkState): int {
    2 * s.concurrency +
    10 * Sum(map n | n in s.issues ::
               if s.issues[n].status.Queued? then Max(1, s.maxRetries - s.issues[n].retries) else 0)
  }

  /** The number of moves that are not sleep is bounded before the run starts. */
  lemma RunsAreBounded(trace: seq<Fleet>, moves: seq<Move>, autoMerge: bool)
    requires Run(trace, moves, autoMerge)
    ensures Strides(trace, |moves|) <= MoveBound(trace[0].store)
  {
    var s := trace[0].store;
    StridesSpendWork(trace, moves, autoMerge, |moves|);
    RunKeepsInv(trace, moves, autoMerge, |moves|);
    WorkNonNegative(trace[|moves|]);
    PhaseSumBounds(trace[0].workers, Rank, 2);
    NobodyHoldsAtStart(trace[0]);
    assert ClaimMap(s) == map n | n in s.issues ::
      if s.issues[n].status.Queued? then Max(1, s.maxRetries - s.issues[n].retries) else 0;
  }

  lemma NobodyHoldsAtStart(f: Fleet)
    requires Start(f)
    ensures forall n :: !HoldsSlot(f.store, n)
  {
    forall n | n in f.store.issues && f.store.issues[n].slot.Some? ensures !HoldsSlot(f.store, n) {
      assert f.store.issues[n].slot.value !in BusySlots(f.store);
    }
  }

  // ---------------------------------------------------------------------------
  // Per issue: claims, gate evaluations, fixes
  // ---------------------------------------------------------------------------

  predicate ClaimMove(f: Fleet, w: int, g: Fleet, n: int) {
    0 <= w < |f.workers| && w < |g.workers| && !Busy(f.workers[w]) && g.workers[w] == Starting(n)
  }

  predicate GateMove(f: Fleet, w: int, n: int) {
    Works(f, w, n) && f.workers[w].Gating?
  }

  predicate FixMove(f: Fleet, w: int, n: int) {
    Works(f, w, n) && f.workers[w].Fixing?
  }

  datatype Tally = Tally(claims: nat, gates: nat, fixes: nat)

  /** What happened to issue `n` during the first `i` moves. */
  function TallyOf(trace: seq<Fleet>, moves: seq<Move>, n: int, i: nat): Tally
    requires i <= |moves| < |trace|
  {
    if i == 0 then Tally(0, 0, 0) else
      var t := TallyOf(trace, moves, n, i - 1);
      var f, w := trace[i - 1], moves[i - 1].worker;
      Tally(t.claims + (if ClaimMove(f, w, trace[i], n) then 1 else 0),
            t.gates + (if GateMove(f, w, n) then 1 else 0),
            t.fixes + (if FixMove(f, w, n) then 1 else 0))
  }

  /** The gates and fixes the moving worker may still make go down with those it makes, and up only with
      a claim. */
  lemma StepDues(f: Fleet, w: int, g: Fleet, k: int, q: Phase, n: int)
    requires Inv(f) && StepKind(f, w, g, k, q) && q == g.workers[w]
    ensures 0 <= w < |f.workers| && g.workers == f.workers[w := q]
    ensures ClaimMove(f, w, g, n) ==> Claims(f, w, g, k) && k == n
    ensures Claims(f, w, g, k) ==> !GateMove(f, w, n) && !FixMove(f, w, n)
    ensures var due := if Claims(f, w, g, k) && k == n then MAX_FIX + 1 else 0;
      GatesLeft(q, n) + (if GateMove(f, w, n) then 1 else 0) <= GatesLeft(f.workers[w], n) + due
    ensures var due := if Claims(f, w, g, k) && k == n then MAX_FIX else 0;
      FixesLeft(q, n) + (if FixMove(f, w, n) then 1 else 0) <= FixesLeft(f.workers[w], n) + due
  {
    assert WorkerOk(f, w);
  }

  lemma StepTally(f: Fleet, w: int, g: Fleet, k: int, q: Phase, n: int)
    requires Inv(f) && StepKind(f, w, g, k, q) && q == g.workers[w]
    ensures ClaimsLeft(g.store, n) + (if ClaimMove(f, w, g, n) then 1 else 0) <= ClaimsLeft(f.store, n)
    ensures (MAX_FIX + 1) * ClaimsLeft(g.store, n) + PhaseSum(g.workers, GateWeight(n))
              + (if GateMove(f, w, n) then 1 else 0)
         <= (MAX_FIX + 1) * ClaimsLeft(f.store, n) + PhaseSum(f.workers, GateWeight(n))
    ensures MAX_FIX * ClaimsLeft(g.store, n) + PhaseSum(g.workers, FixWeight(n))
              + (if FixMove(f, w, n) then 1 else 0)
         <= MAX_FIX * ClaimsLeft(f.store, n) + PhaseSum(f.workers, FixWeight(n))
  {
    hide StepKind, Inv, ClaimsLeft, GatesLeft, FixesLeft;
    StepClaims(f, w, g, k, q);
    StepDues(f, w, g, k, q, n);
    PhaseSumUpdate(f.workers, w, q, GateWeight(n));
    PhaseSumUpdate(f.workers, w, q, FixWeight(n));
  }

  lemma {:induction false} TallySpends(
      trace: seq<Fleet>, moves: seq<Move>, autoMerge: bool, n: int, i: nat)
    requires Run(trace, moves, autoMerge) && i <= |moves|
    ensures var t := TallyOf(trace, moves, n, i); var f := trace[i]; var c := ClaimsLeft(trace[0].store, n);
      && t.claims + ClaimsLeft(f.store, n) <= c
      && t.gates + (MAX_FIX + 1) * ClaimsLeft(f.store, n) + PhaseSum(f.workers, GateWeight(n))
         <= (MAX_FIX + 1) * c
      && t.fixes + MAX_FIX * ClaimsLeft(f.store, n) + PhaseSum(f.workers, FixWeight(n)) <= MAX_FIX * c
  {
    hide StepKind, Next, Consistent, WorkerOk, Works, ClaimsLeft;
    if i == 0 {
      PhaseSumBounds(trace[0].workers, GateWeight(n), 0);
      PhaseSumBounds(trace[0].workers, FixWeight(n), 0);
    } else {
      TallySpends(trace, moves, autoMerge, n, i - 1);
      var f, move := trace[i - 1], moves[i - 1];
      assert Next(f, move.worker, move.input, autoMerge) == Moved(trace[i - 1 + 1]);
      RunKeepsInv(trace, moves, autoMerge, i - 1);
      StepKeeps(f, move.worker, move.input, autoMerge);
      StepTally(f, move.worker, trace[i], Subject(f, move.worker, trace[i]),
                trace[i].workers[move.worker], n);
    }
  }

  /** Within one session an issue is claimed at most once per attempt it has left, and each claim
      costs at most three gate evaluations and two fixes. */
  lemma AttemptsAreBounded(trace: seq<Fleet>, moves: seq<Move>, autoMerge: bool, n: int)
    requires Run(trace, moves, autoMerge)
    ensures var s := trace[0].store; var t := TallyOf(trace, moves, n, |moves|);
      var attempts := if n in s.issues && s.issues[n].status.Queued?
                      then Max(1, s.maxRetries - s.issues[n].retries) else 0;
      t.claims <= attempts && t.gates <= 3 * attempts && t.fixes <= 2 * attempts
  {
    TallySpends(trace, moves, autoMerge, n, |moves|);
    NobodyHoldsAtStart(trace[0]);
    RunKeepsInv(trace, moves, autoMerge, |moves|);
    NothingOwed(trace[|moves|], n);
  }

  lemma NothingOwed(f: Fleet, n: int)
    requires Inv(f)
    ensures ClaimsLeft(f.store, n) >= 0
    ensures PhaseSum(f.workers, GateWeight(n)) >= 0
    ensures PhaseSum(f.workers, FixWeight(n)) >= 0
  {
    forall w | 0 <= w < |f.workers|
      ensures GateWeight(n)(f.workers[w]) >= 0 && FixWeight(n)(f.workers[w]) >= 0
    {
      assert WorkerOk(f, w);
    }
    PhaseSumBounds(f.workers, GateWeight(n), 0);
    PhaseSumBounds(f.workers, FixWeight(n), 0);
  }

  // ---------------------------------------------------------------------------
  // Until the last worker returns, somebody can make a move that counts
  // ---------------------------------------------------------------------------

  predicate Answers(p: Phase, input: Input) {
    match p
    case Looping => input.Blockers?
    case Rechecking => input.Blockers?
    case Starting(_) => input.Detected? || input.Raised?
    case Implementing(_) => input.Implemented? || input.Raised?
    case Gating(_, _) => input.Gated? || input.Raised?
    case Merging(_) => input.MergeDone? || input.Raised?
    case Fixing(_, _) => input.FixDone? || input.Raised?
    case Returned => false
  }

  /** Worker `w` has not returned, and whichever answer it gets it makes a move that is not sleep. */
  ghost predicate Advances(f: Fleet, w: int, autoMerge: bool) {
    && 0 <= w < |f.workers| && !f.workers[w].Returned?
    && forall input | Answers(f.workers[w], input) ::
         Next(f, w, input, autoMerge).Moved? && Next(f, w, input, autoMerge).fleet != f
  }

  lemma NeverStuck(trace: seq<Fleet>, moves: seq<Move>, autoMerge: bool, i: nat)
    requires Run(trace, moves, autoMerge) && i < |trace| && !AllReturned(trace[i])
    ensures exists w :: Advances(trace[i], w, autoMerge)
  {
    var f := trace[i];
    RunKeepsInv(trace, moves, autoMerge, i);
    var w: int;
    if BusyWorkers(f) != {} {
      w := Pick(BusyWorkers(f));
    } else {
      w :| 0 <= w < |f.workers| && !f.workers[w].Returned?;
      BusySlotsAreBusyWorkers(f);
    }
    assert WorkerOk(f, w);
    forall input | Answers(f.workers[w], input)
      ensures Next(f, w, input, autoMerge).Moved? && Next(f, w, input, autoMerge).fleet != f
    {
      StepKeeps(f, w, input, autoMerge);
      StillOnlyWhenWaiting(f, w, Next(f, w, input, autoMerge).fleet,
        Subject(f, w, Next(f, w, input, autoMerge).fleet), Next(f, w, input, autoMerge).fleet.workers[w]);
    }
    assert Advances(f, w, autoMerge);
  }

  // ---------------------------------------------------------------------------
  // Runs that serve every worker end
  // ---------------------------------------------------------------------------

  /** A worker that has not returned makes one of the next `k` moves, wherever the run stands. */
  ghost predicate Serves(trace: seq<Fleet>, moves: seq<Move>, k: nat)
    requires |trace| == |moves| + 1
  {
    forall i, w | 0 <= i <= |moves| - k && 0 <= w < |trace[i].workers| && !trace[i].workers[w].Returned? ::
      MovesWithin(moves, i, i + k, w)
  }

  predicate MovesWithin(moves: seq<Move>, from: nat, end: nat, w: int)
    requires from <= end <= |moves|
  {
    exists j | from <= j < end :: moves[j].worker == w
  }

  lemma {:induction false} StridesGrow(trace: seq<Fleet>, i: nat, j: nat)
    requires i <= j < |trace|
    ensures Strides(trace, i) <= Strides(trace, j)
    ensures Strides(trace, i) == Strides(trace, j) ==> trace[i] == trace[j]
  {
    if i < j { StridesGrow(trace, i, j - 1); }
  }

  lemma MoverAnswers(f: Fleet, move: Move, autoMerge: bool)
    requires Next(f, move.worker, move.input, autoMerge) != NotEnabled
    ensures 0 <= move.worker < |f.workers| && Answers(f.workers[move.worker], move.input)
    ensures !AllReturned(f)
    ensures Advances(f, move.worker, autoMerge) ==> Next(f, move.worker, move.input, autoMerge) != Moved(f)
  {
  }

  lemma AdvancingIsServed(trace: seq<Fleet>, moves: seq<Move>, autoMerge: bool, k: nat, i: nat)
      returns (w: int, j: nat)
    requires Run(trace, moves, autoMerge) && Serves(trace, moves, k) && 1 <= k && i + k <= |moves|
    ensures Advances(trace[i], w, autoMerge) && i <= j < i + k && moves[j].worker == w
  {
    hide Next, Answers;
    assert Next(trace[i], moves[i].worker, moves[i].input, autoMerge) == Moved(trace[i + 1]);
    MoverAnswers(trace[i], moves[i], autoMerge);
    NeverStuck(trace, moves, autoMerge, i);
    w :| Advances(trace[i], w, autoMerge);
    assert MovesWithin(moves, i, i + k, w);
    j :| i <= j < i + k && moves[j].worker == w;
  }

  /** Among `k` moves of a run that serves every worker one is not sleep. */
  lemma WindowStrides(trace: seq<Fleet>, moves: seq<Move>, autoMerge: bool, k: nat, i: nat)
    requires Run(trace, moves, autoMerge) && Serves(trace, moves, k) && 1 <= k && i + k <= |moves|
    ensures Strides(trace, i) < Strides(trace, i + k)
  {
    hide Next, Advances, AllReturned, Serves;
    var w, j := AdvancingIsServed(trace, moves, autoMerge, k, i);
    StridesGrow(trace, i, j);
    StridesGrow(trace, j + 1, i + k);
    assert Next(trace[j], w, moves[j].input, autoMerge) == Moved(trace[j + 1]);
    MoverAnswers(trace[j], moves[j], autoMerge);
    assert Strides(trace, j + 1) == Strides(trace, j) + if trace[j + 1] != trace[j] then 1 else 0;
  }

  lemma {:induction false} WindowsStride(
      trace: seq<Fleet>, moves: seq<Move>, autoMerge: bool, k: nat, m: nat)
    requires Run(trace, moves, autoMerge) && Serves(trace, moves, k) && 1 <= k && m * k <= |moves|
    ensures m <= Strides(trace, m * k)
  {
    hide Next, Serves, Strides, Start;
    if m > 0 {
      assert (m - 1) * k + k == m * k;
      WindowsStride(trace, moves, autoMerge, k, m - 1);
      WindowStrides(trace, moves, autoMerge, k, (m - 1) * k);
    }
  }

  lemma UnfinishedGoOn(f: Fleet, autoMerge: bool)
    requires Inv(f)
    ensures forall w, input | 0 <= w < |f.workers| && Answers(f.workers[w], input) ::
      Next(f, w, input, autoMerge).Moved?
  {
    hide Next, StepKind;
    forall w, input | 0 <= w < |f.workers| && Answers(f.workers[w], input)
      ensures Next(f, w, input, autoMerge).Moved?
    {
      AnswerEnables(f, w, input, autoMerge);
      StepCases(f, w, input, autoMerge);
    }
  }

  lemma AnswerEnables(f: Fleet, w: int, input: Input, autoMerge: bool)
    requires Inv(f) && 0 <= w < |f.workers| && Answers(f.workers[w], input)
    ensures Next(f, w, input, autoMerge) != NotEnabled
  {
    assert WorkerOk(f, w);
  }

  /** If no worker that has not returned waits for more than `k` moves, the run is over after fewer than
      `k` moves for each that may count and `k` more: and until every worker has returned, each that has
      not can go on, whatever it is answered. */
  lemma ServedRunsEnd(trace: seq<Fleet>, moves: seq<Move>, autoMerge: bool, k: nat)
    requires Run(trace, moves, autoMerge) && Serves(trace, moves, k) && 1 <= k
    ensures |moves| < k * (MoveBound(trace[0].store) + 1)
    ensures forall w, input | 0 <= w < |trace[|moves|].workers| && Answers(trace[|moves|].workers[w], input) ::
      Next(trace[|moves|], w, input, autoMerge).Moved?
  {
    hide Next, Serves, Strides, Start, Inv, Answers, MoveBound;
    var m := |moves| / k;
    assert |moves| < k * (m + 1) && m * k <= |moves|;
    WindowsStride(trace, moves, autoMerge, k, m);
    StridesGrow(trace, m * k, |moves|);
    RunsAreBounded(trace, moves, autoMerge);
    Scaled(k, m + 1, MoveBound(trace[0].store) + 1);
    RunKeepsInv(trace, moves, autoMerge, |moves|);
    UnfinishedGoOn(trace[|moves|], autoMerge);
  }

  lemma Scaled(k: nat, a: int, b: int)
    requires a <= b
    ensures k * a <= k * b
  {
  }
}
