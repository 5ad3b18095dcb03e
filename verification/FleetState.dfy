/** The AFK fleet's state tree, its selectors, its actions and its reducer
    (agentrail/afk/state.py). Everything here is a function from state to state. */
module FleetState {
  import opened Collections

  datatype IssueStatus =
    | Queued | Claimed | Running | PrOpen | Autofixing
    | Merged | Commented | HumanReview | Failed

  predicate Terminal(s: IssueStatus) {
    s.Merged? || s.Commented? || s.HumanReview? || s.Failed?
  }

  /** Claimed by a slot and not settled yet. */
  predicate InFlight(s: IssueStatus) {
    !s.Queued? && !Terminal(s)
  }

  datatype IssueState = IssueState(
    number: int, title: string, url: string, status: IssueStatus,
    pr: Option<int>, slot: Option<int>, retries: int, reviewRounds: int,
    error: Option<string>, costUsd: real, blockedBy: seq<int>)

  function FreshIssue(number: int, title: string, url: string, blockedBy: seq<int>): IssueState {
    IssueState(number, title, url, Queued, None, None, 0, 0, None, 0.0, blockedBy)
  }

  datatype AfkState = AfkState(
    issues: map<int, IssueState>, slots: map<int, Option<int>>,
    concurrency: int, maxRetries: int, completed: int, failed: int)

  // ---------------------------------------------------------------------------
  // Selectors
  // ---------------------------------------------------------------------------

  /** `slots.get(k)`: a missing slot reads as free. */
  function SlotOf(slots: map<int, Option<int>>, k: int): Option<int> {
    if k in slots then slots[k] else None
  }

  /** Some blocker of the issue is still open. */
  predicate Withheld(issue: IssueState, open: set<int>) {
    Elements(issue.blockedBy) * open != {}
  }

  predicate Claimable(issue: IssueState, open: set<int>) {
    issue.status.Queued? && !Withheld(issue, open)
  }

  function NextClaimable(s: AfkState, open: set<int>): (r: Option<int>)
    ensures r.Some? ==> r.value in s.issues && Claimable(s.issues[r.value], open)
    ensures r.Some? ==> forall n | n in s.issues && Claimable(s.issues[n], open) :: r.value <= n
    ensures r.None? ==> forall n | n in s.issues :: !Claimable(s.issues[n], open)
  {
    var candidates := set n | n in s.issues && Claimable(s.issues[n], open);
    if candidates == {} then
      assert forall n | n in s.issues :: Claimable(s.issues[n], open) ==> n in candidates;
      None
    else
      assert forall n | n in s.issues && Claimable(s.issues[n], open) :: n in candidates;
      Some(MinOf(candidates))
  }

  predicate AnyQueued(s: AfkState) {
    exists n | n in s.issues :: s.issues[n].status.Queued?
  }

  function BusySlots(s: AfkState): set<int> {
    set k | k in s.slots && s.slots[k].Some?
  }

  /** `active_count()` */
  function ActiveCount(s: AfkState): nat {
    |BusySlots(s)|
  }

  /** `free_slot()`: the lowest free index below the concurrency. */
  function FreeSlotFrom(s: AfkState, k: int): (r: Option<int>)
    ensures r.Some? ==> k <= r.value < s.concurrency && SlotOf(s.slots, r.value).None?
    ensures r.Some? ==> forall j | k <= j < r.value :: SlotOf(s.slots, j).Some?
    ensures r.None? ==> forall j | k <= j < s.concurrency :: SlotOf(s.slots, j).Some?
    decreases s.concurrency - k
  {
    if k >= s.concurrency then None
    else if SlotOf(s.slots, k).None? then Some(k)
    else FreeSlotFrom(s, k + 1)
  }

  function FreeSlotIndex(s: AfkState): Option<int> {
    FreeSlotFrom(s, 0)
  }

  predicate IsDrained(s: AfkState) {
    !AnyQueued(s) && ActiveCount(s) == 0
  }

  // ---------------------------------------------------------------------------
  // Actions and the reducer
  // ---------------------------------------------------------------------------

  datatype Action =
    | EnqueueIssue(number: int, title: string, url: string, blockedBy: seq<int>)
    | SetBlockedBy(number: int, blockedBy: seq<int>)
    | ClaimIssue(number: int, slot: int)
    | ReleaseIssue(number: int)
    | SetStatus(number: int, status: IssueStatus)
    | SetPr(number: int, pr: int)
    | RecordFailure(number: int, error: Option<string>)
    | RecordCost(number: int, costUsd: real)
    | IncrementReviewRound(number: int)
    | FreeSlot(slot: int)
    | RequeueIssue(number: int)

  datatype Error =
    | UnknownIssue(number: int)
    | NotQueued(number: int, status: IssueStatus)
    | SlotOccupied(slot: int)

  function Vacate(slots: map<int, Option<int>>, slot: Option<int>): map<int, Option<int>> {
    if slot.Some? then slots[slot.value := None] else slots
  }

  function Reduce(s: AfkState, a: Action): Result<AfkState, Error> {
    match a
    case EnqueueIssue(n, title, url, blockedBy) =>
      if n in s.issues then Ok(s)
      else Ok(s.(issues := s.issues[n := FreshIssue(n, title, url, blockedBy)]))
    case SetBlockedBy(n, blockedBy) =>
      if n !in s.issues || s.issues[n].blockedBy == blockedBy then Ok(s)
      else Ok(s.(issues := s.issues[n := s.issues[n].(blockedBy := blockedBy)]))
    case FreeSlot(k) =>
      Ok(s.(slots := s.slots[k := None]))
    case _ =>
      if a.number !in s.issues then Err(UnknownIssue(a.number))
      else ReduceKnown(s, a, s.issues[a.number])
  }

  /** The branches of the reducer that need the issue to exist already. */
  function ReduceKnown(s: AfkState, a: Action, issue: IssueState): Result<AfkState, Error>
    requires !a.EnqueueIssue? && !a.SetBlockedBy? && !a.FreeSlot?
  {
    var n := a.number;
    match a
    case ClaimIssue(_, k) =>
      if !issue.status.Queued? then Err(NotQueued(n, issue.status))
      else if SlotOf(s.slots, k).Some? then Err(SlotOccupied(k))
      else Ok(s.(slots := s.slots[k := Some(n)],
                 issues := s.issues[n := issue.(status := Claimed, slot := Some(k))]))
    case ReleaseIssue(_) =>
      Ok(s.(slots := Vacate(s.slots, issue.slot),
            issues := s.issues[n := issue.(status := Queued, slot := None)]))
    case SetStatus(_, status) =>
      Ok(s.(completed := if status.Merged? then s.completed + 1 else s.completed,
            slots := if Terminal(status) then Vacate(s.slots, issue.slot) else s.slots,
            issues := s.issues[n := issue.(
              status := status,
              slot := if Terminal(status) then None else issue.slot)]))
    case SetPr(_, pr) =>
      Ok(s.(issues := s.issues[n := issue.(pr := Some(pr))]))
    case RecordCost(_, cost) =>
      Ok(s.(issues := s.issues[n := issue.(costUsd := cost)]))
    case RecordFailure(_, error) =>
      var exhausted := issue.retries + 1 >= s.maxRetries;
      Ok(s.(failed := if exhausted then s.failed + 1 else s.failed,
            slots := Vacate(s.slots, issue.slot),
            issues := s.issues[n := issue.(
              retries := issue.retries + 1,
              status := if exhausted then HumanReview else Queued,
              slot := None, error := error)]))
    case IncrementReviewRound(_) =>
      Ok(s.(issues := s.issues[n := issue.(reviewRounds := issue.reviewRounds + 1)]))
    case RequeueIssue(_) =>
      Ok(s.(completed := if issue.status.Merged? then Max(0, s.completed - 1) else s.completed,
            failed := if issue.status.HumanReview? then Max(0, s.failed - 1) else s.failed,
            slots := Vacate(s.slots, issue.slot),
            issues := s.issues[n := issue.(
              status := Queued, slot := None, retries := 0, reviewRounds := 0, error := None)]))
  }

  /** A dispatch that raises leaves the store as it was. */
  function Dispatched(s: AfkState, a: Action): AfkState {
    var r := Reduce(s, a);
    if r.Ok? then r.value else s
  }

  function DispatchedAll(s: AfkState, actions: seq<Action>): AfkState
    decreases |actions|
  {
    if actions == [] then s else DispatchedAll(Dispatched(s, actions[0]), actions[1..])
  }

  lemma {:induction false} DispatchedAllConcat(s: AfkState, xs: seq<Action>, ys: seq<Action>)
    ensures DispatchedAll(s, xs + ys) == DispatchedAll(DispatchedAll(s, xs), ys)
    decreases |xs|
  {
    if xs == [] {
      assert xs + ys == ys;
    } else {
      DispatchedAllConcat(Dispatched(s, xs[0]), xs[1..], ys);
      assert (xs + ys)[1..] == xs[1..] + ys;
    }
  }

  lemma DispatchedNone(s: AfkState)
    ensures DispatchedAll(s, []) == s
  {
  }

  lemma DispatchedOne(s: AfkState, a: Action)
    ensures DispatchedAll(s, [a]) == Dispatched(s, a)
  {
    assert [a][1..] == [];
    assert DispatchedAll(s, [a]) == DispatchedAll(Dispatched(s, a), [a][1..]);
  }

  /** The claim that `claim_next` would dispatch, if it would dispatch one. */
  function ClaimNext(s: AfkState, open: set<int>): (r: Option<Action>)
    ensures r.Some? ==> r.value.ClaimIssue? && Reduce(s, r.value).Ok?
  {
    var next := NextClaimable(s, open);
    var slot := FreeSlotIndex(s);
    if next.None? || slot.None? then None else Some(ClaimIssue(next.value, slot.value))
  }

  /** It takes the least claimable issue to the lowest free slot, and there is one to dispatch exactly if there
      are both. */
  lemma ClaimNextExactly(s: AfkState, open: set<int>)
    ensures ClaimNext(s, open).Some? <==>
      && (exists n :: n in s.issues && Claimable(s.issues[n], open))
      && (exists k :: 0 <= k < s.concurrency && SlotOf(s.slots, k).None?)
    ensures ClaimNext(s, open).Some? ==>
      var a := ClaimNext(s, open).value;
      && a.number in s.issues && Claimable(s.issues[a.number], open)
      && (forall n | n in s.issues && Claimable(s.issues[n], open) :: a.number <= n)
      && 0 <= a.slot < s.concurrency && SlotOf(s.slots, a.slot).None?
      && (forall k | 0 <= k < a.slot :: SlotOf(s.slots, k).Some?)
  {
  }

  // ---------------------------------------------------------------------------
  // The discipline the runner keeps, and what it preserves
  // ---------------------------------------------------------------------------

  /** Issue and slot name each other. */
  predicate Holds(s: AfkState, n: int, k: int) {
    n in s.issues && s.issues[n].slot == Some(k) && SlotOf(s.slots, k) == Some(n)
  }

  predicate HoldsSlot(s: AfkState, n: int) {
    n in s.issues && s.issues[n].slot.Some? && Holds(s, n, s.issues[n].slot.value)
  }

  /** Nobody else sits in the slot this issue names. */
  predicate SlotUndisputed(s: AfkState, n: int) {
    n in s.issues && s.issues[n].slot.Some? ==>
      var who := SlotOf(s.slots, s.issues[n].slot.value); who == None || who == Some(n)
  }

  /** What the runner and the seeding code are careful to do, action by action. */
  predicate Disciplined(s: AfkState, a: Action) {
    match a
    case SetStatus(n, status) => HoldsSlot(s, n) && !status.Queued?
    case RecordFailure(n, _) => HoldsSlot(s, n)
    case ReleaseIssue(n) => HoldsSlot(s, n)
    case ClaimIssue(_, k) => 0 <= k < s.concurrency && Reduce(s, a).Ok?
    case RequeueIssue(n) => n in s.issues && SlotUndisputed(s, n)
    case FreeSlot(_) => false
    case EnqueueIssue(_, _, _, _) => true
    case SetBlockedBy(_, _) => true
    case SetPr(n, _) => n in s.issues
    case RecordCost(n, _) => n in s.issues
    case IncrementReviewRound(n) => n in s.issues
  }

  predicate DisciplinedAll(s: AfkState, actions: seq<Action>)
    decreases |actions|
  {
    actions == [] ||
    (Disciplined(s, actions[0]) && DisciplinedAll(Dispatched(s, actions[0]), actions[1..]))
  }

  lemma {:induction false} DisciplinedAllConcat(s: AfkState, xs: seq<Action>, ys: seq<Action>)
    ensures DisciplinedAll(s, xs + ys)
       <==> DisciplinedAll(s, xs) && DisciplinedAll(DispatchedAll(s, xs), ys)
    decreases |xs|
  {
    if xs == [] {
      assert xs + ys == ys;
    } else {
      DisciplinedAllConcat(Dispatched(s, xs[0]), xs[1..], ys);
      assert (xs + ys)[1..] == xs[1..] + ys;
    }
  }

  function WithStatus(s: AfkState, status: IssueStatus): set<int> {
    set n | n in s.issues && s.issues[n].status == status
  }

  /** Issues that name a slot which does not name them back. A killed run leaves them behind:
      a resume empties the slots but not `issue.slot`. */
  function Orphans(s: AfkState): set<int> {
    set n | n in s.issues && s.issues[n].slot.Some? && !HoldsSlot(s, n)
  }

  predicate IssueOk(n: int, issue: IssueState) {
    issue.number == n && (issue.slot.Some? <==> InFlight(issue.status))
  }

  predicate SlotOk(s: AfkState, k: int) {
    SlotOf(s.slots, k).Some? ==> 0 <= k < s.concurrency && Holds(s, s.slots[k].value, k)
  }

  /** Slots and issues agree, except for orphans; only in-flight issues name a slot. */
  predicate Consistent(s: AfkState) {
    && (forall n | n in s.issues :: IssueOk(n, s.issues[n]))
    && (forall k | k in s.slots :: SlotOk(s, k))
  }

  /** The aggregate counters say what the issues say. */
  predicate Counted(s: AfkState) {
    && s.completed == |WithStatus(s, Merged)|
    && 0 <= s.failed <= |WithStatus(s, HumanReview)|
  }

  lemma DisciplinedKeepsConsistent(s: AfkState, a: Action)
    requires Consistent(s) && Disciplined(s, a)
    ensures Reduce(s, a).Ok?
    ensures Consistent(Dispatched(s, a))
    ensures Orphans(Dispatched(s, a)) <= Orphans(s)
    ensures Dispatched(s, a).concurrency == s.concurrency
    ensures Dispatched(s, a).maxRetries == s.maxRetries
    ensures s.issues.Keys <= Dispatched(s, a).issues.Keys
  {
  }

  lemma SameElsewhereSets(s: AfkState, t: AfkState, n: int, status: IssueStatus)
    requires n in t.issues && t.issues == s.issues[n := t.issues[n]]
    ensures WithStatus(s, status) - {n} == WithStatus(t, status) - {n}
  {
  }

  /** Changing one issue's status moves at most that issue between the status sets. */
  lemma StatusSets(s: AfkState, t: AfkState, n: int, status: IssueStatus)
    requires n in t.issues && t.issues == s.issues[n := t.issues[n]]
    ensures |WithStatus(t, status)| == |WithStatus(s, status)|
              - (if n in s.issues && s.issues[n].status == status then 1 else 0)
              + (if t.issues[n].status == status then 1 else 0)
  {
    SameElsewhereSets(s, t, n, status);
    SwapCard(WithStatus(s, status), WithStatus(t, status), n);
  }

  lemma DisciplinedKeepsCounted(s: AfkState, a: Action)
    requires Consistent(s) && Disciplined(s, a) && Counted(s)
    ensures Counted(Dispatched(s, a))
  {
    var t := Dispatched(s, a);
    if t.issues != s.issues {
      var n := a.number;
      assert n in s.issues ==> IssueOk(n, s.issues[n]);
      StatusSets(s, t, n, Merged);
      StatusSets(s, t, n, HumanReview);
    } else {
      assert t.completed == s.completed && t.failed == s.failed by {
        if !a.FreeSlot? && a.number in s.issues { assert IssueOk(a.number, s.issues[a.number]); }
      }
      assert WithStatus(t, Merged) == WithStatus(s, Merged);
      assert WithStatus(t, HumanReview) == WithStatus(s, HumanReview);
    }
  }

  /** Any number of disciplined dispatches: none raises, slots stay consistent, no orphan appears,
      and the counters keep counting. */
  lemma {:induction false} DisciplinedRun(s: AfkState, actions: seq<Action>)
    requires Consistent(s) && DisciplinedAll(s, actions)
    ensures var t := DispatchedAll(s, actions);
      Consistent(t) && Orphans(t) <= Orphans(s) && t.concurrency == s.concurrency &&
      t.maxRetries == s.maxRetries && s.issues.Keys <= t.issues.Keys &&
      (Counted(s) ==> Counted(t))
    decreases |actions|
  {
    if actions != [] {
      DisciplinedKeepsConsistent(s, actions[0]);
      if Counted(s) { DisciplinedKeepsCounted(s, actions[0]); }
      DisciplinedRun(Dispatched(s, actions[0]), actions[1..]);
    }
  }

  /** The issues waiting for a human that `failed` does not count. */
  function Uncounted(s: AfkState): int {
    |WithStatus(s, HumanReview)| - s.failed
  }

  /** Escalating an issue without a recorded failure. */
  predicate Escalates(a: Action) {
    a.SetStatus? && a.status.HumanReview?
  }

  /** The clamp on `failed` bites: an issue waiting for a human is requeued while nothing is counted. */
  predicate Clamps(s: AfkState, a: Action) {
    a.RequeueIssue? && a.number in s.issues && s.issues[a.number].status.HumanReview? && s.failed == 0
  }

  lemma UncountedMoves(s: AfkState, a: Action)
    requires Consistent(s) && Disciplined(s, a) && Counted(s)
    ensures Uncounted(Dispatched(s, a)) ==
      Uncounted(s) + (if Escalates(a) then 1 else 0) - (if Clamps(s, a) then 1 else 0)
  {
    var t := Dispatched(s, a);
    if t.issues != s.issues {
      var n := a.number;
      assert n in s.issues ==> IssueOk(n, s.issues[n]);
      StatusSets(s, t, n, HumanReview);
    } else {
      assert t.failed == s.failed && !Clamps(s, a) && !Escalates(a) by {
        if !a.FreeSlot? && a.number in s.issues { assert IssueOk(a.number, s.issues[a.number]); }
      }
      assert WithStatus(t, HumanReview) == WithStatus(s, HumanReview);
    }
  }

  function Escalations(actions: seq<Action>): nat {
    if actions == [] then 0 else (if Escalates(actions[0]) then 1 else 0) + Escalations(actions[1..])
  }

  function ClampCount(s: AfkState, actions: seq<Action>): nat
    decreases |actions|
  {
    if actions == [] then 0 else
      (if Clamps(s, actions[0]) then 1 else 0) + ClampCount(Dispatched(s, actions[0]), actions[1..])
  }

  /** From a state where `failed` counts all issues waiting for a human, any disciplined actions leave it
      doing so exactly if the clamp bit once for every escalation without a failure. */
  lemma {:induction false} FailedCountsExactly(s: AfkState, actions: seq<Action>)
    requires Consistent(s) && DisciplinedAll(s, actions) && Counted(s)
    ensures Uncounted(DispatchedAll(s, actions)) == Uncounted(s) + Escalations(actions) - ClampCount(s, actions)
    ensures s.failed == |WithStatus(s, HumanReview)| ==>
      var t := DispatchedAll(s, actions);
      (t.failed == |WithStatus(t, HumanReview)| <==> ClampCount(s, actions) == Escalations(actions))
    decreases |actions|
  {
    hide Reduce, Consistent, Disciplined, Counted, Clamps, Escalates;
    if actions != [] {
      DisciplinedKeepsConsistent(s, actions[0]);
      DisciplinedKeepsCounted(s, actions[0]);
      UncountedMoves(s, actions[0]);
      FailedCountsExactly(Dispatched(s, actions[0]), actions[1..]);
    }
  }

  /** The rule for failures is needed. A `RecordFailure` that reaches an issue already merged (a side effect
      raising after the merge was recorded) leaves `completed` counting it, and no other does. `failed` comes
      out too high exactly if the issue already waits for a human and all of those are counted. */
  lemma FailureMiscountsExactly(s: AfkState, n: int, error: Option<string>)
    requires Counted(s) && n in s.issues
    ensures var t := Dispatched(s, RecordFailure(n, error));
      && (t.completed == |WithStatus(t, Merged)| <==> !s.issues[n].status.Merged?)
      && (Counted(t) <==>
            !s.issues[n].status.Merged? && !(s.issues[n].status.HumanReview? && Uncounted(s) == 0))
  {
    var t := Dispatched(s, RecordFailure(n, error));
    StatusSets(s, t, n, Merged);
    StatusSets(s, t, n, HumanReview);
  }

  /** For instance: a failure after the merge puts the issue back in the queue, and it still counts as done. */
  lemma FailureAfterMergeMiscounts(n: int, issue: IssueState)
    requires issue.number == n && issue.status.Merged? && issue.slot.None? && issue.retries == 0
    ensures var s := AfkState(map[n := issue], map[0 := None], 1, 2, 1, 0);
      Consistent(s) && Counted(s) &&
      var t := Dispatched(s, RecordFailure(n, None));
      t.issues[n].status.Queued? && t.completed == 1 && !Counted(t)
  {
    var s := AfkState(map[n := issue], map[0 := None], 1, 2, 1, 0);
    assert WithStatus(s, Merged) == {n};
    assert WithStatus(s, HumanReview) == {};
    assert WithStatus(Dispatched(s, RecordFailure(n, None)), Merged) == {};
  }
}
