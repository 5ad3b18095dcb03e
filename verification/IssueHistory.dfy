/** What the record of an issue remembers: each field, after any dispatches whatever, told from the
    dispatches themselves (agentrail/afk/state.py). */
module IssueHistory {
  import opened Collections
  import opened FleetState

  /** The PR of the last `SetPr` for the issue, or the one it started with. */
  function LastPr(pr: Option<int>, actions: seq<Action>, n: int): Option<int> {
    if actions == [] then pr else
      var last := actions[|actions| - 1];
      if last.SetPr? && last.number == n then Some(last.pr) else LastPr(pr, actions[..|actions| - 1], n)
  }

  function LastCost(cost: real, actions: seq<Action>, n: int): real {
    if actions == [] then cost else
      var last := actions[|actions| - 1];
      if last.RecordCost? && last.number == n then last.costUsd else LastCost(cost, actions[..|actions| - 1], n)
  }

  function LastBlockers(blockers: seq<int>, actions: seq<Action>, n: int): seq<int> {
    if actions == [] then blockers else
      var last := actions[|actions| - 1];
      if last.SetBlockedBy? && last.number == n then last.blockedBy
      else LastBlockers(blockers, actions[..|actions| - 1], n)
  }

  /** The error of the last failure, unless the issue was requeued since. */
  function LastError(error: Option<string>, actions: seq<Action>, n: int): Option<string> {
    if actions == [] then error else
      var last := actions[|actions| - 1];
      if last.RecordFailure? && last.number == n then last.error
      else if last.RequeueIssue? && last.number == n then None
      else LastError(error, actions[..|actions| - 1], n)
  }

  /** The failures recorded since the issue was last requeued; `before` of them precede the actions. */
  function FailuresSince(before: int, actions: seq<Action>, n: int): int {
    if actions == [] then before else
      var last := actions[|actions| - 1];
      if last.RequeueIssue? && last.number == n then 0
      else FailuresSince(before, actions[..|actions| - 1], n) + (if last.RecordFailure? && last.number == n then 1 else 0)
  }

  function RoundsSince(before: int, actions: seq<Action>, n: int): int {
    if actions == [] then before else
      var last := actions[|actions| - 1];
      if last.RequeueIssue? && last.number == n then 0
      else RoundsSince(before, actions[..|actions| - 1], n)
             + (if last.IncrementReviewRound? && last.number == n then 1 else 0)
  }

  lemma DispatchedLast(s: AfkState, actions: seq<Action>)
    requires actions != []
    ensures DispatchedAll(s, actions) ==
      Dispatched(DispatchedAll(s, actions[..|actions| - 1]), actions[|actions| - 1])
  {
    var front, last := actions[..|actions| - 1], actions[|actions| - 1];
    assert actions == front + [last];
    DispatchedAllConcat(s, front, [last]);
    DispatchedOne(DispatchedAll(s, front), last);
  }

  /** What one dispatch does to the record of an issue. */
  lemma OneDispatch(s: AfkState, a: Action, n: int)
    requires n in s.issues
    ensures var t := Dispatched(s, a);
      && n in t.issues && t.maxRetries == s.maxRetries
      && var i, j := s.issues[n], t.issues[n];
         && j.pr == (if a.SetPr? && a.number == n then Some(a.pr) else i.pr)
         && j.costUsd == (if a.RecordCost? && a.number == n then a.costUsd else i.costUsd)
         && j.blockedBy == (if a.SetBlockedBy? && a.number == n then a.blockedBy else i.blockedBy)
         && j.number == i.number && j.title == i.title && j.url == i.url
  {
  }

  lemma OneDispatchCounts(s: AfkState, a: Action, n: int)
    requires n in s.issues
    ensures var t := Dispatched(s, a);
      && n in t.issues
      && var i, j, requeued := s.issues[n], t.issues[n], a.RequeueIssue? && a.number == n;
         && j.retries == (if requeued then 0 else i.retries + (if a.RecordFailure? && a.number == n then 1 else 0))
         && j.reviewRounds ==
              (if requeued then 0 else i.reviewRounds + (if a.IncrementReviewRound? && a.number == n then 1 else 0))
         && j.error == (if requeued then None else if a.RecordFailure? && a.number == n then a.error else i.error)
  {
  }

  /** After any dispatches, accepted or not: the PR is the last one set, the retries count the failures and the
      review rounds the increments since the last requeue, the error is the last failure's, cost and blockers
      are the last recorded, and what names the issue never changes. */
  lemma {:induction false} FieldsAreHistory(s: AfkState, actions: seq<Action>, n: int)
    requires n in s.issues
    ensures var t := DispatchedAll(s, actions);
      && n in t.issues && t.maxRetries == s.maxRetries
      && var a, b := s.issues[n], t.issues[n];
         && b.pr == LastPr(a.pr, actions, n)
         && b.retries == FailuresSince(a.retries, actions, n)
         && b.reviewRounds == RoundsSince(a.reviewRounds, actions, n)
         && b.error == LastError(a.error, actions, n)
         && b.costUsd == LastCost(a.costUsd, actions, n)
         && b.blockedBy == LastBlockers(a.blockedBy, actions, n)
         && b.number == a.number && b.title == a.title && b.url == a.url
    decreases |actions|
  {
    hide Reduce, Dispatched, DispatchedAll;
    if actions != [] {
      var front, last := actions[..|actions| - 1], actions[|actions| - 1];
      FieldsAreHistory(s, front, n);
      DispatchedLast(s, actions);
      OneDispatch(DispatchedAll(s, front), last, n);
      OneDispatchCounts(DispatchedAll(s, front), last, n);
    } else {
      DispatchedNone(s);
    }
  }

  /** A failure queues the issue for another attempt if and only if fewer failures than the retries allow have
      been recorded since it was last requeued, this one included; otherwise the issue waits for a human. */
  lemma FailureRequeuesExactly(s: AfkState, actions: seq<Action>, n: int, error: Option<string>)
    requires n in s.issues
    ensures var all := actions + [RecordFailure(n, error)]; var t := DispatchedAll(s, all);
      && n in t.issues && t.issues[n].slot.None?
      && (t.issues[n].status.Queued? <==> FailuresSince(s.issues[n].retries, all, n) < s.maxRetries)
      && (t.issues[n].status.HumanReview? <==> FailuresSince(s.issues[n].retries, all, n) >= s.maxRetries)
  {
    var all := actions + [RecordFailure(n, error)];
    assert all[..|all| - 1] == actions;
    FieldsAreHistory(s, actions, n);
    DispatchedLast(s, all);
  }

  /** Which dispatches move an issue between statuses, and where to. */
  lemma StatusMoves(s: AfkState, a: Action, n: int)
    requires n in s.issues
    ensures var t := Dispatched(s, a);
      && n in t.issues
      && ((a.SetStatus? && a.number == n) ==> t.issues[n].status == a.status)
      && (((a.ReleaseIssue? || a.RequeueIssue?) && a.number == n) ==> t.issues[n].status == Queued)
      && ((a.ClaimIssue? && a.number == n && Reduce(s, a).Ok?) ==>
            t.issues[n].status == Claimed && t.issues[n].slot == Some(a.slot))
      && (t.issues[n].status != s.issues[n].status ==>
            (a.SetStatus? || a.ReleaseIssue? || a.RequeueIssue? || a.ClaimIssue? || a.RecordFailure?) && a.number == n)
  {
  }

  /** An issue comes in with the first `EnqueueIssue` for it and not otherwise, as that action names it: queued,
      in no slot, without a PR, and with nothing against it. */
  lemma {:induction false} EntersOnce(s: AfkState, actions: seq<Action>, n: int)
    requires n !in s.issues
    ensures n in DispatchedAll(s, actions).issues <==>
      exists k :: 0 <= k < |actions| && actions[k].EnqueueIssue? && actions[k].number == n
    decreases |actions|
  {
    if actions != [] {
      var front := actions[..|actions| - 1];
      EntersOnce(s, front, n);
      DispatchedLast(s, actions);
      if k :| 0 <= k < |front| && front[k].EnqueueIssue? && front[k].number == n {
        assert actions[k] == front[k];
      }
      var t := DispatchedAll(s, front);
      KnownStays(t, actions[|actions| - 1], n);
      if k :| 0 <= k < |actions| && actions[k].EnqueueIssue? && actions[k].number == n {
        if k < |front| { assert front[k] == actions[k]; }
      }
    }
  }

  lemma KnownStays(s: AfkState, a: Action, n: int)
    ensures n in Dispatched(s, a).issues <==> n in s.issues || (a.EnqueueIssue? && a.number == n)
  {
  }

  lemma EntersAsListed(s: AfkState, a: Action)
    requires a.EnqueueIssue?
    ensures var t := Dispatched(s, a);
      if a.number in s.issues then t == s
      else t == s.(issues := s.issues[a.number :=
        IssueState(a.number, a.title, a.url, Queued, None, None, 0, 0, None, 0.0, a.blockedBy)])
  {
  }
}
