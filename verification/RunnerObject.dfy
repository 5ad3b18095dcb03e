/** The runner as the object it is (agentrail/afk/runner.py, class Runner): coroutines that dispatch
    to a shared store one action at a time. Each method is what a coroutine does between two awaits,
    and `Step` is proved to be the step that the theorems about runs are about. */
module RunnerObject {
  import opened Collections
  import opened FleetState
  import opened FleetStore
  import opened Journal
  import opened Runner
  import opened RunnerBounds
  import opened Sequences
  import opened Snapshot

  lemma AnswersMove(s: AfkState, p: Phase, input: Input, autoMerge: bool)
    requires Answers(p, input) && (Busy(p) ==> p.issue in s.issues)
    ensures WorkerStretch(s, p, input, autoMerge).Some?
  {
  }

  class FleetRunner {
    const store: Store
    const autoMerge: bool
    const workers: array<Phase>

    constructor (store: Store, concurrency: nat, autoMerge: bool)
      ensures this.store == store && this.autoMerge == autoMerge
      ensures fresh(workers) && View() == Fleet(store.state, seq(concurrency, _ => Looping))
    {
      this.store := store;
      this.autoMerge := autoMerge;
      workers := new Phase[concurrency](_ => Looping);
      new;
      assert workers[..] == seq(concurrency, _ => Looping);
    }

    ghost function View(): Fleet
      reads this, store, workers
    {
      Fleet(store.state, workers[..])
    }

    /** The claim of a worker, if there is one to make. */
    method Claim(open: set<int>, ts: int) returns (claimed: Option<IssueState>)
      requires store.Valid() && Consistent(store.state)
      modifies store, store.recorder
      ensures var claim := ClaimNext(old(store.state), open);
        if claim.None? then claimed.None? && store.state == old(store.state) && store.Records([])
        else
          && claimed.Some? && claimed.value.number == claim.value.number
          && store.state == DispatchedAll(old(store.state), [claim.value]) && store.Records([claim.value])
    {
      hide LogHolds, ToJson, ActionToJson;
      ghost var claim := ClaimNext(store.state, open);
      if claim.Some? {
        DispatchedOne(store.state, claim.value);
        ActionsOfAppend(store.calls, Call(claim.value, ts));
      }
      claimed := store.ClaimNextIssue(open, ts);
      assert ActionsOf(old(store.calls)) + [] == ActionsOf(old(store.calls));
    }

    /** `_worker`, once the blockers have been read. */
    method Loop(open: set<int>, ts: int) returns (next: Phase)
      requires store.Valid() && Consistent(store.state)
      modifies store, store.recorder
      ensures var stretch := LoopStretch(old(store.state), open);
        && store.state == DispatchedAll(old(store.state), stretch.actions) && next == stretch.next
        && store.Records(stretch.actions)
    {
      hide Consistent, ClaimNext;
      DispatchedNone(store.state);
      var claimed := Claim(open, ts);
      if claimed.Some? { return Starting(claimed.value.number); }
      if IsDrained(store.state) { return Returned; }
      if ActiveCount(store.state) == 0 && AnyQueued(store.state) { return Rechecking; }
      next := Looping;
    }

    /** `_worker`, once they have been read again with force=True. */
    method Recheck(open: set<int>, ts: int) returns (next: Phase)
      requires store.Valid() && Consistent(store.state)
      modifies store, store.recorder
      ensures var stretch := RecheckStretch(old(store.state), open);
        && store.state == DispatchedAll(old(store.state), stretch.actions) && next == stretch.next
        && store.Records(stretch.actions)
    {
      hide Consistent, ClaimNext;
      DispatchedNone(store.state);
      var claimed := Claim(open, ts);
      next := if claimed.None? then Returned else Starting(claimed.value.number);
    }

    /** `_implement` and what `_process` makes of it: the savings, if they could be estimated, go to the log. */
    method Implement(n: int, input: Input, savings: Option<Json>, ts: int)
      returns (next: Phase, ghost done: seq<Action>)
      requires n in store.state.issues && input.Implemented? && store.Valid()
      modifies store, store.recorder
      ensures store.state == DispatchedAll(old(store.state), done) && store.Records(done)
      ensures var stretch := ProcessStretch(old(store.state), Implementing(n), input, autoMerge);
        stretch.Some? && stretch.value.actions == done && stretch.value.next == next
    {
      hide Reduce, DispatchedAll, LogHolds, ToJson, ActionsOf, CallAll, Store.Valid, Store.Saved;
      ghost var start, past := store.state, ActionsOf(store.calls);
      done := [];
      DispatchedNone(start);
      assert past + [] == past;
      next := Looping;
      done := store.DispatchMore(RecordCost(n, input.costUsd), ts, start, past, done);
      if savings.Some? { store.Note(savings.value, ts); }
      if !input.ok {
        done := store.DispatchMore(RecordFailure(n, Some(input.reason)), ts, start, past, done);
      } else if !Truthy(input.pr) {
        done := store.DispatchMore(RecordFailure(n, Some("no PR opened")), ts, start, past, done);
      } else {
        done := store.DispatchMore(SetPr(n, input.pr.value), ts, start, past, done);
        done := store.DispatchMore(SetStatus(n, PrOpen), ts, start, past, done);
        next := Gating(n, 0);
      }
    }

    /** `_process` and `_gate_and_fix`, from one await to the next. */
    method Process(p: Phase, input: Input, savings: Option<Json>, ts: int)
      returns (next: Phase, ghost done: seq<Action>)
      requires Busy(p) && p.issue in store.state.issues && store.Valid()
      requires ProcessStretch(store.state, p, input, autoMerge).Some?
      modifies store, store.recorder
      ensures store.state == DispatchedAll(old(store.state), done) && store.Records(done)
      ensures var stretch := ProcessStretch(old(store.state), p, input, autoMerge);
        stretch.Some? && stretch.value.actions == done && stretch.value.next == next
    {
      hide Reduce, DispatchedAll, LogHolds, ToJson, ActionsOf, CallAll, Store.Valid, Store.Saved;
      var n := p.issue;
      ghost var start, past := store.state, ActionsOf(store.calls);
      done := [];
      DispatchedNone(start);
      assert past + [] == past;
      next := Looping;
      if input.Raised? {
        done := store.DispatchMore(RecordFailure(n, Some("worker exception: " + input.error)), ts, start, past, done);
        return;
      }
      match p
      case Starting(_) =>
        var pr := if Truthy(store.state.issues[n].pr) then store.state.issues[n].pr else input.pr;
        if Truthy(pr) {
          done := store.DispatchMore(SetPr(n, pr.value), ts, start, past, done);
          done := store.DispatchMore(SetStatus(n, PrOpen), ts, start, past, done);
          next := Gating(n, 0);
        } else {
          done := store.DispatchMore(SetStatus(n, Running), ts, start, past, done);
          next := Implementing(n);
        }
      case Implementing(_) =>
        next, done := Implement(n, input, savings, ts);
      case Gating(_, attempts) =>
        if input.passed {
          if autoMerge { next := Merging(n); return; }
          done := store.DispatchMore(SetStatus(n, Commented), ts, start, past, done);
        } else if attempts >= MAX_FIX {
          done := store.DispatchMore(SetStatus(n, HumanReview), ts, start, past, done);
        } else {
          done := store.DispatchMore(SetStatus(n, Autofixing), ts, start, past, done);
          next := Fixing(n, attempts + 1);
        }
      case Merging(_) =>
        if input.ok {
          done := store.DispatchMore(SetStatus(n, Merged), ts, start, past, done);
        } else {
          done := store.DispatchMore(RecordFailure(n, Some("merge failed")), ts, start, past, done);
        }
      case Fixing(_, attempts) =>
        if input.ok { next := Gating(n, attempts); return; }
        done := store.DispatchMore(SetStatus(n, HumanReview), ts, start, past, done);
    }

    /** Worker `w` runs until its next await: exactly one move of the fleet, recorded as it was made. */
    method Step(w: nat, input: Input, savings: Option<Json>, ts: int)
      requires w < workers.Length && Inv(View()) && Answers(workers[w], input) && store.Valid()
      modifies store, store.recorder, workers
      ensures Next(old(View()), w, input, autoMerge) == Moved(View())
      ensures var stretch := WorkerStretch(old(store.state), old(workers[w]), input, autoMerge);
        stretch.Some? && store.Records(stretch.value.actions)
    {
      hide Reduce, Consistent, StepKind, LoopStretch, RecheckStretch, ProcessStretch, LogHolds, ToJson, ActionsOf,
        CallAll;
      ghost var before := View();
      var p := workers[w];
      assert before.workers[w] == p && WorkerOk(before, w);
      AnswersMove(before.store, p, input, autoMerge);
      var next: Phase;
      if p.Looping? {
        next := Loop(input.open, ts);
      } else if p.Rechecking? {
        next := Recheck(input.open, ts);
      } else {
        ghost var done;
        next, done := Process(p, input, savings, ts);
      }
      workers[w] := next;
      StepCases(before, w, input, autoMerge);
      assert workers[..] == before.workers[w := next];
    }
  }
}
