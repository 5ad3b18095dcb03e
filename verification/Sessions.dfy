/** Runs of the workers inside sessions: what the workers dispatch is exactly the disciplined work
    that the results about histories and journals start from. */
module Sessions {
  import opened Collections
  import opened FleetState
  import opened Runner
  import opened RunnerTheorems
  import opened Resume

  /** Everything the workers dispatch in the first `i` moves of a run. */
  function RunActions(trace: seq<Fleet>, moves: seq<Move>, autoMerge: bool, i: nat): seq<Action>
    requires i <= |moves| < |trace|
  {
    if i == 0 then [] else
    var f, move := trace[i - 1], moves[i - 1];
    RunActions(trace, moves, autoMerge, i - 1) +
      (if 0 <= move.worker < |f.workers| then
         var stretch := WorkerStretch(f.store, f.workers[move.worker], move.input, autoMerge);
         if stretch.Some? then stretch.value.actions else []
       else [])
  }

  /** The workers keep the runner's discipline, whatever happens around them. */
  lemma {:induction false} RunIsDisciplined(trace: seq<Fleet>, moves: seq<Move>, autoMerge: bool, i: nat)
    requires Run(trace, moves, autoMerge) && i <= |moves|
    ensures DisciplinedAll(trace[0].store, RunActions(trace, moves, autoMerge, i))
    ensures DispatchedAll(trace[0].store, RunActions(trace, moves, autoMerge, i)) == trace[i].store
  {
    hide Reduce, Disciplined, Inv, StepKind, WorkerStretch;
    if i > 0 {
      RunIsDisciplined(trace, moves, autoMerge, i - 1);
      var f, move := trace[i - 1], moves[i - 1];
      assert Next(f, move.worker, move.input, autoMerge) == Moved(trace[i - 1 + 1]);
      RunKeepsInv(trace, moves, autoMerge, i - 1);
      StepCases(f, move.worker, move.input, autoMerge);
      var done := RunActions(trace, moves, autoMerge, i - 1);
      var more := WorkerStretch(f.store, f.workers[move.worker], move.input, autoMerge).value.actions;
      assert RunActions(trace, moves, autoMerge, i) == done + more;
      DisciplinedAllConcat(trace[0].store, done, more);
      DispatchedAllConcat(trace[0].store, done, more);
    }
  }

  /** After any history, a resumed session may start its workers; and whenever it is cut short, the
      session extends the history. So every result about histories covers real runs. */
  lemma RunsExtendHistories(sessions: seq<Session>, concurrency: int, maxRetries: int, items: seq<Item>,
                            trace: seq<Fleet>, moves: seq<Move>, autoMerge: bool, dispatched: nat)
    requires History(sessions) && concurrency >= 1
    requires var base := BaseOf(DiskAfter(sessions), concurrency, maxRetries);
      && |trace| == |moves| + 1 && trace[0].store == Seeded(base, items)
      && trace[0].workers == seq(concurrency, _ => Looping)
    requires forall i | 0 <= i < |moves| ::
      Next(trace[i], moves[i].worker, moves[i].input, autoMerge) == Moved(trace[i + 1])
    ensures Run(trace, moves, autoMerge)
    ensures History(sessions + [Session(concurrency, maxRetries, items,
                      RunActions(trace, moves, autoMerge, |moves|), dispatched)])
  {
    hide Reduce, Disciplined, Next, Consistent, Counted, Ready, LastFor, BaseOf, DiskAfter, Seeded, RunActions;
    ResumeAfterHistory(sessions, concurrency, maxRetries, items);
    RunIsDisciplined(trace, moves, autoMerge, |moves|);
    var session := Session(concurrency, maxRetries, items,
                           RunActions(trace, moves, autoMerge, |moves|), dispatched);
    assert (sessions + [session])[..|sessions|] == sessions;
  }
}
