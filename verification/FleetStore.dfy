/** The store object (agentrail/afk/state.py, class Store) with the two subscribers every run
    attaches: the snapshot file and the journal. */
module FleetStore {
  import opened Collections
  import opened FleetState
  import opened Sequences
  import opened Snapshot
  import opened Journal

  class Store {
    var state: AfkState
    var persistent: bool
    var snapshot: Option<Json>
    var recorder: Recorder?
    ghost var earlier: seq<Event>
    ghost var attached: int
    ghost var start: AfkState
    ghost var calls: seq<Call>

    /** The state is where the calls led, and the log, once there is one, holds the session that made them. */
    ghost predicate Valid()
      reads this, recorder
    {
      && state == CallAll(start, calls)
      && (recorder != null ==>
            LogHolds(recorder.log, recorder.seqNo, earlier, recorder.session, attached, start, calls, recorder.digest))
    }

    /** The snapshot on disk is the state. */
    ghost predicate Saved()
      reads this
    {
      persistent ==> snapshot == Some(ToJson(state))
    }

    constructor (initial: AfkState, onDisk: Option<Json>)
      ensures Valid() && calls == []
      ensures state == initial && snapshot == onDisk && !persistent && recorder == null
    {
      state := initial;
      snapshot := onDisk;
      persistent := false;
      recorder := null;
      start := initial;
      calls := [];
    }

    /** `attach_persistence` */
    method AttachPersistence()
      modifies this`persistent
      ensures persistent && state == old(state) && recorder == old(recorder)
      ensures old(Valid()) ==> Valid()
    {
      persistent := true;
    }

    /** `attach_journal` */
    method AttachJournal(session: string, log: seq<Event>, ts: int, digest: Json -> string)
      modifies this`recorder, this`earlier, this`attached, this`start, this`calls
      ensures recorder != null && fresh(recorder)
      ensures recorder.session == session && recorder.digest == digest && recorder.seqNo == 1
      ensures recorder.log == log + SessionLog(session, ts, state, [], digest)
      ensures Valid() && earlier == log && attached == ts && start == state && calls == []
    {
      recorder := new Recorder(session, log, state, ts, digest);
      earlier, attached, start, calls := log, ts, state, [];
      LogOpens(log, session, ts, state, digest);
    }

    /** `dispatch`: a reducer that raises changes nothing and reaches no subscriber. */
    method Dispatch(a: Action, ts: int) returns (r: Result<AfkState, Error>)
      requires Valid()
      modifies this, recorder
      ensures r == Reduce(old(state), a) && state == Dispatched(old(state), a)
      ensures persistent == old(persistent) && recorder == old(recorder)
      ensures snapshot == if persistent && r.Ok? then Some(ToJson(state)) else old(snapshot)
      ensures recorder != null ==>
        var line := RecordOf(recorder.session, old(recorder.seqNo), ts, state, a, recorder.digest);
        var logged := r.Ok? && line.Some?;
        recorder.log == old(recorder.log) + (if logged then [line.value] else []) &&
        recorder.seqNo == old(recorder.seqNo) + (if logged then 1 else 0)
      ensures Valid() && earlier == old(earlier) && attached == old(attached) && start == old(start)
      ensures calls == old(calls) + [Call(a, ts)]
    {
      hide ToJson, ActionToJson, Reduce, LogHolds;
      CallAllAppend(start, calls, Call(a, ts));
      if recorder != null {
        LogTakesCall(recorder.log, recorder.seqNo, earlier, recorder.session, attached, start, calls, Call(a, ts),
                     recorder.digest);
        assert recorder.log + [] == recorder.log;
      }
      r := Reduce(state, a);
      calls := calls + [Call(a, ts)];
      if r.Err? { return; }
      state := r.value;
      if persistent {
        snapshot := Some(ToJson(state));
      }
      if recorder != null {
        recorder.Record(state, a, ts);
      }
    }

    /** `claim_next`: select and transition in one synchronous step, a dispatch like any other. */
    method ClaimNextIssue(open: set<int>, ts: int) returns (claimed: Option<IssueState>)
      requires Valid()
      modifies this, recorder
      ensures var claim := ClaimNext(old(state), open);
        if claim.None? then claimed.None? && state == old(state) && snapshot == old(snapshot) && calls == old(calls)
        else
          && state == Dispatched(old(state), claim.value)
          && claimed == Some(state.issues[claim.value.number])
          && claimed.value.status.Claimed? && claimed.value.slot == Some(claim.value.slot)
          && !Withheld(claimed.value, open)
          && (forall n | n in old(state).issues && Claimable(old(state).issues[n], open) :: claim.value.number <= n)
          && snapshot == (if persistent then Some(ToJson(state)) else old(snapshot))
          && calls == old(calls) + [Call(claim.value, ts)]
      ensures persistent == old(persistent) && recorder == old(recorder)
      ensures recorder != null ==>
        var claim := ClaimNext(old(state), open);
        var lines := if claim.None? then [] else
          [RecordOf(recorder.session, old(recorder.seqNo), ts, state, claim.value, recorder.digest).value];
        recorder.log == old(recorder.log) + lines && recorder.seqNo == old(recorder.seqNo) + |lines|
      ensures Valid() && earlier == old(earlier) && attached == old(attached) && start == old(start)
    {
      hide ToJson, ActionToJson, LogHolds;
      claimed := None;
      var next := NextClaimable(state, open);
      if next.None? { return; }
      var slot := FreeSlotIndex(state);
      if slot.None? { return; }
      var _ := Dispatch(ClaimIssue(next.value, slot.value), ts);
      claimed := Some(state.issues[next.value]);
    }

    /** The object goes on recording, from `before` on, the actions just dispatched and nothing else. */
    twostate predicate Records(done: seq<Action>)
      reads this, recorder
    {
      && Valid() && recorder == old(recorder) && persistent == old(persistent)
      && earlier == old(earlier) && attached == old(attached) && start == old(start)
      && old(calls) <= calls && ActionsOf(calls) == old(ActionsOf(calls)) + done
      && (old(Saved()) ==> Saved())
    }

    /** Dispatch one more of the actions that a coroutine dispatches in one go; `done` are those before it. */
    method DispatchMore(a: Action, ts: int, ghost from: AfkState, ghost past: seq<Action>, ghost done: seq<Action>)
      returns (ghost more: seq<Action>)
      requires Valid() && state == DispatchedAll(from, done) && ActionsOf(calls) == past + done
      modifies this, recorder
      ensures more == done + [a] && state == DispatchedAll(from, more) && ActionsOf(calls) == past + more
      ensures Records([a])
    {
      hide Reduce, LogHolds, ToJson, ActionToJson;
      ActionsOfAppend(calls, Call(a, ts));
      ConcatAssociates(past, done, [a]);
      var _ := Dispatch(a, ts);
      more := done + [a];
      DispatchedAllConcat(from, done, [a]);
      DispatchedOne(DispatchedAll(from, done), a);
    }

    /** A line somebody else adds to the log under the session's id, as the runner does with its savings. */
    method Note(payload: Json, ts: int)
      requires Valid()
      modifies recorder
      ensures recorder != null ==>
        recorder.log == old(recorder.log) + [OtherEvent(recorder.session, Some(ts), payload)] &&
        recorder.seqNo == old(recorder.seqNo)
      ensures Valid()
    {
      hide LogHolds;
      if recorder != null {
        LogTakesNote(recorder.log, recorder.seqNo, OtherEvent(recorder.session, Some(ts), payload), earlier,
                     recorder.session, attached, start, calls, recorder.digest);
        recorder.Note(payload, ts);
      }
    }
  }
}
