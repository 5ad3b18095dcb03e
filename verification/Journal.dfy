/** The flight recorder (agentrail/afk/journal.py): which actions it can write, how it writes them,
    and the log a session leaves behind. */
module Journal {
  import opened Collections
  import opened FleetState
  import opened Sequences
  import opened Snapshot

  // ---------------------------------------------------------------------------
  // Actions as JSON
  // ---------------------------------------------------------------------------

  /** `_ACTION_TYPES`: `SetBlockedBy` and `RecordCost` are not in it. */
  predicate Recordable(a: Action) {
    !a.SetBlockedBy? && !a.RecordCost?
  }

  function Tagged(name: string, number: int): map<string, Json> {
    map["type" := Str(name), "number" := Num(number)]
  }

  /** `action_to_dict`; None stands for the TypeError. */
  function ActionToJson(a: Action): (j: Option<Json>)
    ensures j.Some? <==> Recordable(a)
  {
    match a
    case EnqueueIssue(n, title, url, blockedBy) =>
      Some(Obj(Tagged("EnqueueIssue", n)["title" := Str(title)]["url" := Str(url)]
                     ["blocked_by" := NumArray(blockedBy)]))
    case ClaimIssue(n, k) => Some(Obj(Tagged("ClaimIssue", n)["slot" := Num(k)]))
    case ReleaseIssue(n) => Some(Obj(Tagged("ReleaseIssue", n)))
    case SetStatus(n, status) => Some(Obj(Tagged("SetStatus", n)["status" := Str(StatusName(status))]))
    case SetPr(n, pr) => Some(Obj(Tagged("SetPr", n)["pr" := Num(pr)]))
    case RecordFailure(n, error) => Some(Obj(Tagged("RecordFailure", n)["error" := OptStr(error)]))
    case IncrementReviewRound(n) => Some(Obj(Tagged("IncrementReviewRound", n)))
    case FreeSlot(k) => Some(Obj(map["type" := Str("FreeSlot"), "slot" := Num(k)]))
    case RequeueIssue(n) => Some(Obj(Tagged("RequeueIssue", n)))
    case SetBlockedBy(_, _) => None
    case RecordCost(_, _) => None
  }

  predicate HasNum(m: map<string, Json>, key: string) {
    key in m && m[key].Num?
  }

  predicate HasStr(m: map<string, Json>, key: string) {
    key in m && m[key].Str?
  }

  /** `action_from_dict`; None stands for the TypeError of an unknown type or a wrong field. */
  function ActionFromJson(j: Json): Option<Action> {
    if !j.Obj? || !HasStr(j.fields, "type") then None else
    var m := j.fields;
    var name := m["type"].s;
    if name == "FreeSlot" then if HasNum(m, "slot") then Some(FreeSlot(m["slot"].n)) else None
    else if !HasNum(m, "number") then None else
    var n := m["number"].n;
    if name == "EnqueueIssue" then
      var blockedBy := GetNums(m, "blocked_by");
      if HasStr(m, "title") && HasStr(m, "url") && blockedBy.Some? then
        Some(EnqueueIssue(n, m["title"].s, m["url"].s, blockedBy.value)) else None
    else if name == "ClaimIssue" then if HasNum(m, "slot") then Some(ClaimIssue(n, m["slot"].n)) else None
    else if name == "ReleaseIssue" then Some(ReleaseIssue(n))
    else if name == "SetStatus" then
      if HasStr(m, "status") then Some(SetStatus(n, CoerceStatus(m["status"].s))) else None
    else if name == "SetPr" then if HasNum(m, "pr") then Some(SetPr(n, m["pr"].n)) else None
    else if name == "RecordFailure" then
      var error := GetOptStr(m, "error");
      if error.Some? then Some(RecordFailure(n, error.value)) else None
    else if name == "IncrementReviewRound" then Some(IncrementReviewRound(n))
    else if name == "RequeueIssue" then Some(RequeueIssue(n))
    else None
  }

  lemma ActionRoundTrip(a: Action)
    requires Recordable(a)
    ensures ActionFromJson(ActionToJson(a).value) == Some(a)
  {
    hide ActionFromJson, ActionToJson;
    match a
    case EnqueueIssue(_, _, _, _) => EnqueueRoundTrip(a);
    case SetStatus(_, _) => SetStatusRoundTrip(a);
    case _ => OtherRoundTrips(a);
  }

  lemma SetStatusRoundTrip(a: Action)
    requires a.SetStatus?
    ensures ActionFromJson(ActionToJson(a).value) == Some(a)
  {
    hide CoerceStatus, StatusName, GetNums;
    StatusRoundTrip(a.status);
  }

  lemma OtherRoundTrips(a: Action)
    requires Recordable(a) && !a.EnqueueIssue? && !a.SetStatus?
    ensures ActionFromJson(ActionToJson(a).value) == Some(a)
  {
    hide CoerceStatus, StatusName, GetNums;
  }

  lemma EnqueueRoundTrip(a: Action)
    requires a.EnqueueIssue?
    ensures ActionFromJson(ActionToJson(a).value) == Some(a)
  {
    hide GetNums;
    NumsRoundTrip(ActionToJson(a).value.fields, "blocked_by", a.blockedBy);
  }

  // ---------------------------------------------------------------------------
  // The log
  // ---------------------------------------------------------------------------

  /** One line of the log. Other subsystems append lines of kinds the replay does not know. */
  datatype Event =
    | InitEvent(session: string, seqNo: int, ts: Option<int>, state: Json, digest: string)
    | ActionEvent(session: string, seqNo: int, ts: Option<int>, action: Json, digest: string)
    | OtherEvent(session: string, ts: Option<int>, payload: Json)

  /** One call of `dispatch`, at some time. */
  datatype Call = Call(action: Action, ts: int)

  /** The line `_record` appends after a dispatch, if the action can be written. */
  function RecordOf(session: string, seqNo: int, ts: int, after: AfkState, a: Action,
                    digest: Json -> string): Option<Event> {
    var j := ActionToJson(a);
    if j.None? then None
    else Some(ActionEvent(session, seqNo, Some(ts), j.value, digest(ToJson(after))))
  }

  function InitOf(session: string, ts: int, s: AfkState, digest: Json -> string): Event {
    InitEvent(session, 0, Some(ts), ToJson(s), digest(ToJson(s)))
  }

  /** The dispatch reaches its subscribers and is written. */
  predicate Logged(s: AfkState, a: Action) {
    Reduce(s, a).Ok? && Recordable(a)
  }

  /** The action lines of a session: one for each dispatch that is accepted and recordable. */
  function Recorded(session: string, seqNo: int, s: AfkState, calls: seq<Call>,
                    digest: Json -> string): seq<Event>
    decreases |calls|
  {
    if calls == [] then [] else
    var a, t := calls[0].action, Dispatched(s, calls[0].action);
    if Logged(s, a) then
      [RecordOf(session, seqNo, calls[0].ts, t, a, digest).value]
        + Recorded(session, seqNo + 1, t, calls[1..], digest)
    else Recorded(session, seqNo, t, calls[1..], digest)
  }

  function SessionLog(session: string, ts: int, s: AfkState, calls: seq<Call>,
                      digest: Json -> string): seq<Event> {
    [InitOf(session, ts, s, digest)] + Recorded(session, 1, s, calls, digest)
  }

  lemma {:induction false} RecordedAppend(session: string, seqNo: int, s: AfkState, calls: seq<Call>,
                                          c: Call, digest: Json -> string)
    ensures var t := CallAll(s, calls); var lines := Recorded(session, seqNo, s, calls, digest);
      Recorded(session, seqNo, s, calls + [c], digest)
        == lines + (if Logged(t, c.action)
                    then [RecordOf(session, seqNo + |lines|, c.ts, Dispatched(t, c.action), c.action, digest).value]
                    else [])
    decreases |calls|
  {
    hide Reduce, ToJson, ActionToJson, Recordable;
    if calls == [] {
      assert calls + [c] == [c];
      assert [c][1..] == [];
    } else {
      assert (calls + [c])[1..] == calls[1..] + [c];
      var t := Dispatched(s, calls[0].action);
      RecordedAppend(session, if Logged(s, calls[0].action) then seqNo + 1 else seqNo, t, calls[1..], c, digest);
    }
  }

  function ActionLines(events: seq<Event>): seq<Event> {
    if events == [] then []
    else (if events[0].ActionEvent? then [events[0]] else []) + ActionLines(events[1..])
  }

  /** The session's lines, with lines of other kinds strewn in. */
  ghost predicate Journals(events: seq<Event>, session: string, ts: int, s: AfkState, calls: seq<Call>,
                           digest: Json -> string) {
    && events != [] && events[0] == InitOf(session, ts, s, digest)
    && ActionLines(events[1..]) == Recorded(session, 1, s, calls, digest)
  }

  /** The log of a session at some moment: what earlier ones left, then lines of this session alone that
      journal the calls made since it was attached. */
  ghost predicate LogHolds(log: seq<Event>, seqNo: int, earlier: seq<Event>, session: string, attached: int,
                           start: AfkState, calls: seq<Call>, digest: Json -> string) {
    && earlier <= log && Journals(log[|earlier|..], session, attached, start, calls, digest)
    && (forall i | |earlier| <= i < |log| :: log[i].session == session)
    && seqNo == 1 + |Recorded(session, 1, start, calls, digest)|
  }

  lemma {:induction false} ActionLinesConcat(xs: seq<Event>, ys: seq<Event>)
    ensures ActionLines(xs + ys) == ActionLines(xs) + ActionLines(ys)
  {
    if xs == [] {
      assert xs + ys == ys;
    } else {
      assert (xs + ys)[0] == xs[0] && (xs + ys)[1..] == xs[1..] + ys;
      ActionLinesConcat(xs[1..], ys);
      ConcatAssociates(if xs[0].ActionEvent? then [xs[0]] else [], ActionLines(xs[1..]), ActionLines(ys));
    }
  }

  lemma {:induction false} RecordedAreActions(session: string, seqNo: int, s: AfkState, calls: seq<Call>,
                                              digest: Json -> string)
    ensures var lines := Recorded(session, seqNo, s, calls, digest); ActionLines(lines) == lines
    decreases |calls|
  {
    if calls != [] {
      var a, t := calls[0].action, Dispatched(s, calls[0].action);
      if Logged(s, a) {
        RecordedAreActions(session, seqNo + 1, t, calls[1..], digest);
        var lines := Recorded(session, seqNo, s, calls, digest);
        assert lines[1..] == Recorded(session, seqNo + 1, t, calls[1..], digest);
      } else {
        RecordedAreActions(session, seqNo, t, calls[1..], digest);
      }
    }
  }

  /** What the recorder alone leaves in the log journals its calls. */
  lemma SessionLogJournals(session: string, ts: int, s: AfkState, calls: seq<Call>, digest: Json -> string)
    ensures Journals(SessionLog(session, ts, s, calls, digest), session, ts, s, calls, digest)
  {
    hide ToJson, Reduce, Recorded;
    RecordedAreActions(session, 1, s, calls, digest);
    assert SessionLog(session, ts, s, calls, digest)[1..] == Recorded(session, 1, s, calls, digest);
  }

  lemma LogOpens(earlier: seq<Event>, session: string, ts: int, s: AfkState, digest: Json -> string)
    ensures LogHolds(earlier + SessionLog(session, ts, s, [], digest), 1, earlier, session, ts, s, [], digest)
  {
    hide ToJson;
    SessionLogJournals(session, ts, s, [], digest);
    var log := earlier + SessionLog(session, ts, s, [], digest);
    assert log[|earlier|..] == SessionLog(session, ts, s, [], digest);
  }

  lemma JournalsMore(own: seq<Event>, more: seq<Event>, session: string, ts: int, s: AfkState,
                     calls: seq<Call>, longer: seq<Call>, digest: Json -> string)
    requires Journals(own, session, ts, s, calls, digest)
    requires Recorded(session, 1, s, longer, digest) == Recorded(session, 1, s, calls, digest) + ActionLines(more)
    ensures Journals(own + more, session, ts, s, longer, digest)
  {
    hide ToJson, Recorded;
    ActionLinesConcat(own[1..], more);
    assert (own + more)[1..] == own[1..] + more;
  }

  /** The log goes on holding the session with each line that the recorder, or someone else in the session,
      appends. */
  lemma LogTakes(log: seq<Event>, seqNo: int, more: seq<Event>, earlier: seq<Event>, session: string,
                 attached: int, start: AfkState, calls: seq<Call>, longer: seq<Call>, digest: Json -> string)
    requires LogHolds(log, seqNo, earlier, session, attached, start, calls, digest)
    requires forall i | 0 <= i < |more| :: more[i].session == session
    requires Recorded(session, 1, start, longer, digest)
          == Recorded(session, 1, start, calls, digest) + ActionLines(more)
    ensures LogHolds(log + more, seqNo + |ActionLines(more)|, earlier, session, attached, start, longer, digest)
  {
    hide Journals, Recorded;
    JournalsMore(log[|earlier|..], more, session, attached, start, calls, longer, digest);
    assert (log + more)[|earlier|..] == log[|earlier|..] + more;
  }

  lemma LogTakesCall(log: seq<Event>, seqNo: int, earlier: seq<Event>, session: string, attached: int,
                     start: AfkState, calls: seq<Call>, c: Call, digest: Json -> string)
    requires LogHolds(log, seqNo, earlier, session, attached, start, calls, digest)
    ensures var s := CallAll(start, calls);
      var more := if Logged(s, c.action)
                  then [RecordOf(session, seqNo, c.ts, Dispatched(s, c.action), c.action, digest).value] else [];
      LogHolds(log + more, seqNo + |more|, earlier, session, attached, start, calls + [c], digest)
  {
    hide ToJson, ActionToJson, Reduce, Recorded, LogHolds;
    var s := CallAll(start, calls);
    var more := if Logged(s, c.action)
                then [RecordOf(session, seqNo, c.ts, Dispatched(s, c.action), c.action, digest).value] else [];
    assert more != [] ==> more[1..] == [];
    assert ActionLines(more) == more;
    NextSeqNo(log, seqNo, earlier, session, attached, start, calls, digest);
    RecordedAppend(session, 1, start, calls, c, digest);
    LogTakes(log, seqNo, more, earlier, session, attached, start, calls, calls + [c], digest);
  }

  lemma NextSeqNo(log: seq<Event>, seqNo: int, earlier: seq<Event>, session: string, attached: int,
                  start: AfkState, calls: seq<Call>, digest: Json -> string)
    requires LogHolds(log, seqNo, earlier, session, attached, start, calls, digest)
    ensures seqNo == 1 + |Recorded(session, 1, start, calls, digest)|
  {
  }

  lemma LogTakesNote(log: seq<Event>, seqNo: int, note: Event, earlier: seq<Event>, session: string, attached: int,
                     start: AfkState, calls: seq<Call>, digest: Json -> string)
    requires LogHolds(log, seqNo, earlier, session, attached, start, calls, digest)
    requires note.OtherEvent? && note.session == session
    ensures LogHolds(log + [note], seqNo, earlier, session, attached, start, calls, digest)
  {
    hide LogHolds, Recorded;
    assert [note][1..] == [];
    assert ActionLines([note]) == [];
    LogTakes(log, seqNo, [note], earlier, session, attached, start, calls, calls, digest);
  }

  function ActionsOf(calls: seq<Call>): seq<Action>
    decreases |calls|
  {
    if calls == [] then [] else [calls[0].action] + ActionsOf(calls[1..])
  }

  lemma {:induction false} ActionsOfAppend(calls: seq<Call>, c: Call)
    ensures ActionsOf(calls + [c]) == ActionsOf(calls) + [c.action]
    decreases |calls|
  {
    if calls == [] {
      assert calls + [c] == [c];
      assert [c][1..] == [];
    } else {
      assert (calls + [c])[1..] == calls[1..] + [c];
      ActionsOfAppend(calls[1..], c);
    }
  }

  function CallAll(s: AfkState, calls: seq<Call>): AfkState
    decreases |calls|
  {
    if calls == [] then s else CallAll(Dispatched(s, calls[0].action), calls[1..])
  }

  lemma {:induction false} CallAllAppend(s: AfkState, calls: seq<Call>, c: Call)
    ensures CallAll(s, calls + [c]) == Dispatched(CallAll(s, calls), c.action)
    decreases |calls|
  {
    if calls == [] {
      assert calls + [c] == [c];
      assert [c][1..] == [];
    } else {
      assert (calls + [c])[1..] == calls[1..] + [c];
      CallAllAppend(Dispatched(s, calls[0].action), calls[1..], c);
    }
  }

  /** The recorder as the source builds it: a closure over the session id, a counter and a file. */
  class Recorder {
    const session: string
    const digest: Json -> string
    var seqNo: int
    var log: seq<Event>

    /** `attach_journal`, appending to whatever earlier sessions left in the file. */
    constructor (session: string, earlier: seq<Event>, s: AfkState, ts: int, digest: Json -> string)
      ensures this.session == session && this.digest == digest
      ensures seqNo == 1
      ensures log == earlier + SessionLog(session, ts, s, [], digest)
    {
      this.session := session;
      this.digest := digest;
      seqNo := 1;
      log := earlier + [InitOf(session, ts, s, digest)];
    }

    /** `_record` */
    method Record(after: AfkState, a: Action, ts: int)
      modifies this
      ensures var line := RecordOf(session, old(seqNo), ts, after, a, digest);
        log == old(log) + (if line.Some? then [line.value] else []) &&
        seqNo == old(seqNo) + (if line.Some? then 1 else 0)
    {
      var line := RecordOf(session, seqNo, ts, after, a, digest);
      if line.Some? {
        log := log + [line.value];
        seqNo := seqNo + 1;
      }
    }

    /** A line of another kind, appended to the same file under the session's id. */
    method Note(payload: Json, ts: int)
      modifies this`log
      ensures log == old(log) + [OtherEvent(session, Some(ts), payload)]
    {
      log := log + [OtherEvent(session, Some(ts), payload)];
    }
  }

  // ---------------------------------------------------------------------------
  // Picking one session out of the log
  // ---------------------------------------------------------------------------

  function Sessions(events: seq<Event>): (r: seq<string>)
  {
    if events == [] then [] else
    var rest := Sessions(events[..|events| - 1]);
    var sid := events[|events| - 1].session;
    if sid == "" || sid in rest then rest else rest + [sid]
  }

  function OfSession(events: seq<Event>, sid: string): seq<Event> {
    if events == [] then [] else
    (if events[0].session == sid then [events[0]] else []) + OfSession(events[1..], sid)
  }

  /** `session_events`: the named session, or the one that started last. */
  function SessionEvents(events: seq<Event>, session: Option<string>): seq<Event> {
    var sids := Sessions(events);
    if sids == [] then []
    else OfSession(events, if session.Some? && session.value != "" then session.value else sids[|sids| - 1])
  }

  /** `list_sessions`: session ids in first-seen order. */
  method ListSessions(events: seq<Event>) returns (seen: seq<string>)
    ensures seen == Sessions(events)
    ensures forall sid :: sid in seen <==> sid != "" && exists i :: 0 <= i < |events| && events[i].session == sid
  {
    seen := [];
    for k := 0 to |events|
      invariant seen == Sessions(events[..k])
      invariant forall sid :: sid in seen <==> sid != "" && exists i :: 0 <= i < k && events[i].session == sid
    {
      assert events[..k + 1][..k] == events[..k];
      var sid := events[k].session;
      if sid != "" && sid !in seen {
        seen := seen + [sid];
      }
    }
    assert events[..|events|] == events;
  }

  lemma {:induction false} OfSessionConcat(xs: seq<Event>, ys: seq<Event>, sid: string)
    ensures OfSession(xs + ys, sid) == OfSession(xs, sid) + OfSession(ys, sid)
  {
    if xs == [] {
      assert xs + ys == ys;
    } else {
      var own := if xs[0].session == sid then [xs[0]] else [];
      assert (xs + ys)[0] == xs[0] && (xs + ys)[1..] == xs[1..] + ys;
      OfSessionConcat(xs[1..], ys, sid);
      ConcatAssociates(own, OfSession(xs[1..], sid), OfSession(ys, sid));
    }
  }

  lemma {:induction false} OfSessionAll(xs: seq<Event>, sid: string)
    ensures (forall i | 0 <= i < |xs| :: xs[i].session == sid) ==> OfSession(xs, sid) == xs
    ensures (forall i | 0 <= i < |xs| :: xs[i].session != sid) ==> OfSession(xs, sid) == []
  {
    if xs != [] { OfSessionAll(xs[1..], sid); }
  }

  lemma {:induction false} SessionsGrow(xs: seq<Event>, ys: seq<Event>, sid: string)
    requires sid != "" && ys != []
    requires forall i | 0 <= i < |xs| :: xs[i].session != sid
    requires forall i | 0 <= i < |ys| :: ys[i].session == sid
    ensures Sessions(xs + ys) == Sessions(xs) + [sid]
    decreases |ys|
  {
    SessionsAreSeen(xs);
    var zs := xs + ys;
    assert zs[..|zs| - 1] == xs + ys[..|ys| - 1];
    assert zs[|zs| - 1] == ys[|ys| - 1];
    if |ys| > 1 {
      SessionsGrow(xs, ys[..|ys| - 1], sid);
    } else {
      assert xs + ys[..|ys| - 1] == xs;
    }
  }

  lemma {:induction false} SessionsAreSeen(xs: seq<Event>)
    ensures forall sid | sid in Sessions(xs) :: exists i :: 0 <= i < |xs| && xs[i].session == sid
  {
    if xs != [] {
      var init := xs[..|xs| - 1];
      SessionsAreSeen(init);
      forall sid | sid in Sessions(xs) ensures exists i :: 0 <= i < |xs| && xs[i].session == sid {
        if sid in Sessions(init) {
          var i :| 0 <= i < |init| && init[i].session == sid;
          assert xs[i].session == sid;
        } else {
          assert xs[|xs| - 1].session == sid;
        }
      }
    }
  }

  /** Asking for the latest session of a log gives exactly the lines the last session appended if and only
      if its id is new. Ids are local times down to the second, so two sessions can share one. */
  lemma LatestSession(earlier: seq<Event>, own: seq<Event>, sid: string)
    requires sid != "" && own != []
    requires forall i | 0 <= i < |own| :: own[i].session == sid
    ensures SessionEvents(earlier + own, None) == own <==> forall i | 0 <= i < |earlier| :: earlier[i].session != sid
    ensures SessionEvents(earlier + own, Some(sid)) == own <==>
      forall i | 0 <= i < |earlier| :: earlier[i].session != sid
  {
    hide Sessions, OfSession;
    OfSessionConcat(earlier, own, sid);
    OfSessionAll(earlier, sid);
    OfSessionAll(own, sid);
    SessionsKeep(earlier, own, sid);
    if forall i | 0 <= i < |earlier| :: earlier[i].session != sid {
      SessionsGrow(earlier, own, sid);
    } else {
      OfSessionSome(earlier, sid);
      OtherSessionsLines(earlier, own, sid);
    }
  }

  lemma {:induction false} OfSessionSome(xs: seq<Event>, sid: string)
    ensures OfSession(xs, sid) != [] <==> exists i :: 0 <= i < |xs| && xs[i].session == sid
    ensures forall x | x in OfSession(xs, sid) :: x.session == sid
  {
    if xs != [] {
      OfSessionSome(xs[1..], sid);
      assert xs == [xs[0]] + xs[1..];
      if exists i :: 0 <= i < |xs| && xs[i].session == sid {
        var i :| 0 <= i < |xs| && xs[i].session == sid;
        assert i > 0 ==> xs[1..][i - 1].session == sid;
      }
      if i :| 0 <= i < |xs[1..]| && xs[1..][i].session == sid {
        assert xs[i + 1].session == sid;
      }
    }
  }

  /** Every id that is not blank is listed. */
  lemma SessionsKeep(earlier: seq<Event>, own: seq<Event>, sid: string)
    requires sid != "" && own != [] && own[|own| - 1].session == sid
    ensures Sessions(earlier + own) != []
  {
    assert (earlier + own)[|earlier + own| - 1].session == sid;
  }

  /** The lines of whichever session is listed last are not `own` if `sid` has lines before it. */
  lemma OtherSessionsLines(earlier: seq<Event>, own: seq<Event>, sid: string)
    requires sid != "" && own != [] && (forall i | 0 <= i < |own| :: own[i].session == sid)
    requires exists i :: 0 <= i < |earlier| && earlier[i].session == sid
    ensures forall other :: OfSession(earlier + own, other) != own
  {
    hide OfSession;
    forall other ensures OfSession(earlier + own, other) != own {
      OfSessionConcat(earlier, own, other);
      OfSessionSome(earlier, other);
      OfSessionAll(own, other);
      assert own[0] in own && own[0].session == sid;
    }
  }
}
