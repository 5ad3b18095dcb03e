/** The JSON form of the fleet's state (agentrail/afk/store.py). */
module Snapshot {
  import opened Collections
  import opened Decimal
  import opened FleetState

  datatype Json =
    | Null
    | Num(n: int)
    | Str(s: string)
    | Arr(items: seq<Json>)
    | Obj(fields: map<string, Json>)

  // ---------------------------------------------------------------------------
  // Status names
  // ---------------------------------------------------------------------------

  function StatusName(s: IssueStatus): string {
    match s
    case Queued => "queued"
    case Claimed => "claimed"
    case Running => "running"
    case PrOpen => "pr_open"
    case Autofixing => "autofixing"
    case Merged => "merged"
    case Commented => "commented"
    case HumanReview => "human_review"
    case Failed => "failed"
  }

  /** A status this version does not know reads as HUMAN_REVIEW. */
  function CoerceStatus(name: string): IssueStatus {
    if name == "queued" then Queued
    else if name == "claimed" then Claimed
    else if name == "running" then Running
    else if name == "pr_open" then PrOpen
    else if name == "autofixing" then Autofixing
    else if name == "merged" then Merged
    else if name == "commented" then Commented
    else if name == "failed" then Failed
    else HumanReview
  }

  // ---------------------------------------------------------------------------
  // Writing
  // ---------------------------------------------------------------------------

  function OptNum(n: Option<int>): Json {
    if n.Some? then Num(n.value) else Null
  }

  function OptStr(s: Option<string>): Json {
    if s.Some? then Str(s.value) else Null
  }

  function NumArray(xs: seq<int>): Json {
    Arr(seq(|xs|, i requires 0 <= i < |xs| => Num(xs[i])))
  }

  function IssueToJson(i: IssueState): Json {
    Obj(map[
      "number" := Num(i.number), "title" := Str(i.title), "url" := Str(i.url),
      "status" := Str(StatusName(i.status)), "pr" := OptNum(i.pr), "slot" := OptNum(i.slot),
      "retries" := Num(i.retries), "review_rounds" := Num(i.reviewRounds),
      "error" := OptStr(i.error), "blocked_by" := NumArray(i.blockedBy)])
  }

  /** A dictionary with integer keys and values that `write` turns into JSON. */
  function DictToJson<V>(m: map<int, V>, write: V -> Json,
                         enc: int -> string, dec: string -> Option<int>): map<string, Json>
    requires Codec(enc, dec)
  {
    Keyed(map k | k in m :: write(m[k]), enc, dec)
  }

  function WriteDict<V>(m: map<int, V>, write: V -> Json): Json {
    DecimalCodec();
    Obj(DictToJson(m, write, Dec, ParseDec))
  }

  /** `to_dict` */
  function ToJson(s: AfkState): Json {
    Obj(map[
      "schemaVersion" := Num(1),
      "concurrency" := Num(s.concurrency), "max_retries" := Num(s.maxRetries),
      "completed" := Num(s.completed), "failed" := Num(s.failed),
      "slots" := WriteDict(s.slots, OptNum), "issues" := WriteDict(s.issues, IssueToJson)])
  }

  // ---------------------------------------------------------------------------
  // Reading; None stands for the exceptions that make `load_snapshot` give up
  // ---------------------------------------------------------------------------

  function GetNum(m: map<string, Json>, key: string, default: int): Option<int> {
    if key !in m then Some(default) else if m[key].Num? then Some(m[key].n) else None
  }

  function GetStr(m: map<string, Json>, key: string, default: string): Option<string> {
    if key !in m then Some(default) else if m[key].Str? then Some(m[key].s) else None
  }

  function GetOptNum(m: map<string, Json>, key: string): Option<Option<int>> {
    if key !in m || m[key].Null? then Some(None)
    else if m[key].Num? then Some(Some(m[key].n)) else None
  }

  function GetOptStr(m: map<string, Json>, key: string): Option<Option<string>> {
    if key !in m || m[key].Null? then Some(None)
    else if m[key].Str? then Some(Some(m[key].s)) else None
  }

  function GetNums(m: map<string, Json>, key: string): Option<seq<int>> {
    if key !in m then Some([])
    else if m[key].Arr? && (forall i | 0 <= i < |m[key].items| :: m[key].items[i].Num?) then
      Some(seq(|m[key].items|, i requires 0 <= i < |m[key].items| => m[key].items[i].n))
    else None
  }

  function IssueFromJson(j: Json): Option<IssueState> {
    if !j.Obj? || "number" !in j.fields || !j.fields["number"].Num? then None else
    var m := j.fields;
    var title, url := GetStr(m, "title", ""), GetStr(m, "url", "");
    var status := GetStr(m, "status", "queued");
    var pr, slot := GetOptNum(m, "pr"), GetOptNum(m, "slot");
    var retries, rounds := GetNum(m, "retries", 0), GetNum(m, "review_rounds", 0);
    var error, blockedBy := GetOptStr(m, "error"), GetNums(m, "blocked_by");
    if title.None? || url.None? || status.None? || pr.None? || slot.None? || retries.None?
       || rounds.None? || error.None? || blockedBy.None? then None
    else Some(IssueState(m["number"].n, title.value, url.value, CoerceStatus(status.value),
                         pr.value, slot.value, retries.value, rounds.value,
                         error.value, 0.0, blockedBy.value))
  }

  function SlotFromJson(j: Json): Option<Option<int>> {
    if j.Null? then Some(None) else if j.Num? then Some(Some(j.n)) else None
  }

  function DictFromJson<V>(f: map<string, Json>, read: Json -> Option<V>,
                           enc: int -> string, dec: string -> Option<int>): Option<map<int, V>>
    requires Codec(enc, dec)
  {
    if !KeysParse(f, dec) || (exists j | j in f.Values :: read(j).None?) then None
    else
      var m := Unkeyed(f, enc, dec);
      assert forall k | k in m :: m[k] in f.Values;
      Some(map k | k in m :: read(m[k]).value)
  }

  function ReadDict<V>(m: map<string, Json>, key: string, read: Json -> Option<V>): Option<map<int, V>> {
    DecimalCodec();
    if key !in m then Some(map[])
    else if m[key].Obj? then DictFromJson(m[key].fields, read, Dec, ParseDec) else None
  }

  /** `from_dict` */
  function FromJson(j: Json): Option<AfkState> {
    if !j.Obj? then None else
    var m := j.fields;
    var slots, issues := ReadDict(m, "slots", SlotFromJson), ReadDict(m, "issues", IssueFromJson);
    var concurrency, maxRetries := GetNum(m, "concurrency", 2), GetNum(m, "max_retries", 2);
    var completed, failed := GetNum(m, "completed", 0), GetNum(m, "failed", 0);
    if slots.None? || issues.None? || concurrency.None? || maxRetries.None?
       || completed.None? || failed.None? then None
    else Some(AfkState(issues.value, slots.value, concurrency.value, maxRetries.value,
                       completed.value, failed.value))
  }

  // ---------------------------------------------------------------------------
  // Round trips
  // ---------------------------------------------------------------------------

  function MapValues<V>(m: map<int, V>, f: V -> V): map<int, V> {
    map k | k in m :: f(m[k])
  }

  /** What a snapshot keeps of a state: everything but the costs. */
  function Costless(s: AfkState): AfkState {
    s.(issues := MapValues(s.issues, WithoutCost))
  }

  lemma StatusRoundTrip(s: IssueStatus)
    ensures CoerceStatus(StatusName(s)) == s
  {
    match s
    case Queued => case Claimed => case Running => case PrOpen => case Autofixing =>
    case Merged => case Commented => case HumanReview => case Failed =>
  }

  lemma NumsRoundTrip(m: map<string, Json>, key: string, xs: seq<int>)
    requires key in m && m[key] == NumArray(xs)
    ensures GetNums(m, key) == Some(xs)
  {
    assert GetNums(m, key).value == xs;
  }

  lemma IssueRoundTrip(i: IssueState)
    ensures IssueFromJson(IssueToJson(i)) == Some(i.(costUsd := 0.0))
  {
    hide IssueToJson, IssueFromJson, GetNums, CoerceStatus, StatusName;
    WrittenIssue(i);
    var m := IssueToJson(i).fields;
    StatusRoundTrip(i.status);
    NumsRoundTrip(m, "blocked_by", i.blockedBy);
    ReadIssue(m, i);
  }

  lemma WrittenIssue(i: IssueState)
    ensures var j := IssueToJson(i);
      && j.Obj? && WritesFields(j.fields, i)
      && "blocked_by" in j.fields && j.fields["blocked_by"] == NumArray(i.blockedBy)
  {
  }

  /** The fields of an issue but for its blockers. */
  predicate WritesFields(m: map<string, Json>, i: IssueState) {
    && "number" in m && m["number"] == Num(i.number)
    && GetStr(m, "title", "") == Some(i.title) && GetStr(m, "url", "") == Some(i.url)
    && GetStr(m, "status", "queued") == Some(StatusName(i.status))
    && GetOptNum(m, "pr") == Some(i.pr) && GetOptNum(m, "slot") == Some(i.slot)
    && GetNum(m, "retries", 0) == Some(i.retries) && GetNum(m, "review_rounds", 0) == Some(i.reviewRounds)
    && GetOptStr(m, "error") == Some(i.error)
  }

  lemma ReadIssue(m: map<string, Json>, i: IssueState)
    requires WritesFields(m, i) && GetNums(m, "blocked_by") == Some(i.blockedBy)
    requires CoerceStatus(StatusName(i.status)) == i.status
    ensures IssueFromJson(Obj(m)) == Some(i.(costUsd := 0.0))
  {
  }

  /** Reading what `write` wrote gives the value as `kept` keeps it. */
  ghost predicate RoundTrips<V(!new)>(write: V -> Json, read: Json -> Option<V>, kept: V -> V) {
    forall v :: read(write(v)) == Some(kept(v))
  }

  ghost predicate Unwritten<V(!new)>(write: V -> Json, kept: V -> V) {
    forall v :: write(kept(v)) == write(v)
  }

  lemma DictRoundTrip<V(!new)>(m: map<int, V>, write: V -> Json, read: Json -> Option<V>, kept: V -> V,
                         enc: int -> string, dec: string -> Option<int>)
    requires Codec(enc, dec) && RoundTrips(write, read, kept)
    ensures DictFromJson(DictToJson(m, write, enc, dec), read, enc, dec)
         == Some(MapValues(m, kept))
  {
    var written := map k | k in m :: write(m[k]);
    KeyedRoundTrip(written, enc, dec);
    assert (map k | k in written :: read(written[k]).value) == MapValues(m, kept);
  }

  function WithoutCost(i: IssueState): IssueState {
    i.(costUsd := 0.0)
  }

  function KeptSlot(slot: Option<int>): Option<int> { slot }

  lemma WrittenDict<V(!new)>(m: map<string, Json>, key: string, dict: map<int, V>,
                       write: V -> Json, read: Json -> Option<V>, kept: V -> V)
    requires key in m && m[key] == WriteDict(dict, write)
    requires RoundTrips(write, read, kept)
    ensures ReadDict(m, key, read) == Some(MapValues(dict, kept))
  {
    DecimalCodec();
    DictRoundTrip(dict, write, read, kept, Dec, ParseDec);
  }

  lemma IssuesRoundTrip()
    ensures RoundTrips(OptNum, SlotFromJson, KeptSlot)
    ensures RoundTrips(IssueToJson, IssueFromJson, WithoutCost)
    ensures Unwritten(IssueToJson, WithoutCost)
  {
    forall i ensures IssueFromJson(IssueToJson(i)) == Some(WithoutCost(i)) {
      IssueRoundTrip(i);
    }
    forall i ensures IssueToJson(WithoutCost(i)) == IssueToJson(i) {
      CostUnwritten(i);
    }
  }

  lemma SlotsKept(slots: map<int, Option<int>>)
    ensures MapValues(slots, KeptSlot) == slots
  {
    assert MapValues(slots, KeptSlot).Keys == slots.Keys;
  }

  lemma WrittenFields(s: AfkState)
    ensures var m := ToJson(s).fields;
      && "slots" in m && m["slots"] == WriteDict(s.slots, OptNum)
      && "issues" in m && m["issues"] == WriteDict(s.issues, IssueToJson)
      && GetNum(m, "concurrency", 2) == Some(s.concurrency)
      && GetNum(m, "max_retries", 2) == Some(s.maxRetries)
      && GetNum(m, "completed", 0) == Some(s.completed)
      && GetNum(m, "failed", 0) == Some(s.failed)
  {
  }

  lemma ReadFields(m: map<string, Json>, slots: map<int, Option<int>>, issues: map<int, IssueState>,
                   concurrency: int, maxRetries: int, completed: int, failed: int)
    requires ReadDict(m, "slots", SlotFromJson) == Some(slots)
    requires ReadDict(m, "issues", IssueFromJson) == Some(issues)
    requires GetNum(m, "concurrency", 2) == Some(concurrency)
    requires GetNum(m, "max_retries", 2) == Some(maxRetries)
    requires GetNum(m, "completed", 0) == Some(completed)
    requires GetNum(m, "failed", 0) == Some(failed)
    ensures FromJson(Obj(m)) == Some(AfkState(issues, slots, concurrency, maxRetries, completed, failed))
  {
  }

  /** Loading what was written gives the state back, costs aside. */
  lemma StateRoundTrip(s: AfkState)
    ensures FromJson(ToJson(s)) == Some(Costless(s))
  {
    var m := ToJson(s).fields;
    WrittenFields(s);
    IssuesRoundTrip();
    WrittenDict(m, "slots", s.slots, OptNum, SlotFromJson, KeptSlot);
    WrittenDict(m, "issues", s.issues, IssueToJson, IssueFromJson, WithoutCost);
    SlotsKept(s.slots);
    ReadFields(m, s.slots, Costless(s).issues, s.concurrency, s.maxRetries, s.completed, s.failed);
  }

  /** Two states have the same snapshot exactly when they agree on everything but costs. */
  lemma SameSnapshot(s: AfkState, t: AfkState)
    ensures ToJson(s) == ToJson(t) <==> Costless(s) == Costless(t)
  {
    StateRoundTrip(s);
    StateRoundTrip(t);
    CostlessWrites(s);
    CostlessWrites(t);
  }

  lemma CostlessWrites(s: AfkState)
    ensures ToJson(Costless(s)) == ToJson(s)
  {
    hide IssueToJson;
    IssuesRoundTrip();
    SameDict(s.issues, IssueToJson, WithoutCost);
  }

  lemma CostUnwritten(i: IssueState)
    ensures IssueToJson(WithoutCost(i)) == IssueToJson(i)
  {
  }

  lemma SameDict<V(!new)>(m: map<int, V>, write: V -> Json, kept: V -> V)
    requires Unwritten(write, kept)
    ensures WriteDict(MapValues(m, kept), write) == WriteDict(m, write)
  {
    var n := MapValues(m, kept);
    assert (map k | k in n :: write(n[k])) == map k | k in m :: write(m[k]);
  }
}
