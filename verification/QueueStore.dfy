/** The durable Issue Queue (agentrail/afk/queue_store.py): rows under a stable identity, an in-memory
    map from entry numbers to identities, and the pure state machine in between. The row id, a hash of
    the identity, is the identity itself here; the number of an identity is a given function. */
module QueueStore {
  import opened Collections
  import opened QueueState
  import Decimal

  datatype Identity = Identity(workspace: string, source: string, externalId: string)

  datatype Row = Row(title: string, body: string, tier: int, budget: int, state: string, blockedBy: seq<int>,
                     parkReason: Option<string>, createdAt: int, updatedAt: int)

  /** The table and the store's memory. */
  datatype Db = Db(rows: map<Identity, Row>, identity: map<int, Identity>)

  /** What the input-contract gate says; a guardrail parks with a reason. */
  datatype Gate = Reject | Admitted | ParkFor(reason: string)

  datatype StoreError = Machine(error: Error) | UnknownEntry(number: int) | UnknownTier(tier: int)

  // ---------------------------------------------------------------------------
  // Entries and rows
  // ---------------------------------------------------------------------------

  function StateValue(s: State): string {
    match s
    case Queued => "queued"
    case Parked => "parked"
    case Running => "running"
    case Green => "green"
    case EscalatedToHuman => "escalated-to-human"
    case Blocked => "blocked"
  }

  /** `_parse_state`; None stands for the ValueError. */
  function ParseState(s: string): (r: Option<State>)
    ensures r.Some? ==> StateValue(r.value) == s
  {
    if s == "queued" then Some(Queued)
    else if s == "parked" then Some(Parked)
    else if s == "running" then Some(Running)
    else if s == "green" then Some(Green)
    else if s == "escalated-to-human" then Some(EscalatedToHuman)
    else if s == "blocked" then Some(Blocked)
    else None
  }

  lemma StateRoundTrip(s: State)
    ensures ParseState(StateValue(s)) == Some(s)
  {
  }

  function NoneIfEmpty(s: string): Option<string> {
    if s == "" then None else Some(s)
  }

  /** The columns an entry is written to. */
  function Written(row: Row, e: Entry, now: int): Row {
    row.(tier := e.tier, budget := e.budget, state := StateValue(e.state),
         blockedBy := Ascending(e.blockedBy), parkReason := NoneIfEmpty(e.reason), updatedAt := now)
  }

  /** `_row_to_entry`; an unknown state or tier raises. */
  function RowToEntry(row: Row, number: int, maxTier: int): Option<Entry> {
    var state := ParseState(row.state);
    if state.None? || !(0 <= row.tier <= maxTier) then None
    else Some(Entry(number, row.tier, row.budget, state.value, Elements(row.blockedBy),
                    if row.parkReason.Some? then row.parkReason.value else ""))
  }

  /** What is written is what is read back. */
  lemma RowRoundTrip(row: Row, e: Entry, now: int, maxTier: int)
    requires 0 <= e.tier <= maxTier
    ensures RowToEntry(Written(row, e, now), e.number, maxTier) == Some(e)
  {
    StateRoundTrip(e.state);
    assert Elements(Ascending(e.blockedBy)) == e.blockedBy;
  }

  /** The row is one this store wrote. */
  predicate RowOk(row: Row, maxTier: int) {
    && 0 <= row.tier <= maxTier && row.budget >= 0 && ParseState(row.state).Some?
    && row.blockedBy == Ascending(Elements(row.blockedBy)) && row.parkReason != Some("")
  }

  lemma WrittenIsOk(row: Row, e: Entry, now: int, maxTier: int)
    requires 0 <= e.tier <= maxTier && e.budget >= 0
    ensures RowOk(Written(row, e, now), maxTier)
  {
    RowRoundTrip(row, e, now, maxTier);
    assert Elements(Ascending(e.blockedBy)) == e.blockedBy;
  }

  /** Equal in every column but the time of the last write. */
  predicate SameLife(a: Row, b: Row) {
    a == b.(updatedAt := a.updatedAt)
  }

  /** Writing a row's own entry back changes nothing but that time. */
  lemma WriteBack(row: Row, number: int, now: int, maxTier: int)
    requires RowOk(row, maxTier)
    ensures RowToEntry(row, number, maxTier).Some?
    ensures SameLife(Written(row, RowToEntry(row, number, maxTier).value, now), row)
  {
  }

  // ---------------------------------------------------------------------------
  // Operations
  // ---------------------------------------------------------------------------

  const FIRST_BUDGET := 2

  /** The entry `enqueue` mints: every declared blocker counts as open, and a guardrail park is not
      overlaid with the alignment gate. */
  function Minted(number: int, blockedBy: set<int>, gate: Gate, aligned: bool): Entry {
    var plain := Entry(number, 0, FIRST_BUDGET, Queued, blockedBy, "");
    var gated := if gate.ParkFor? then plain.(state := Parked, reason := gate.reason) else plain;
    var entry := Admit(gated, blockedBy);
    if gate.ParkFor? then entry else ApplyAdmissionAlignment(entry, aligned)
  }

  datatype Op =
    | Enqueue(id: Identity, title: string, body: string, blockedBy: set<int>, gate: Gate, aligned: bool, now: int)
    | Grab(id: Identity)
    | Step(entry: Entry, event: Event, now: int)

  type Numbering = Identity -> int

  predicate Grabbable(db: Db, id: Identity) {
    id in db.rows && db.rows[id].state == "queued"
  }

  function Enqueued(db: Db, op: Op, numberOf: Numbering): Db
    requires op.Enqueue?
  {
    if op.gate.Reject? then db else
      var entry := Minted(numberOf(op.id), op.blockedBy, op.gate, op.aligned);
      var row := Written(Row(op.title, op.body, 0, 0, "", [], None, op.now, op.now), entry, op.now);
      Db(if op.id in db.rows then db.rows else db.rows[op.id := row], db.identity[entry.number := op.id])
  }

  function Stepped(db: Db, entry: Entry, event: Event, now: int, maxTier: int): Db {
    var next := Transition(entry, event, maxTier);
    if next.Err? || entry.number !in db.identity then db else
      var id := db.identity[entry.number];
      if id in db.rows then db.(rows := db.rows[id := Written(db.rows[id], next.value, now)]) else db
  }

  /** The store after one operation. */
  function Apply(db: Db, op: Op, numberOf: Numbering, maxTier: int): Db {
    match op
    case Enqueue(_, _, _, _, _, _, _) => Enqueued(db, op, numberOf)
    case Grab(id) => if Grabbable(db, id) then db.(identity := db.identity[numberOf(id) := id]) else db
    case Step(entry, event, now) => Stepped(db, entry, event, now, maxTier)
  }

  class Store {
    const numberOf: Numbering
    const maxTier: int
    var rows: map<Identity, Row>
    var identity: map<int, Identity>

    constructor (rows: map<Identity, Row>, numberOf: Numbering, maxTier: int)
      ensures View() == Db(rows, map[]) && this.numberOf == numberOf && this.maxTier == maxTier
    {
      this.rows, this.numberOf, this.maxTier := rows, numberOf, maxTier;
      identity := map[];
    }

    ghost function View(): Db
      reads this
    {
      Db(rows, identity)
    }

    /** The `insert_entry` statement: ON CONFLICT DO NOTHING. */
    method InsertEntry(id: Identity, row: Row)
      modifies this`rows
      ensures rows == if id in old(rows) then old(rows) else old(rows)[id := row]
    {
      if id !in rows { rows := rows[id := row]; }
    }

    /** `enqueue`: None for an issue the gate rejects. */
    method EnqueueIssue(id: Identity, title: string, body: string, blockedBy: set<int>, gate: Gate,
                        aligned: bool, now: int) returns (r: Option<Entry>)
      modifies this
      ensures View() == Apply(old(View()), Enqueue(id, title, body, blockedBy, gate, aligned, now), numberOf, maxTier)
      ensures r == if gate.Reject? then None else Some(Minted(numberOf(id), blockedBy, gate, aligned))
    {
      if gate.Reject? { return None; }
      var number := numberOf(id);
      var gated := Entry(number, 0, FIRST_BUDGET, Queued, blockedBy, "");
      if gate.ParkFor? { gated := gated.(state := Parked, reason := gate.reason); }
      var v2Parked := gated.state.Parked?;
      var entry := Admit(gated, blockedBy);
      if !v2Parked { entry := ApplyAdmissionAlignment(entry, aligned); }
      identity := identity[entry.number := id];
      InsertEntry(id, Row(title, body, entry.tier, entry.budget, StateValue(entry.state),
                          Ascending(entry.blockedBy), NoneIfEmpty(entry.reason), now, now));
      r := Some(entry);
    }

    /** `next_grabbable`: a queued row of the workspace that no other precedes, ties being left to the
        database. A tier the machine does not know raises, after the row's identity was noted. */
    method NextGrabbable(workspace: string) returns (r: Result<Option<Entry>, StoreError>, ghost id: Identity)
      modifies this`identity
      ensures r == Ok(None) <==> forall other | Grabbable(old(View()), other) :: other.workspace != workspace
      ensures r == Ok(None) ==> View() == old(View())
      ensures r != Ok(None) ==>
        && Grabbable(old(View()), id) && id.workspace == workspace
        && (forall other | Grabbable(old(View()), other) && other.workspace == workspace ::
              rows[id].createdAt <= rows[other].createdAt)
        && View() == Apply(old(View()), Grab(id), numberOf, maxTier)
        && (r.Err? <==> !(0 <= rows[id].tier <= maxTier)) && (r.Err? ==> r.error == UnknownTier(rows[id].tier))
        && (r.Ok? ==> r.value == RowToEntry(rows[id], numberOf(id), maxTier) && r.value.value.state.Queued?)
    {
      var candidates := set other | other in rows && rows[other].state == "queued" && other.workspace == workspace;
      id := Identity("", "", "");
      if candidates == {} {
        forall other | Grabbable(View(), other) ensures other.workspace != workspace {
          assert other !in candidates;
        }
        return Ok(None), id;
      }
      OldestExists(rows, candidates);
      var first :| first in candidates &&
        forall other | other in candidates :: rows[first].createdAt <= rows[other].createdAt;
      id := first;
      assert Grabbable(View(), first);
      identity := identity[numberOf(first) := first];
      var entry := RowToEntry(rows[first], numberOf(first), maxTier);
      r := if entry.Some? then Ok(entry) else Err(UnknownTier(rows[first].tier));
    }

    /** `transition` */
    method TransitionEntry(entry: Entry, event: Event, now: int) returns (r: Result<Entry, StoreError>)
      modifies this`rows
      ensures View() == Apply(old(View()), Step(entry, event, now), numberOf, maxTier)
      ensures r.Ok? ==> Transition(entry, event, maxTier) == Ok(r.value)
      ensures r.Err? ==> View() == old(View())
    {
      var next := Transition(entry, event, maxTier);
      if next.Err? { return Err(Machine(next.error)); }
      if entry.number !in identity { return Err(UnknownEntry(entry.number)); }
      var id := identity[entry.number];
      if id in rows {
        rows := rows[id := Written(rows[id], next.value, now)];
      }
      r := Ok(next.value);
    }
  }

  lemma {:induction false} OldestExists(rows: map<Identity, Row>, ids: set<Identity>)
    requires ids != {} && forall id | id in ids :: id in rows
    ensures exists first :: first in ids && forall other | other in ids :: rows[first].createdAt <= rows[other].createdAt
    decreases |ids|
  {
    var x := Pick(ids);
    if ids != {x} {
      OldestExists(rows, ids - {x});
      var y :| y in ids - {x} && forall other | other in ids - {x} :: rows[y].createdAt <= rows[other].createdAt;
      var first := if rows[x].createdAt <= rows[y].createdAt then x else y;
      assert forall other | other in ids :: other == x || other in ids - {x};
      assert first in ids && forall other | other in ids :: rows[first].createdAt <= rows[other].createdAt;
    } else {
      assert x in ids && forall other | other in ids :: rows[x].createdAt <= rows[other].createdAt;
    }
  }

  // ---------------------------------------------------------------------------
  // Rows over whole histories
  // ---------------------------------------------------------------------------

  predicate RowTerminal(row: Row) {
    var state := ParseState(row.state);
    state.Some? && IsTerminal(state.value)
  }

  /** How a row may differ from what it was. */
  predicate Later(a: Row, b: Row) {
    && b.title == a.title && b.body == a.body && b.createdAt == a.createdAt
    && b.tier >= a.tier && b.budget <= a.budget && b.tier + b.budget <= a.tier + a.budget
    && (RowTerminal(a) ==> SameLife(b, a))
  }

  /** No two issues of this store share a number. */
  predicate NumbersDistinct(ids: set<Identity>, numberOf: Numbering) {
    forall a, b | a in ids && b in ids && numberOf(a) == numberOf(b) :: a == b
  }

  predicate Good(db: Db, ids: set<Identity>, numberOf: Numbering, maxTier: int) {
    && db.rows.Keys <= ids && (forall id | id in db.rows :: RowOk(db.rows[id], maxTier))
    && forall n | n in db.identity :: db.identity[n] in ids && numberOf(db.identity[n]) == n
  }

  /** The entry is what its row says now. */
  predicate IsCurrent(db: Db, entry: Entry, id: Identity, numberOf: Numbering, maxTier: int) {
    id in db.rows && RowToEntry(db.rows[id], numberOf(id), maxTier) == Some(entry)
  }

  ghost predicate OpOk(db: Db, op: Op, ids: set<Identity>, numberOf: Numbering, maxTier: int) {
    match op
    case Enqueue(id, _, _, _, _, _, _) => id in ids
    case Grab(_) => true
    case Step(entry, _, _) => exists id :: IsCurrent(db, entry, id, numberOf, maxTier)
  }

  /** The row a transition is about. */
  function Subject(db: Db, entry: Entry): Option<Identity> {
    if entry.number in db.identity && db.identity[entry.number] in db.rows then Some(db.identity[entry.number]) else None
  }

  lemma SubjectIsCurrent(db: Db, entry: Entry, ids: set<Identity>, numberOf: Numbering, maxTier: int)
    requires Good(db, ids, numberOf, maxTier) && NumbersDistinct(ids, numberOf)
    requires OpOk(db, Step(entry, Start, 0), ids, numberOf, maxTier) && Subject(db, entry).Some?
    ensures IsCurrent(db, entry, Subject(db, entry).value, numberOf, maxTier)
  {
    hide RowOk, RowToEntry;
    var id :| IsCurrent(db, entry, id, numberOf, maxTier);
    EntryNumber(db.rows[id], numberOf(id), maxTier);
  }

  lemma EntryNumber(row: Row, number: int, maxTier: int)
    ensures RowToEntry(row, number, maxTier).Some? ==> RowToEntry(row, number, maxTier).value.number == number
  {
  }

  /** A transition of a current entry moves its own row on, and a terminal row not at all. */
  lemma StepMovesOn(row: Row, number: int, event: Event, now: int, maxTier: int)
    requires RowOk(row, maxTier)
    requires var e := RowToEntry(row, number, maxTier); e.Some? && Transition(e.value, event, maxTier).Ok?
    ensures var next := Transition(RowToEntry(row, number, maxTier).value, event, maxTier).value;
      Later(row, Written(row, next, now)) && RowOk(Written(row, next, now), maxTier)
  {
    hide RowOk;
    var e := RowToEntry(row, number, maxTier).value;
    OkFacts(row, maxTier);
    TransitionProgresses(e, event, maxTier);
    var next := Transition(e, event, maxTier).value;
    WrittenIsOk(row, next, now, maxTier);
    if RowTerminal(row) { WriteBack(row, number, now, maxTier); }
  }

  lemma OkFacts(row: Row, maxTier: int)
    requires RowOk(row, maxTier)
    ensures 0 <= row.tier <= maxTier && row.budget >= 0
  {
  }

  lemma MintedFacts(number: int, blockedBy: set<int>, gate: Gate, aligned: bool)
    ensures var e := Minted(number, blockedBy, gate, aligned);
      e.number == number && e.tier == 0 && e.budget == FIRST_BUDGET
  {
  }

  /** Enqueueing, for the first time or again, alters no row there is. */
  lemma EnqueueKeepsRows(db: Db, op: Op, numberOf: Numbering, maxTier: int)
    requires op.Enqueue?
    ensures forall id | id in db.rows ::
      id in Apply(db, op, numberOf, maxTier).rows && Apply(db, op, numberOf, maxTier).rows[id] == db.rows[id]
  {
  }

  /** What every operation keeps. */
  lemma OpKeeps(db: Db, op: Op, ids: set<Identity>, numberOf: Numbering, maxTier: int)
    requires Good(db, ids, numberOf, maxTier) && NumbersDistinct(ids, numberOf) && maxTier >= 0
    requires OpOk(db, op, ids, numberOf, maxTier)
    ensures Good(Apply(db, op, numberOf, maxTier), ids, numberOf, maxTier)
    ensures forall id | id in db.rows ::
      id in Apply(db, op, numberOf, maxTier).rows && Later(db.rows[id], Apply(db, op, numberOf, maxTier).rows[id])
  {
    hide RowOk, RowToEntry, Written, Transition, Minted, RowTerminal;
    match op
    case Enqueue(id, title, body, blockedBy, gate, aligned, now) =>
      EnqueueKeepsRows(db, op, numberOf, maxTier);
      MintedFacts(numberOf(id), blockedBy, gate, aligned);
      WrittenIsOk(Row(title, body, 0, 0, "", [], None, now, now),
                  Minted(numberOf(id), blockedBy, gate, aligned), now, maxTier);
    case Grab(_) =>
    case Step(entry, event, now) =>
      if Transition(entry, event, maxTier).Ok? && Subject(db, entry).Some? {
        var id := Subject(db, entry).value;
        SubjectIsCurrent(db, entry, ids, numberOf, maxTier);
        StepMovesOn(db.rows[id], numberOf(id), event, now, maxTier);
      }
  }

  /** Operations on current entries, whatever the numbers. */
  ghost predicate AnyHistory(trace: seq<Db>, ops: seq<Op>, ids: set<Identity>, numberOf: Numbering, maxTier: int) {
    && |trace| == |ops| + 1 && Good(trace[0], ids, numberOf, maxTier)
    && forall i | 0 <= i < |ops| ::
         OpOk(trace[i], ops[i], ids, numberOf, maxTier) && trace[i + 1] == Apply(trace[i], ops[i], numberOf, maxTier)
  }

  ghost predicate History(trace: seq<Db>, ops: seq<Op>, ids: set<Identity>, numberOf: Numbering, maxTier: int) {
    AnyHistory(trace, ops, ids, numberOf, maxTier) && NumbersDistinct(ids, numberOf) && maxTier >= 0
  }

  lemma {:induction false} HistoryKeepsGood(trace: seq<Db>, ops: seq<Op>, ids: set<Identity>,
                                            numberOf: Numbering, maxTier: int, i: nat)
    requires History(trace, ops, ids, numberOf, maxTier) && i < |trace|
    ensures Good(trace[i], ids, numberOf, maxTier)
  {
    hide Good, Apply, OpOk;
    if i > 0 {
      HistoryKeepsGood(trace, ops, ids, numberOf, maxTier, i - 1);
      assert trace[i - 1 + 1] == Apply(trace[i - 1], ops[i - 1], numberOf, maxTier);
      OpKeeps(trace[i - 1], ops[i - 1], ids, numberOf, maxTier);
    }
  }

  lemma LaterTransitive(a: Row, b: Row, c: Row)
    requires Later(a, b) && Later(b, c)
    ensures Later(a, c)
  {
  }

  /** Over any interleaving, a row never goes away; its tier never falls, its budget and the sum of both
      never rise; and once it is terminal it is the same for ever. */
  lemma {:induction false} RowsNeverComeBack(trace: seq<Db>, ops: seq<Op>, ids: set<Identity>,
                                             numberOf: Numbering, maxTier: int, id: Identity, i: nat, j: nat)
    requires History(trace, ops, ids, numberOf, maxTier) && i <= j < |trace| && id in trace[i].rows
    ensures id in trace[j].rows && Later(trace[i].rows[id], trace[j].rows[id])
    decreases j
  {
    hide Good, Apply, OpOk, Later;
    if i < j {
      RowsNeverComeBack(trace, ops, ids, numberOf, maxTier, id, i, j - 1);
      HistoryKeepsGood(trace, ops, ids, numberOf, maxTier, j - 1);
      assert trace[j - 1 + 1] == Apply(trace[j - 1], ops[j - 1], numberOf, maxTier);
      OpKeeps(trace[j - 1], ops[j - 1], ids, numberOf, maxTier);
      LaterTransitive(trace[i].rows[id], trace[j - 1].rows[id], trace[j].rows[id]);
    } else {
      LaterReflexive(trace[i].rows[id]);
    }
  }

  lemma LaterReflexive(a: Row)
    ensures Later(a, a)
  {
  }

  // ---------------------------------------------------------------------------
  // Stale entries
  // ---------------------------------------------------------------------------

  /** A terminal row is safe from a transition exactly if the entry is parked, which every event rejects,
      or is what the row says. Any other entry the store holds for that row can bring it back. */
  lemma TerminalRowSafeExactly(db: Db, id: Identity, e: Entry, maxTier: int)
    requires id in db.rows && RowOk(db.rows[id], maxTier) && RowTerminal(db.rows[id])
    requires e.number in db.identity && db.identity[e.number] == id
    ensures (forall event, now :: SameLife(Stepped(db, e, event, now, maxTier).rows[id], db.rows[id]))
       <==> (e.state.Parked? || RowToEntry(db.rows[id], e.number, maxTier) == Some(e))
  {
    hide RowOk, RowToEntry, Written;
    var row := db.rows[id];
    if RowToEntry(row, e.number, maxTier) == Some(e) {
      CurrentIsSafe(db, id, e, maxTier);
    } else if !e.state.Parked? {
      StaleIsUnsafe(db, id, e, maxTier);
    }
  }

  lemma CurrentIsSafe(db: Db, id: Identity, e: Entry, maxTier: int)
    requires id in db.rows && RowOk(db.rows[id], maxTier) && RowTerminal(db.rows[id])
    requires e.number in db.identity && db.identity[e.number] == id
    requires RowToEntry(db.rows[id], e.number, maxTier) == Some(e)
    ensures forall event, now :: SameLife(Stepped(db, e, event, now, maxTier).rows[id], db.rows[id])
  {
    forall event, now ensures SameLife(Stepped(db, e, event, now, maxTier).rows[id], db.rows[id]) {
      WriteBack(db.rows[id], e.number, now, maxTier);
    }
  }

  lemma StaleIsUnsafe(db: Db, id: Identity, e: Entry, maxTier: int)
    requires id in db.rows && RowOk(db.rows[id], maxTier)
    requires e.number in db.identity && db.identity[e.number] == id
    requires !e.state.Parked? && RowToEntry(db.rows[id], e.number, maxTier) != Some(e)
    ensures exists event :: !SameLife(Stepped(db, e, event, 0, maxTier).rows[id], db.rows[id])
  {
    hide RowOk, RowToEntry;
    if IsTerminal(e.state) {
      var after := Stepped(db, e, Start, 0, maxTier).rows[id];
      assert after == Written(db.rows[id], e, 0);
      if SameLife(after, db.rows[id]) { WrittenTells(db.rows[id], e, maxTier); }
    } else {
      LiveEntryMovesRow(db, id, e, maxTier);
    }
  }

  /** An entry still in the queue can end in two ways, and a row is in one state. */
  lemma LiveEntryMovesRow(db: Db, id: Identity, e: Entry, maxTier: int)
    requires id in db.rows && e.number in db.identity && db.identity[e.number] == id
    requires !e.state.Parked? && !IsTerminal(e.state)
    ensures exists event :: !SameLife(Stepped(db, e, event, 0, maxTier).rows[id], db.rows[id])
  {
    var green, human := Stepped(db, e, GateGreen, 0, maxTier).rows[id], Stepped(db, e, Refused, 0, maxTier).rows[id];
    assert green.state == "green" && human.state == "escalated-to-human";
    assert !SameLife(green, db.rows[id]) || !SameLife(human, db.rows[id]);
  }

  /** The columns tell the entry. */
  lemma WrittenTells(row: Row, e: Entry, maxTier: int)
    requires RowOk(row, maxTier) && SameLife(Written(row, e, 0), row)
    ensures RowToEntry(row, e.number, maxTier) == Some(e)
  {
    RowRoundTrip(row, e, 0, maxTier);
  }

  /** An issue that nothing blocks and the gates let in. */
  function Unblocked(id: Identity, title: string, body: string, now: int): Op {
    Enqueue(id, title, body, {}, Admitted, true, now)
  }

  function FreshEntry(number: int): Entry {
    Minted(number, {}, Admitted, true)
  }

  /** In particular: enqueue an issue again after its run is over, and start the entry that returns. */
  lemma ReEnqueuedEntryIsStale(db: Db, id: Identity, title: string, body: string, numberOf: Numbering,
                               maxTier: int, now: int)
    requires id in db.rows && RowTerminal(db.rows[id])
    ensures var again := Apply(db, Unblocked(id, title, body, now), numberOf, maxTier);
      var entry := FreshEntry(numberOf(id));
      && again.rows == db.rows && entry.state.Queued?
      && Apply(again, Step(entry, Start, now), numberOf, maxTier).rows[id].state == "running"
  {
  }

  // ---------------------------------------------------------------------------
  // Why numbers must be distinct
  // ---------------------------------------------------------------------------

  lemma FreshEntryIsCurrent(db: Db, id: Identity, numberOf: Numbering, maxTier: int, now: int)
    requires id !in db.rows && maxTier >= 0
    ensures var next := Apply(db, Unblocked(id, "", "", now), numberOf, maxTier);
      && next == Db(db.rows[id := FreshRow(numberOf(id), now)], db.identity[numberOf(id) := id])
      && RowToEntry(FreshRow(numberOf(id), now), numberOf(id), maxTier) == Some(FreshEntry(numberOf(id)))
  {
    MintedFacts(numberOf(id), {}, Admitted, true);
    RowRoundTrip(Row("", "", 0, 0, "", [], None, now, now), FreshEntry(numberOf(id)), now, maxTier);
  }

  function FreshRow(number: int, now: int): Row {
    Written(Row("", "", 0, 0, "", [], None, now, now), FreshEntry(number), now)
  }

  /** Of two issues with one number the store finds the latter: finishing one and starting it takes the other
      to its end and back. Each of the four operations is on an entry as its row has it. */
  lemma SharedNumberHitsTheOther(a: Identity, b: Identity, ids: set<Identity>, numberOf: Numbering, maxTier: int)
      returns (trace: seq<Db>, ops: seq<Op>)
    requires a in ids && b in ids && a != b && numberOf(a) == numberOf(b) && maxTier >= 0
    ensures AnyHistory(trace, ops, ids, numberOf, maxTier) && |ops| == 4 && |trace| == 5
    ensures b in trace[3].rows && RowTerminal(trace[3].rows[b])
    ensures b in trace[4].rows && trace[4].rows[b].state == "running"
  {
    hide Stepped, RowToEntry, RowOk, Written, Minted, FreshEntry, FreshRow, Enqueued, RowTerminal;
    var n := numberOf(a);
    var e := FreshEntry(n);
    var rowA, rowB := FreshRow(n, 0), FreshRow(n, 1);
    var db0 := Db(map[], map[]);
    var db1 := Db(map[a := rowA], map[n := a]);
    var db2 := Db(map[a := rowA, b := rowB], map[n := b]);
    ops := [Unblocked(a, "", "", 0), Unblocked(b, "", "", 1),
            Step(e, GateGreen, 2), Step(e, Start, 3)];
    FreshEntryIsCurrent(db0, a, numberOf, maxTier, 0);
    FreshEntryIsCurrent(db1, b, numberOf, maxTier, 1);
    var db3 := Apply(db2, ops[2], numberOf, maxTier);
    var db4 := Apply(db3, ops[3], numberOf, maxTier);
    trace := [db0, db1, db2, db3, db4];
    SharedSteps(rowA, rowB, a, b, n, maxTier);
    assert IsCurrent(db2, e, a, numberOf, maxTier) && IsCurrent(db3, e, a, numberOf, maxTier);
  }

  /** Both events reach the row the number names. */
  lemma SharedSteps(rowA: Row, rowB: Row, a: Identity, b: Identity, n: int, maxTier: int)
    requires a != b
    ensures var db := Db(map[a := rowA, b := rowB], map[n := b]); var e := FreshEntry(n);
      var green := Stepped(db, e, GateGreen, 2, maxTier); var started := Stepped(green, e, Start, 3, maxTier);
      && green.identity == started.identity == db.identity
      && green.rows == db.rows[b := Written(rowB, e.(state := Green), 2)]
      && started.rows == db.rows[b := Written(green.rows[b], e.(state := Running), 3)]
      && RowTerminal(green.rows[b]) && started.rows[b].state == "running"
  {
  }

  ghost predicate RowsStay(ids: set<Identity>, numberOf: Numbering, maxTier: int) {
    forall trace: seq<Db>, ops: seq<Op>, id, i, j
      | AnyHistory(trace, ops, ids, numberOf, maxTier) && 0 <= i <= j < |trace| && id in trace[i].rows ::
      id in trace[j].rows && Later(trace[i].rows[id], trace[j].rows[id])
  }

  /** Over all histories rows never come back exactly when no two issues share a number. */
  lemma RowsStayIfNumbersDiffer(ids: set<Identity>, numberOf: Numbering, maxTier: int)
    requires maxTier >= 0
    ensures RowsStay(ids, numberOf, maxTier) <==> NumbersDistinct(ids, numberOf)
  {
    hide AnyHistory, Later;
    if NumbersDistinct(ids, numberOf) {
      forall trace: seq<Db>, ops: seq<Op>, id, i, j
        | AnyHistory(trace, ops, ids, numberOf, maxTier) && 0 <= i <= j < |trace| && id in trace[i].rows
        ensures id in trace[j].rows && Later(trace[i].rows[id], trace[j].rows[id])
      {
        RowsNeverComeBack(trace, ops, ids, numberOf, maxTier, id, i, j);
      }
    } else {
      var a, b :| a in ids && b in ids && numberOf(a) == numberOf(b) && a != b;
      var trace, ops := SharedNumberHitsTheOther(a, b, ids, numberOf, maxTier);
      TerminalDoesNotRun(trace[3].rows[b], trace[4].rows[b]);
    }
  }

  /** `str.isdigit`, on ASCII */
  predicate IsDigits(s: string) {
    s != [] && forall i | 0 <= i < |s| :: '0' <= s[i] <= '9'
  }

  /** `_entry_number`: a numeral is its own number, whichever repository it is from; other ids are hashed. */
  function NumberBy(crc: Identity -> int): Numbering {
    (id: Identity) => if IsDigits(id.externalId) then Decimal.NatValue(id.externalId) else crc(id)
  }

  /** So in a store with one issue number from two workspaces or sources, rows do come back. */
  lemma SameNumeralClashes(ids: set<Identity>, crc: Identity -> int, a: Identity, b: Identity, maxTier: int)
    requires a in ids && b in ids && a != b && maxTier >= 0
    requires a.externalId == b.externalId && IsDigits(a.externalId)
    ensures !RowsStay(ids, NumberBy(crc), maxTier)
  {
    hide RowsStay;
    assert NumberBy(crc)(a) == NumberBy(crc)(b);
    RowsStayIfNumbersDiffer(ids, NumberBy(crc), maxTier);
  }

  lemma TerminalDoesNotRun(a: Row, b: Row)
    requires RowTerminal(a) && b.state == "running"
    ensures !Later(a, b)
  {
  }

  // ---------------------------------------------------------------------------
  // Which operations give a row its state
  // ---------------------------------------------------------------------------

  /** What an issue is queued as: on the lowest tier with a budget of two, parked behind its blockers if it
      declares any, else for the guardrail's reason or for want of alignment, else ready to be grabbed. */
  lemma EnqueuedExactly(number: int, blockedBy: set<int>, gate: Gate, aligned: bool)
    requires !gate.Reject?
    ensures var e := Minted(number, blockedBy, gate, aligned);
      && e.number == number && e.tier == 0 && e.budget == 2 && e.blockedBy == blockedBy
      && (e.state == Queued <==> |blockedBy| == 0 && (if gate.ParkFor? then gate.reason == "" else aligned))
      && (e.state != Queued ==> e.state == Parked)
      && e.reason == (if |blockedBy| > 0 then BlockedReason(blockedBy)
                      else if gate.ParkFor? then gate.reason
                      else if !aligned then "awaiting alignment" else "")
  {
    assert blockedBy * blockedBy == blockedBy;
  }

  /** The operation is a transition of the entry of row `id` by this event. */
  predicate Hits(db: Db, op: Op, id: Identity, event: Event) {
    op.Step? && op.event == event && Subject(db, op.entry) == Some(id)
  }

  /** In words: the row waits or runs. */
  predicate RowLive(row: Row) {
    row.state == "queued" || row.state == "running"
  }

  predicate RowBecomes(db: Db, next: Db, id: Identity, state: string) {
    id in db.rows && id in next.rows && db.rows[id].state != state && next.rows[id].state == state
  }

  /** The word a transition by `event` leaves in the column of a row. */
  function WordAfter(row: Row, event: Event, maxTier: int): string {
    if !RowLive(row) then row.state
    else match event
    case Start => if row.state == "queued" then "running" else row.state
    case GateGreen => "green"
    case SecurityBlock => "escalated-to-human"
    case Refused => "escalated-to-human"
    case GateRed => if row.budget <= 1 || row.tier >= maxTier then "escalated-to-human" else "queued"
  }

  lemma TransitionWords(row: Row, number: int, event: Event, now: int, maxTier: int)
    requires RowToEntry(row, number, maxTier).Some?
    ensures var next := Transition(RowToEntry(row, number, maxTier).value, event, maxTier);
      (if next.Ok? then Written(row, next.value, now) else row).state == WordAfter(row, event, maxTier)
  {
    EntryIsRow(row, number, maxTier);
  }

  /** What an operation makes of the word in a row's column: a transition of the row's entry changes it as the
      event says, and nothing else changes it. */
  lemma OpWords(db: Db, op: Op, ids: set<Identity>, numberOf: Numbering, maxTier: int, id: Identity)
    requires Good(db, ids, numberOf, maxTier) && NumbersDistinct(ids, numberOf)
    requires OpOk(db, op, ids, numberOf, maxTier) && id in db.rows
    ensures id in Apply(db, op, numberOf, maxTier).rows
    ensures Apply(db, op, numberOf, maxTier).rows[id].state ==
      if op.Step? && Subject(db, op.entry) == Some(id) then WordAfter(db.rows[id], op.event, maxTier)
      else db.rows[id].state
  {
    hide RowOk, RowToEntry, Minted, Transition, Written, WordAfter;
    if op.Step? && Subject(db, op.entry) == Some(id) {
      SubjectIsCurrent(db, op.entry, ids, numberOf, maxTier);
      TransitionWords(db.rows[id], numberOf(id), op.event, op.now, maxTier);
    }
  }

  /** So a row becomes green exactly by a green gate, a human's exactly by a security block, a refusal or the
      red gate that uses it up, running by a start, queued again by any other red gate; and never blocked. */
  lemma OpOutcome(db: Db, op: Op, ids: set<Identity>, numberOf: Numbering, maxTier: int, id: Identity)
    requires Good(db, ids, numberOf, maxTier) && NumbersDistinct(ids, numberOf)
    requires OpOk(db, op, ids, numberOf, maxTier) && id in db.rows
    ensures var next := Apply(db, op, numberOf, maxTier); var row := db.rows[id];
      && (RowBecomes(db, next, id, "green") <==> RowLive(row) && Hits(db, op, id, GateGreen))
      && (RowBecomes(db, next, id, "escalated-to-human") <==>
            RowLive(row) &&
            (Hits(db, op, id, SecurityBlock) || Hits(db, op, id, Refused) ||
             (Hits(db, op, id, GateRed) && (row.budget <= 1 || row.tier >= maxTier))))
      && (RowBecomes(db, next, id, "running") <==> row.state == "queued" && Hits(db, op, id, Start))
      && (RowBecomes(db, next, id, "queued") <==>
            row.state == "running" && Hits(db, op, id, GateRed) && row.budget > 1 && row.tier < maxTier)
      && !RowBecomes(db, next, id, "blocked") && !RowBecomes(db, next, id, "parked")
  {
    hide Good, OpOk, Apply, NumbersDistinct, Subject;
    OpWords(db, op, ids, numberOf, maxTier, id);
  }

  /** The entry read from a row has the row's columns. */
  lemma EntryIsRow(row: Row, number: int, maxTier: int)
    ensures RowToEntry(row, number, maxTier).Some? ==>
      var e := RowToEntry(row, number, maxTier).value;
      e.tier == row.tier && e.budget == row.budget && StateValue(e.state) == row.state
  {
  }

  /** Over any interleaving a row is green only by a green gate, unless it was green at the start. */
  lemma {:induction false} GreenOnlyByGate(trace: seq<Db>, ops: seq<Op>, ids: set<Identity>, numberOf: Numbering,
                                           maxTier: int, id: Identity, j: nat) returns (i: nat)
    requires History(trace, ops, ids, numberOf, maxTier) && j < |trace| && id in trace[j].rows
    requires trace[j].rows[id].state == "green"
    requires id in trace[0].rows ==> trace[0].rows[id].state != "green"
    ensures i < j && id in trace[i].rows && RowLive(trace[i].rows[id]) && Hits(trace[i], ops[i], id, GateGreen)
    ensures RowBecomes(trace[i], trace[i + 1], id, "green")
  {
    hide Good, Apply, OpOk, Hits, RowLive;
    assert trace[j - 1 + 1] == Apply(trace[j - 1], ops[j - 1], numberOf, maxTier);
    HistoryKeepsGood(trace, ops, ids, numberOf, maxTier, j - 1);
    if id !in trace[j - 1].rows {
      NewRowWaits(trace[j - 1], ops[j - 1], numberOf, maxTier, id);
    } else if trace[j - 1].rows[id].state == "green" {
      i := GreenOnlyByGate(trace, ops, ids, numberOf, maxTier, id, j - 1);
    } else {
      i := j - 1;
      OpOutcome(trace[i], ops[i], ids, numberOf, maxTier, id);
    }
  }

  /** A row comes in queued or parked. */
  lemma NewRowWaits(db: Db, op: Op, numberOf: Numbering, maxTier: int, id: Identity)
    requires id !in db.rows && id in Apply(db, op, numberOf, maxTier).rows
    ensures op.Enqueue? && op.id == id
    ensures var state := Apply(db, op, numberOf, maxTier).rows[id].state; state == "queued" || state == "parked"
  {
    hide Minted;
    if op.Enqueue? && !op.gate.Reject? { EnqueuedExactly(numberOf(op.id), op.blockedBy, op.gate, op.aligned); }
  }

  // ---------------------------------------------------------------------------
  // How often a row can move
  // ---------------------------------------------------------------------------

  function EntryOf(db: Db, id: Identity, numberOf: Numbering, maxTier: int): Option<Entry> {
    if id in db.rows then RowToEntry(db.rows[id], numberOf(id), maxTier) else None
  }

  function Left(db: Db, id: Identity, numberOf: Numbering, maxTier: int): int {
    var e := EntryOf(db, id, numberOf, maxTier);
    if e.Some? then StepsLeft(e.value, maxTier) else 0
  }

  lemma LeftNonNegative(db: Db, id: Identity, numberOf: Numbering, maxTier: int)
    ensures Left(db, id, numberOf, maxTier) >= 0
  {
  }

  /** The operation takes the row from one state to another. */
  predicate Moves(db: Db, next: Db, id: Identity) {
    id in db.rows && id in next.rows && next.rows[id].state != db.rows[id].state
  }

  function MoveCount(trace: seq<Db>, id: Identity, i: nat): nat
    requires i < |trace|
  {
    if i == 0 then 0 else MoveCount(trace, id, i - 1) + (if Moves(trace[i - 1], trace[i], id) then 1 else 0)
  }

  lemma OpSpends(db: Db, op: Op, ids: set<Identity>, numberOf: Numbering, maxTier: int, id: Identity)
    requires Good(db, ids, numberOf, maxTier) && NumbersDistinct(ids, numberOf) && maxTier >= 0
    requires OpOk(db, op, ids, numberOf, maxTier) && id in db.rows
    ensures var next := Apply(db, op, numberOf, maxTier);
      Left(next, id, numberOf, maxTier) + (if Moves(db, next, id) then 1 else 0) <= Left(db, id, numberOf, maxTier)
  {
    hide RowOk, RowToEntry, Written, Transition, Minted, RowTerminal, StepsLeft;
    if op.Step? && Transition(op.entry, op.event, maxTier).Ok? && Subject(db, op.entry) == Some(id) {
      SubjectIsCurrent(db, op.entry, ids, numberOf, maxTier);
      StepSpends(db.rows[id], numberOf(id), op.event, op.now, maxTier);
    } else if op.Enqueue? {
      EnqueueKeepsRows(db, op, numberOf, maxTier);
    }
  }

  lemma StepSpends(row: Row, number: int, event: Event, now: int, maxTier: int)
    requires RowOk(row, maxTier)
    requires var e := RowToEntry(row, number, maxTier); e.Some? && Transition(e.value, event, maxTier).Ok?
    ensures var e := RowToEntry(row, number, maxTier).value;
      var next := Transition(e, event, maxTier).value; var after := Written(row, next, now);
      && RowToEntry(after, number, maxTier) == Some(next)
      && StepsLeft(next, maxTier) + (if after.state != row.state then 1 else 0) <= StepsLeft(e, maxTier)
  {
    var e := RowToEntry(row, number, maxTier).value;
    TransitionProgresses(e, event, maxTier);
    var next := Transition(e, event, maxTier).value;
    RowRoundTrip(row, next, now, maxTier);
    if !IsTerminal(e.state) { TransitionProgress(e, event, maxTier); }
  }

  /** Over any interleaving a row changes state at most `StepsLeft` times; a new issue, four times. */
  lemma {:induction false} MovesAreBounded(trace: seq<Db>, ops: seq<Op>, ids: set<Identity>,
                                           numberOf: Numbering, maxTier: int, id: Identity, i: nat)
    requires History(trace, ops, ids, numberOf, maxTier) && i < |trace| && id in trace[0].rows
    ensures id in trace[i].rows
    ensures MoveCount(trace, id, i) + Left(trace[i], id, numberOf, maxTier) <= Left(trace[0], id, numberOf, maxTier)
    ensures MoveCount(trace, id, i) <= Left(trace[0], id, numberOf, maxTier)
  {
    hide Good, Apply, OpOk, Left, Moves;
    LeftNonNegative(trace[i], id, numberOf, maxTier);
    RowsNeverComeBack(trace, ops, ids, numberOf, maxTier, id, 0, i);
    if i > 0 {
      MovesAreBounded(trace, ops, ids, numberOf, maxTier, id, i - 1);
      HistoryKeepsGood(trace, ops, ids, numberOf, maxTier, i - 1);
      assert trace[i - 1 + 1] == Apply(trace[i - 1], ops[i - 1], numberOf, maxTier);
      OpSpends(trace[i - 1], ops[i - 1], ids, numberOf, maxTier, id);
    }
  }
}
