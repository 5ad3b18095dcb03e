/** Starting and resuming a session (agentrail/afk/runner.py, `build_store`), and what survives any
    number of sessions, crashes and requeues. */
module Resume {
  import opened Collections
  import opened FleetState
  import opened Snapshot
  import opened Journal
  import opened FleetStore
  import opened IssueHistory
  import opened Sequences

  /** One issue of the fresh GitHub listing. */
  datatype Item = Item(number: int, title: string, url: string, blockedBy: seq<int>)

  function AllFree(concurrency: int): map<int, Option<int>> {
    map k | k in Range(0, concurrency) :: None
  }

  /** The state a session starts from: the snapshot with fresh knobs, or an empty one; slots emptied. */
  function BaseOf(existing: Option<AfkState>, concurrency: int, maxRetries: int): AfkState {
    (if existing.Some? then existing.value else AfkState(map[], map[], concurrency, maxRetries, 0, 0))
      .(concurrency := concurrency, maxRetries := maxRetries, slots := AllFree(concurrency))
  }

  /** What the seeding loop dispatches for one item. */
  function ItemActions(s: AfkState, item: Item): seq<Action> {
    if item.number !in s.issues then
      [EnqueueIssue(item.number, item.title, item.url, item.blockedBy)]
    else
      [SetBlockedBy(item.number, item.blockedBy)] +
      (if s.issues[item.number].status.Queued? then [] else [RequeueIssue(item.number)])
  }

  function SeedActions(s: AfkState, items: seq<Item>): seq<Action>
    decreases |items|
  {
    if items == [] then [] else
    var actions := ItemActions(s, items[0]);
    actions + SeedActions(DispatchedAll(s, actions), items[1..])
  }

  function Seeded(s: AfkState, items: seq<Item>): AfkState {
    DispatchedAll(s, SeedActions(s, items))
  }

  /** `build_store`'s loop over the listing, on the live store. */
  method SeedStore(store: Store, items: seq<Item>, ts: int)
    requires store.Valid()
    modifies store, store.recorder
    ensures store.state == Seeded(old(store.state), items)
    ensures store.Records(SeedActions(old(store.state), items))
  {
    hide ToJson, ActionToJson, Reduce, LogHolds, CallAll, ActionsOf, DispatchedAll;
    ghost var start, past := store.state, ActionsOf(store.calls);
    ghost var done: seq<Action> := [];
    DispatchedNone(start);
    assert past + [] == past;
    for i := 0 to |items|
      invariant store.Valid() && store.Records(done)
      invariant store.state == DispatchedAll(start, done) && ActionsOf(store.calls) == past + done
      invariant done + SeedActions(store.state, items[i..]) == SeedActions(start, items)
    {
      ghost var before, doneBefore := store.state, done;
      var item := items[i];
      assert items[i..][0] == item && items[i..][1..] == items[i + 1..];
      ghost var rest := SeedActions(DispatchedAll(before, ItemActions(before, item)), items[i + 1..]);
      ConcatAssociates(done, ItemActions(before, item), rest);
      if item.number !in store.state.issues {
        var a := EnqueueIssue(item.number, item.title, item.url, item.blockedBy);
        done := store.DispatchMore(a, ts, start, past, done);
      } else {
        var status := store.state.issues[item.number].status;
        done := store.DispatchMore(SetBlockedBy(item.number, item.blockedBy), ts, start, past, done);
        if !status.Queued? {
          done := store.DispatchMore(RequeueIssue(item.number), ts, start, past, done);
          ConcatAssociates(doneBefore, [SetBlockedBy(item.number, item.blockedBy)], [RequeueIssue(item.number)]);
        }
      }
      assert done == doneBefore + ItemActions(before, item);
      DispatchedAllConcat(start, doneBefore, ItemActions(before, item));
    }
    assert items[|items|..] == [];
    assert done + [] == done;
  }

  /** `build_store`: the base, persistence and the journal, then the seeding. */
  method BuildStore(onDisk: Option<Json>, existing: Option<AfkState>, concurrency: int, maxRetries: int,
                    items: seq<Item>, session: string, log: seq<Event>, ts: int, digest: Json -> string)
    returns (store: Store)
    ensures var base := BaseOf(existing, concurrency, maxRetries);
      && store.state == Seeded(base, items) && store.start == base
      && ActionsOf(store.calls) == SeedActions(base, items)
    ensures fresh(store) && store.Valid() && store.persistent
    ensures fresh(store.recorder) && store.recorder.session == session && store.recorder.digest == digest
    ensures store.earlier == log && store.attached == ts
  {
    hide LogHolds, ToJson, SeedActions;
    store := new Store(BaseOf(existing, concurrency, maxRetries), onDisk);
    store.AttachPersistence();
    store.AttachJournal(session, log, ts, digest);
    SeedStore(store, items, ts);
  }

  // ---------------------------------------------------------------------------
  // What seeding leaves behind
  // ---------------------------------------------------------------------------

  /** A listed issue is queued, in no slot, behind the blockers just parsed, with the PR it had. */
  predicate Ready(s: AfkState, t: AfkState, item: Item) {
    && item.number in t.issues
    && var i := t.issues[item.number];
       && i.status.Queued? && i.slot.None? && i.blockedBy == item.blockedBy
       && i.pr == (if item.number in s.issues then s.issues[item.number].pr else None)
  }

  lemma ItemEffect(s: AfkState, item: Item)
    requires Consistent(s) && BusySlots(s) == {}
    ensures var actions := ItemActions(s, item); var t := DispatchedAll(s, actions);
      && DisciplinedAll(s, actions) && BusySlots(t) == {} && Ready(s, t, item)
      && (forall n | n in s.issues && n != item.number :: n in t.issues && t.issues[n] == s.issues[n])
      && (forall n | n in t.issues && n != item.number :: n in s.issues)
  {
    var actions := ItemActions(s, item);
    var t := Dispatched(s, actions[0]);
    assert actions[1..] == [] || actions[1..] == [RequeueIssue(item.number)];
    NoneBusy(s);
    if item.number in s.issues {
      assert IssueOk(item.number, s.issues[item.number]);
      if actions[1..] == [RequeueIssue(item.number)] {
        DispatchedOne(t, RequeueIssue(item.number));
        assert actions[1..][1..] == [];
        assert Disciplined(t, RequeueIssue(item.number));
      }
      assert DispatchedAll(s, actions) == DispatchedAll(t, actions[1..]);
      assert BusySlots(DispatchedAll(s, actions)) <= BusySlots(s);
    }
  }

  lemma NoneBusy(s: AfkState)
    requires BusySlots(s) == {}
    ensures forall k | k in s.slots :: s.slots[k].None?
  {
    forall k | k in s.slots ensures s.slots[k].None? {
      assert k !in BusySlots(s);
    }
  }

  /** The last entry for an issue in the listing decides. */
  predicate LastFor(items: seq<Item>, i: int) {
    0 <= i < |items| && forall j | i < j < |items| :: items[j].number != items[i].number
  }

  lemma {:induction false} SeedingReadies(s: AfkState, items: seq<Item>)
    requires Consistent(s) && BusySlots(s) == {}
    ensures DisciplinedAll(s, SeedActions(s, items))
    ensures var t := Seeded(s, items);
      && Consistent(t) && BusySlots(t) == {}
      && (forall i | LastFor(items, i) :: Ready(s, t, items[i]))
      && (forall n | n in s.issues && (forall i | 0 <= i < |items| :: items[i].number != n) ::
            n in t.issues && t.issues[n] == s.issues[n])
      && (forall n | n in t.issues && n !in s.issues :: exists i :: 0 <= i < |items| && items[i].number == n)
    decreases |items|
  {
    hide Reduce, ItemActions, BusySlots;
    if items != [] {
      var item, rest := items[0], items[1..];
      var actions := ItemActions(s, item);
      var mid := DispatchedAll(s, actions);
      ItemEffect(s, item);
      DisciplinedRun(s, actions);
      SeedingReadies(mid, rest);
      var t := Seeded(mid, rest);
      DispatchedAllConcat(s, actions, SeedActions(mid, rest));
      DisciplinedAllConcat(s, actions, SeedActions(mid, rest));
      assert Seeded(s, items) == t;
      forall i | LastFor(items, i) ensures Ready(s, t, items[i]) {
        if i == 0 {
          forall j | 0 <= j < |rest| ensures rest[j].number != item.number {
            assert rest[j] == items[j + 1];
          }
        } else {
          assert items[i] == rest[i - 1];
          assert LastFor(rest, i - 1) by {
            forall j | i - 1 < j < |rest| ensures rest[j].number != rest[i - 1].number {
              assert rest[j] == items[j + 1];
            }
          }
          assert Ready(mid, t, items[i]);
        }
      }
      forall n | n in s.issues && (forall i | 0 <= i < |items| :: items[i].number != n)
        ensures n in t.issues && t.issues[n] == s.issues[n]
      {
        assert items[0].number != n;
        forall i | 0 <= i < |rest| ensures rest[i].number != n { assert rest[i] == items[i + 1]; }
      }
      forall n | n in t.issues && n !in s.issues
        ensures exists i :: 0 <= i < |items| && items[i].number == n
      {
        if n in mid.issues {
          assert items[0].number == n;
        } else {
          var i :| 0 <= i < |rest| && rest[i].number == n;
          assert items[i + 1].number == n;
        }
      }
    }
  }

  lemma BaseIsConsistent(existing: Option<AfkState>, concurrency: int, maxRetries: int)
    requires existing.Some? ==> Consistent(existing.value)
    ensures var base := BaseOf(existing, concurrency, maxRetries);
      && Consistent(base) && BusySlots(base) == {}
      && (existing.Some? && Counted(existing.value) ==> Counted(base))
      && (existing.None? ==> Counted(base) && Orphans(base) == {})
  {
    var base := BaseOf(existing, concurrency, maxRetries);
    forall k | k in base.slots ensures SlotOk(base, k) {
    }
    if existing.Some? {
      assert WithStatus(base, Merged) == WithStatus(existing.value, Merged);
      assert WithStatus(base, HumanReview) == WithStatus(existing.value, HumanReview);
    } else {
      assert WithStatus(base, Merged) == {};
    }
  }

  // ---------------------------------------------------------------------------
  // Histories of sessions, each possibly killed half way
  // ---------------------------------------------------------------------------

  /** One session: its knobs, its listing, what the workers dispatched, and how many dispatches
      (seeding included) happened before the process ended or was killed. */
  datatype Session = Session(concurrency: int, maxRetries: int, items: seq<Item>, work: seq<Action>,
                             dispatched: nat)

  function Dispatches(disk: Option<AfkState>, ses: Session): seq<Action> {
    var base := BaseOf(disk, ses.concurrency, ses.maxRetries);
    var all := SeedActions(base, ses.items) + ses.work;
    if ses.dispatched < |all| then all[..ses.dispatched] else all
  }

  /** What the snapshot file reads as afterwards; nothing is written before the first dispatch. */
  function AfterSession(disk: Option<AfkState>, ses: Session): Option<AfkState> {
    var done := Dispatches(disk, ses);
    if done == [] then disk
    else FromJson(ToJson(DispatchedAll(BaseOf(disk, ses.concurrency, ses.maxRetries), done)))
  }

  function DiskAfter(sessions: seq<Session>): Option<AfkState> {
    if sessions == [] then None else AfterSession(DiskAfter(sessions[..|sessions| - 1]), sessions[|sessions| - 1])
  }

  /** The workers of the session kept the runner's discipline. */
  predicate Honest(disk: Option<AfkState>, ses: Session) {
    DisciplinedAll(Seeded(BaseOf(disk, ses.concurrency, ses.maxRetries), ses.items), ses.work)
  }

  predicate History(sessions: seq<Session>) {
    sessions == [] ||
    (History(sessions[..|sessions| - 1]) &&
     Honest(DiskAfter(sessions[..|sessions| - 1]), sessions[|sessions| - 1]))
  }

  /** A snapshot fit to resume from. */
  predicate Sound(disk: Option<AfkState>) {
    disk.Some? ==> Consistent(disk.value) && Counted(disk.value)
  }

  lemma CostlessIsSound(s: AfkState)
    requires Consistent(s) && Counted(s)
    ensures Consistent(Costless(s)) && Counted(Costless(s))
  {
    var t := Costless(s);
    assert t.issues.Keys == s.issues.Keys;
    forall n | n in t.issues ensures IssueOk(n, t.issues[n]) && t.issues[n] == WithoutCost(s.issues[n]) {
      assert IssueOk(n, s.issues[n]);
    }
    forall k | k in t.slots ensures SlotOk(t, k) {
      assert SlotOk(s, k);
    }
    assert WithStatus(t, Merged) == WithStatus(s, Merged);
    assert WithStatus(t, HumanReview) == WithStatus(s, HumanReview);
  }

  lemma DispatchesAreDisciplined(disk: Option<AfkState>, ses: Session)
    requires Sound(disk) && Honest(disk, ses)
    ensures DisciplinedAll(BaseOf(disk, ses.concurrency, ses.maxRetries), Dispatches(disk, ses))
  {
    hide Reduce, Consistent, Counted, Disciplined;
    var base := BaseOf(disk, ses.concurrency, ses.maxRetries);
    BaseIsConsistent(disk, ses.concurrency, ses.maxRetries);
    SeedingReadies(base, ses.items);
    var seed := SeedActions(base, ses.items);
    DisciplinedAllConcat(base, seed, ses.work);
    var all, done := seed + ses.work, Dispatches(disk, ses);
    DisciplinedAllConcat(base, done, all[|done|..]);
    assert done + all[|done|..] == all;
  }

  lemma SessionKeepsSound(disk: Option<AfkState>, ses: Session)
    requires Sound(disk) && Honest(disk, ses)
    ensures Sound(AfterSession(disk, ses))
  {
    hide ToJson, FromJson, Reduce, Consistent, Counted;
    var base, done := BaseOf(disk, ses.concurrency, ses.maxRetries), Dispatches(disk, ses);
    BaseIsConsistent(disk, ses.concurrency, ses.maxRetries);
    DispatchesAreDisciplined(disk, ses);
    DisciplinedRun(base, done);
    var t := DispatchedAll(base, done);
    StateRoundTrip(t);
    CostlessIsSound(t);
  }

  /** Over any sequence of sessions, each cut short anywhere, the snapshot on disk is consistent,
      `completed` is the number of merged issues, and `failed` is at most the number of issues
      waiting for a human. */
  lemma {:induction false} CountersSurviveHistory(sessions: seq<Session>)
    requires History(sessions)
    ensures Sound(DiskAfter(sessions))
    decreases |sessions|
  {
    if sessions != [] {
      var earlier := sessions[..|sessions| - 1];
      CountersSurviveHistory(earlier);
      SessionKeepsSound(DiskAfter(earlier), sessions[|sessions| - 1]);
    }
  }

  /** Everything the sessions dispatched before each was cut short. */
  function DispatchedBy(sessions: seq<Session>): seq<Action> {
    if sessions == [] then [] else
      var earlier, last := sessions[..|sessions| - 1], sessions[|sessions| - 1];
      DispatchedBy(earlier) + Dispatches(DiskAfter(earlier), last)
  }

  /** The PR an issue has on disk is the last one set for it; an issue not there yet had none set. */
  ghost predicate PrsKept(s: AfkState, past: seq<Action>) {
    && (forall n | n in s.issues :: s.issues[n].pr == LastPr(None, past, n))
    && (forall n | n !in s.issues :: LastPr(None, past, n) == None)
  }

  lemma {:induction false} DisciplinedKeepsPrs(s: AfkState, past: seq<Action>, actions: seq<Action>)
    requires DisciplinedAll(s, actions) && PrsKept(s, past)
    ensures PrsKept(DispatchedAll(s, actions), past + actions)
    decreases |actions|
  {
    if actions == [] {
      assert past + actions == past;
    } else {
      OneKeepsPrs(s, past, actions[0]);
      DisciplinedKeepsPrs(Dispatched(s, actions[0]), past + [actions[0]], actions[1..]);
      assert past + actions == (past + [actions[0]]) + actions[1..];
    }
  }

  lemma OneKeepsPrs(s: AfkState, past: seq<Action>, a: Action)
    requires Disciplined(s, a) && PrsKept(s, past)
    ensures PrsKept(Dispatched(s, a), past + [a])
  {
    assert (past + [a])[..|past|] == past;
    forall n
      ensures LastPr(None, past + [a], n) == if a.SetPr? && a.number == n then Some(a.pr) else LastPr(None, past, n)
    {
    }
  }

  /** A PR once recorded is never lost: over any sequence of sessions, each cut short anywhere and resumed from
      its snapshot, the PR of an issue is the last one that was set for it in any of them. */
  lemma {:induction false} PrsSurviveHistory(sessions: seq<Session>)
    requires History(sessions)
    ensures DiskAfter(sessions).Some? ==> PrsKept(DiskAfter(sessions).value, DispatchedBy(sessions))
    ensures DiskAfter(sessions).None? ==> DispatchedBy(sessions) == []
    decreases |sessions|
  {
    hide ToJson, FromJson, Reduce, Consistent, Counted, Disciplined, SeedActions, Dispatches, Honest, PrsKept;
    if sessions != [] {
      var earlier, ses := sessions[..|sessions| - 1], sessions[|sessions| - 1];
      var disk := DiskAfter(earlier);
      PrsSurviveHistory(earlier);
      CountersSurviveHistory(earlier);
      DispatchesAreDisciplined(disk, ses);
      var base, done := BaseOf(disk, ses.concurrency, ses.maxRetries), Dispatches(disk, ses);
      BaseKeepsPrs(disk, ses.concurrency, ses.maxRetries, DispatchedBy(earlier));
      DisciplinedKeepsPrs(base, DispatchedBy(earlier), done);
      StateRoundTrip(DispatchedAll(base, done));
      CostlessKeepsPrs(DispatchedAll(base, done), DispatchedBy(earlier) + done);
      assert done == [] ==> DispatchedBy(earlier) + done == DispatchedBy(earlier);
    }
  }

  lemma BaseKeepsPrs(disk: Option<AfkState>, concurrency: int, maxRetries: int, past: seq<Action>)
    requires if disk.Some? then PrsKept(disk.value, past) else past == []
    ensures PrsKept(BaseOf(disk, concurrency, maxRetries), past)
  {
  }

  lemma CostlessKeepsPrs(s: AfkState, past: seq<Action>)
    requires PrsKept(s, past)
    ensures PrsKept(Costless(s), past)
  {
    assert Costless(s).issues.Keys == s.issues.Keys;
    assert forall n | n in s.issues :: Costless(s).issues[n] == WithoutCost(s.issues[n]);
  }

  /** So the clamp in `RequeueIssue` never bites on `completed`. */
  lemma RequeueNeverClamps(s: AfkState, n: int)
    requires Counted(s) && n in s.issues && s.issues[n].status.Merged?
    ensures Dispatched(s, RequeueIssue(n)).completed == s.completed - 1 >= 0
  {
    assert n in WithStatus(s, Merged);
  }

  /** The clamp on `failed` does bite: a run escalates the only issue in work, as it does when the gate stays
      red or a fix fails, and the next session finds the issue still open and requeues it. */
  lemma EscalationThenRequeueClamps(n: int, issue: IssueState, item: Item)
    requires issue.number == n == item.number && (issue.status.PrOpen? || issue.status.Autofixing?)
    requires issue.slot == Some(0)
    ensures var s := AfkState(map[n := issue], map[0 := Some(n)], 1, 2, 0, 0);
      && Consistent(s) && Counted(s) && Disciplined(s, SetStatus(n, HumanReview))
      && var base := BaseOf(Some(Dispatched(s, SetStatus(n, HumanReview))), 1, 2);
         && SeedActions(base, [item]) == [SetBlockedBy(n, item.blockedBy), RequeueIssue(n)]
         && Clamps(Dispatched(base, SetBlockedBy(n, item.blockedBy)), RequeueIssue(n))
         && Seeded(base, [item]).failed == 0 && WithStatus(base, HumanReview) == {n}
  {
    var s := AfkState(map[n := issue], map[0 := Some(n)], 1, 2, 0, 0);
    assert WithStatus(s, Merged) == {} && WithStatus(s, HumanReview) == {};
    var base := BaseOf(Some(Dispatched(s, SetStatus(n, HumanReview))), 1, 2);
    assert base.issues.Keys == {n};
    SeedsRequeue(base, item);
    assert WithStatus(base, HumanReview) == {n};
  }

  lemma SeedsRequeue(base: AfkState, item: Item)
    requires item.number in base.issues && base.issues[item.number].status.HumanReview? && base.failed == 0
    ensures var actions := [SetBlockedBy(item.number, item.blockedBy), RequeueIssue(item.number)];
      && SeedActions(base, [item]) == actions && Seeded(base, [item]).failed == 0
      && Clamps(Dispatched(base, actions[0]), actions[1])
  {
    var actions := [SetBlockedBy(item.number, item.blockedBy), RequeueIssue(item.number)];
    assert ItemActions(base, item) == actions && [item][1..] == [];
    assert SeedActions(DispatchedAll(base, actions), []) == [];
    assert SeedActions(base, [item]) == actions;
    var refreshed := Dispatched(base, actions[0]);
    assert actions[1..] == [actions[1]];
    assert DispatchedAll(base, actions) == DispatchedAll(refreshed, actions[1..]);
    DispatchedOne(refreshed, actions[1]);
  }

  /** Resuming from whatever any history of sessions left on disk: every listed issue is queued with
      no slot, its listed blockers and its PR; issues not listed are as they were; all slots are
      free; and the counters still count. */
  lemma ResumeAfterHistory(sessions: seq<Session>, concurrency: int, maxRetries: int, items: seq<Item>)
    requires History(sessions)
    ensures var base := BaseOf(DiskAfter(sessions), concurrency, maxRetries); var t := Seeded(base, items);
      && Consistent(t) && Counted(t) && BusySlots(t) == {}
      && t.concurrency == concurrency && t.maxRetries == maxRetries
      && (forall i | LastFor(items, i) :: Ready(base, t, items[i]))
      && (forall n | n in base.issues && (forall i | 0 <= i < |items| :: items[i].number != n) ::
            n in t.issues && t.issues[n] == base.issues[n])
      && (forall n | n in Orphans(t) :: n in base.issues && InFlight(base.issues[n].status))
  {
    hide ToJson, FromJson, Reduce, Counted;
    CountersSurviveHistory(sessions);
    var base := BaseOf(DiskAfter(sessions), concurrency, maxRetries);
    BaseIsConsistent(DiskAfter(sessions), concurrency, maxRetries);
    SeedingReadies(base, items);
    DisciplinedRun(base, SeedActions(base, items));
    forall n | n in Orphans(Seeded(base, items)) ensures n in base.issues && InFlight(base.issues[n].status) {
      assert n in Orphans(base);
      assert IssueOk(n, base.issues[n]);
    }
  }
}
