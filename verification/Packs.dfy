/** Budget trimming of a context pack (agentrail/context/packs.py): items are dropped whole, least
    valuable first, until what is left fits a token budget or a price. */
module Packs {
  import opened Collections
  import opened Sequences
  import opened StableSort

  datatype Section =
    | RequiredContext | RepoOverview | AvailableSkills | AvailableTools
    | LikelyFiles | LikelyDocs | RelevantMemory | MemoryLane | PriorMistakes | ActiveState | Goals
    | ExcludedContext | OpenQuestions

  const RETRIEVAL := [LikelyFiles, LikelyDocs, RelevantMemory, PriorMistakes, ActiveState]

  const INCLUDED := [RequiredContext, RepoOverview, AvailableSkills, AvailableTools,
                     LikelyFiles, LikelyDocs, RelevantMemory, MemoryLane, PriorMistakes, ActiveState, Goals]

  const ALL := INCLUDED + [ExcludedContext, OpenQuestions]

  const TRIMMED := [ExcludedContext, OpenQuestions] + RETRIEVAL

  /** Content and final score, where there are any; the rest of the item is its tag. */
  datatype Item = Item(tag: string, content: Option<string>, score: Option<real>)

  type Sections = map<Section, seq<Item>>

  /** `sections.get(key, [])` */
  function Get(s: Sections, k: Section): seq<Item> {
    if k in s then s[k] else []
  }

  /** `_item_tokens` */
  function ItemTokens(i: Item): nat {
    if i.content.Some? then (|i.content.value| + 3) / 4 else 0
  }

  function ListTokens(items: seq<Item>): nat {
    if items == [] then 0 else ItemTokens(items[0]) + ListTokens(items[1..])
  }

  function Tokens(s: Sections, keys: seq<Section>): nat {
    if keys == [] then 0 else ListTokens(Get(s, keys[0])) + Tokens(s, keys[1..])
  }

  /** An item without a score counts as infinitely valuable. */
  predicate ScoreLe(x: Item, y: Item) {
    y.score.None? || (x.score.Some? && x.score.value <= y.score.value)
  }

  // ---------------------------------------------------------------------------
  // What may be dropped, in which order
  // ---------------------------------------------------------------------------

  datatype Pair = Pair(section: Section, item: Item)

  function PairsOf(k: Section, items: seq<Item>): seq<Pair> {
    if items == [] then [] else [Pair(k, items[0])] + PairsOf(k, items[1..])
  }

  function PairsIn(s: Sections, keys: seq<Section>): seq<Pair> {
    if keys == [] then [] else PairsOf(keys[0], Get(s, keys[0])) + PairsIn(s, keys[1..])
  }

  predicate PairLe(p: Pair, q: Pair) {
    ScoreLe(p.item, q.item)
  }

  /** The retrieval items, lowest score first. */
  function Candidates(s: Sections): seq<Pair> {
    Sort(PairsIn(s, RETRIEVAL), PairLe)
  }

  /** The order in which `_trim_to_budget` drops. */
  function Droppable(s: Sections): seq<Pair> {
    PairsIn(s, [ExcludedContext, OpenQuestions]) + Candidates(s)
  }

  /** `items.remove(item)`, for an item that is there. */
  function RemoveFirst(items: seq<Item>, item: Item): seq<Item>
    requires item in items
  {
    if items[0] == item then items[1..] else [items[0]] + RemoveFirst(items[1..], item)
  }

  /** A missing item raises and is passed over. */
  function Drop(s: Sections, p: Pair): Sections {
    if p.item in Get(s, p.section) then s[p.section := RemoveFirst(Get(s, p.section), p.item)] else s
  }

  function DropAll(s: Sections, pairs: seq<Pair>): Sections {
    if pairs == [] then s else
      Drop(DropAll(s, pairs[..|pairs| - 1]), pairs[|pairs| - 1])
  }

  type Fits = int -> bool

  /** How many drops it takes until the total fits. */
  function DropCount(total: int, pairs: seq<Pair>, fits: Fits): (n: nat)
    ensures n <= |pairs|
    decreases |pairs|
  {
    if pairs == [] || fits(total) then 0
    else 1 + DropCount(total - ItemTokens(pairs[0].item), pairs[1..], fits)
  }

  /** Every item of the section is waiting in the list as often as it occurs. */
  ghost predicate Pending(s: Sections, pairs: seq<Pair>, k: Section) {
    forall x :: multiset(Get(s, k))[x] == multiset(pairs)[Pair(k, x)]
  }

  lemma {:induction false} RemoveFirstTakesOne(items: seq<Item>, item: Item)
    requires item in items
    ensures multiset(RemoveFirst(items, item)) == multiset(items) - multiset{item}
    ensures ListTokens(RemoveFirst(items, item)) == ListTokens(items) - ItemTokens(item)
  {
    assert items == [items[0]] + items[1..];
    if items[0] != item {
      var r := RemoveFirst(items[1..], item);
      RemoveFirstTakesOne(items[1..], item);
      assert ([items[0]] + r)[1..] == r;
    }
  }

  lemma {:induction false} RemoveFirstIsSublist(items: seq<Item>, item: Item)
    requires item in items
    ensures Sublist(RemoveFirst(items, item), items)
  {
    if items[0] == item {
      SublistReflexive(items[1..]);
      SublistReflexive(items);
    } else {
      var r := RemoveFirst(items[1..], item);
      RemoveFirstIsSublist(items[1..], item);
      assert ([items[0]] + r)[1..] == r;
    }
  }

  lemma {:induction false} SublistReflexive(items: seq<Item>)
    ensures Sublist(items, items)
    ensures items != [] ==> Sublist(items[1..], items)
  {
    if items != [] { SublistReflexive(items[1..]); }
  }

  lemma {:induction false} PairsOfCount(k: Section, items: seq<Item>, p: Pair)
    ensures multiset(PairsOf(k, items))[p] == if p.section == k then multiset(items)[p.item] else 0
  {
    if items != [] {
      PairsOfCount(k, items[1..], p);
      assert items == [items[0]] + items[1..];
      assert PairsOf(k, items) == [Pair(k, items[0])] + PairsOf(k, items[1..]);
    }
  }

  lemma {:induction false} PairsInCount(s: Sections, keys: seq<Section>, p: Pair)
    requires Distinct(keys)
    ensures multiset(PairsIn(s, keys))[p] == if p.section in keys then multiset(Get(s, p.section))[p.item] else 0
  {
    if keys != [] {
      PairsInCount(s, keys[1..], p);
      PairsOfCount(keys[0], Get(s, keys[0]), p);
      assert keys == [keys[0]] + keys[1..];
    }
  }

  lemma TokensAfterDrop(s: Sections, keys: seq<Section>, p: Pair)
    requires p.item in Get(s, p.section) && Distinct(keys)
    ensures Tokens(Drop(s, p), keys) == Tokens(s, keys) - (if p.section in keys then ItemTokens(p.item) else 0)
  {
    if keys != [] {
      TokensAfterDrop(s, keys[1..], p);
      RemoveFirstTakesOne(Get(s, p.section), p.item);
      assert keys == [keys[0]] + keys[1..];
    }
  }

  /** The list holds the items of these sections and nothing else. */
  ghost predicate Waiting(s: Sections, pairs: seq<Pair>, keys: seq<Section>) {
    (forall k | k in keys :: Pending(s, pairs, k)) && forall p | p in pairs :: p.section in keys
  }

  lemma HeadCount(p: Pair, rest: seq<Pair>, q: Pair)
    ensures multiset([p] + rest)[q] == multiset(rest)[q] + (if p == q then 1 else 0)
  {
    assert multiset([p] + rest) == multiset{p} + multiset(rest);
  }

  lemma ListAfterDrop(s: Sections, p: Pair, k: Section, x: Item)
    requires p.item in Get(s, p.section)
    ensures multiset(Get(Drop(s, p), k))[x] ==
      multiset(Get(s, k))[x] - (if p == Pair(k, x) then 1 else 0)
  {
    RemoveFirstTakesOne(Get(s, p.section), p.item);
  }

  lemma PendingStep(s: Sections, p: Pair, rest: seq<Pair>, k: Section)
    requires p.item in Get(s, p.section) && Pending(s, [p] + rest, k)
    ensures Pending(Drop(s, p), rest, k)
  {
    hide Drop;
    forall x ensures multiset(Get(Drop(s, p), k))[x] == multiset(rest)[Pair(k, x)] {
      ListAfterDrop(s, p, k, x);
      HeadCount(p, rest, Pair(k, x));
      assert multiset(Get(s, k))[x] == multiset([p] + rest)[Pair(k, x)];
    }
  }

  lemma DropOne(s: Sections, pairs: seq<Pair>, keys: seq<Section>)
    requires Waiting(s, pairs, keys) && pairs != []
    ensures pairs[0].item in Get(s, pairs[0].section) && Waiting(Drop(s, pairs[0]), pairs[1..], keys)
  {
    hide Drop;
    var p, rest := pairs[0], pairs[1..];
    assert p in pairs && Pending(s, pairs, p.section);
    assert multiset(Get(s, p.section))[p.item] == multiset(pairs)[Pair(p.section, p.item)];
    assert p.item in multiset(Get(s, p.section));
    assert pairs == [p] + rest;
    forall k | k in keys ensures Pending(Drop(s, p), rest, k) {
      PendingStep(s, p, rest, k);
    }
  }

  lemma WaitingSection(s: Sections, pairs: seq<Pair>, keys: seq<Section>, p: Pair)
    requires Waiting(s, pairs, keys) && p in pairs
    ensures p.section in keys
  {
  }

  function PairTokens(pairs: seq<Pair>): int {
    if pairs == [] then 0 else PairTokens(pairs[..|pairs| - 1]) + ItemTokens(pairs[|pairs| - 1].item)
  }

  /** After any number of drops every dropped pair was there to be dropped, and what is left of the
      droppable sections is what is left of the list. */
  lemma {:induction false} DropsSucceed(s: Sections, pairs: seq<Pair>, keys: seq<Section>, n: nat, summed: seq<Section>)
    requires n <= |pairs| && Distinct(summed) && Waiting(s, pairs, keys)
    requires forall k | k in keys :: k in summed
    ensures Waiting(DropAll(s, pairs[..n]), pairs[n..], keys)
    ensures Tokens(DropAll(s, pairs[..n]), summed) == Tokens(s, summed) - PairTokens(pairs[..n])
  {
    hide Drop, Waiting, Tokens;
    if n == 0 {
      assert pairs[..0] == [] && pairs[0..] == pairs;
    } else {
      DropsSucceed(s, pairs, keys, n - 1, summed);
      var before, p := DropAll(s, pairs[..n - 1]), pairs[n - 1];
      assert pairs[..n][..n - 1] == pairs[..n - 1];
      assert pairs[n - 1..][0] == p && pairs[n - 1..][1..] == pairs[n..];
      DropOne(before, pairs[n - 1..], keys);
      WaitingSection(s, pairs, keys, p);
      TokensAfterDrop(before, summed, p);
    }
  }

  // ---------------------------------------------------------------------------
  // Stopping
  // ---------------------------------------------------------------------------

  lemma {:induction false} PairTokensFront(pairs: seq<Pair>, n: nat)
    requires 0 < n <= |pairs|
    ensures PairTokens(pairs[..n]) == ItemTokens(pairs[0].item) + PairTokens(pairs[1..][..n - 1])
  {
    if n == 1 {
      assert pairs[..1][..0] == [] && pairs[1..][..0] == [];
    } else {
      PairTokensFront(pairs, n - 1);
      assert pairs[..n][..n - 1] == pairs[..n - 1];
      assert pairs[1..][..n - 1][..n - 2] == pairs[1..][..n - 2];
    }
  }

  /** `n` is where the loop stops. */
  predicate StopsAt(total: int, pairs: seq<Pair>, fits: Fits, n: nat) {
    && n <= |pairs|
    && (n < |pairs| ==> fits(total - PairTokens(pairs[..n])))
    && forall i | 0 <= i < n :: !fits(total - PairTokens(pairs[..i]))
  }

  lemma {:induction false} DropCountStops(total: int, pairs: seq<Pair>, fits: Fits)
    ensures StopsAt(total, pairs, fits, DropCount(total, pairs, fits))
    decreases |pairs|
  {
    var n := DropCount(total, pairs, fits);
    NothingDropped(pairs);
    if n > 0 {
      var rest, less := pairs[1..], total - ItemTokens(pairs[0].item);
      DropCountStops(less, rest, fits);
      if n < |pairs| { PairTokensFront(pairs, n); }
      forall i | 0 <= i < n ensures !fits(total - PairTokens(pairs[..i])) {
        if i > 0 {
          PairTokensFront(pairs, i);
          assert !fits(less - PairTokens(rest[..i - 1]));
        }
      }
    }
  }

  lemma NothingDropped(pairs: seq<Pair>)
    ensures pairs[..0] == [] && PairTokens(pairs[..0]) == 0
  {
  }

  /** There is only one place to stop. */
  lemma StopIsUnique(total: int, pairs: seq<Pair>, fits: Fits, n: nat)
    requires StopsAt(total, pairs, fits, n)
    ensures n == DropCount(total, pairs, fits)
  {
    DropCountStops(total, pairs, fits);
  }

  function ItemsOf(pairs: seq<Pair>): seq<Item> {
    if pairs == [] then [] else ItemsOf(pairs[..|pairs| - 1]) + [pairs[|pairs| - 1].item]
  }

  function Within(budget: int): Fits {
    tokens => tokens <= budget
  }

  function Affordable(cost: int -> real, budgetUsd: real): Fits {
    tokens => cost(tokens) <= budgetUsd
  }

  function FillCount(s: Sections, budget: int): nat {
    DropCount(Tokens(s, INCLUDED), Candidates(s), Within(budget))
  }

  /** A model whose price is not known is not trimmed for. */
  function TrimCount(s: Sections, known: bool, cost: int -> real, budgetUsd: real): nat {
    if known then DropCount(Tokens(s, ALL), Droppable(s), Affordable(cost, budgetUsd)) else 0
  }

  lemma CandidatesWait(s: Sections)
    ensures Waiting(s, Candidates(s), RETRIEVAL)
  {
    hide Get, Sort;
    var pairs := PairsIn(s, RETRIEVAL);
    SortPermutes(pairs, PairLe);
    forall k, x | k in RETRIEVAL ensures multiset(Get(s, k))[x] == multiset(Candidates(s))[Pair(k, x)] {
      PairsInCount(s, RETRIEVAL, Pair(k, x));
    }
    forall p | p in Candidates(s) ensures p.section in RETRIEVAL {
      PairsInCount(s, RETRIEVAL, p);
      assert p in multiset(Candidates(s));
    }
  }

  lemma DroppableWait(s: Sections)
    ensures Waiting(s, Droppable(s), TRIMMED)
  {
    hide Get, Sort, PairsIn;
    var first := [ExcludedContext, OpenQuestions];
    CandidatesWait(s);
    forall k, x | k in TRIMMED ensures multiset(Get(s, k))[x] == multiset(Droppable(s))[Pair(k, x)] {
      PairsInCount(s, first, Pair(k, x));
      if k in first {
        assert Pair(k, x) !in Candidates(s);
      } else {
        assert Pending(s, Candidates(s), k);
      }
    }
    forall p | p in Droppable(s) ensures p.section in TRIMMED {
      PairsInCount(s, first, p);
      if p in PairsIn(s, first) { assert p in multiset(PairsIn(s, first)); }
    }
  }

  /** One turn of either loop. */
  lemma OneTurn(s: Sections, pairs: seq<Pair>, keys: seq<Section>, i: nat, summed: seq<Section>)
    requires i < |pairs| && Distinct(summed) && Waiting(s, pairs, keys)
    requires forall k | k in keys :: k in summed
    ensures var before := DropAll(s, pairs[..i]);
      && pairs[i].item in Get(before, pairs[i].section)
      && DropAll(s, pairs[..i + 1]) == Drop(before, pairs[i])
      && Tokens(DropAll(s, pairs[..i + 1]), summed) == Tokens(s, summed) - PairTokens(pairs[..i + 1])
      && PairTokens(pairs[..i + 1]) == PairTokens(pairs[..i]) + ItemTokens(pairs[i].item)
      && ItemsOf(pairs[..i + 1]) == ItemsOf(pairs[..i]) + [pairs[i].item]
  {
    hide Tokens, Drop, Waiting, Get;
    DropsSucceed(s, pairs, keys, i, summed);
    DropOne(DropAll(s, pairs[..i]), pairs[i..], keys);
    DropsSucceed(s, pairs, keys, i + 1, summed);
    assert pairs[..i + 1][..i] == pairs[..i];
  }

  lemma NoTurn(s: Sections, pairs: seq<Pair>)
    ensures pairs[..0] == [] && DropAll(s, pairs[..0]) == s
    ensures PairTokens(pairs[..0]) == 0 && ItemsOf(pairs[..0]) == []
  {
  }

  // ---------------------------------------------------------------------------
  // What trimming guarantees
  // ---------------------------------------------------------------------------

  /** Kept and dropped make up what was there, section by section, and what is kept keeps its order. */
  ghost predicate Conserved(s: Sections, t: Sections, dropped: seq<Pair>) {
    && (forall k, x :: multiset(Get(t, k))[x] + multiset(dropped)[Pair(k, x)] == multiset(Get(s, k))[x])
    && (forall k :: Sublist(Get(t, k), Get(s, k)))
  }

  lemma {:induction false} SublistTransitive(a: seq<Item>, b: seq<Item>, c: seq<Item>)
    requires Sublist(a, b) && Sublist(b, c)
    ensures Sublist(a, c)
    decreases |c|
  {
    if a != [] {
      if b[0] == c[0] && Sublist(b[1..], c[1..]) {
        if a[0] == b[0] && Sublist(a[1..], b[1..]) {
          SublistTransitive(a[1..], b[1..], c[1..]);
        } else {
          SublistTransitive(a, b[1..], c[1..]);
        }
      } else {
        SublistTransitive(a, b, c[1..]);
      }
    }
  }

  lemma SublistAfterDrop(s: Sections, p: Pair, k: Section)
    ensures Sublist(Get(Drop(s, p), k), Get(s, k))
  {
    if p.item in Get(s, p.section) { RemoveFirstIsSublist(Get(s, p.section), p.item); }
    SublistReflexive(Get(s, k));
  }

  lemma ConserveNothing(s: Sections)
    ensures Conserved(s, s, [])
  {
    forall k ensures Sublist(Get(s, k), Get(s, k)) { SublistReflexive(Get(s, k)); }
  }

  lemma ConserveStep(s: Sections, before: Sections, done: seq<Pair>, p: Pair)
    requires Conserved(s, before, done) && p.item in Get(before, p.section)
    ensures Conserved(s, Drop(before, p), done + [p])
  {
    hide Drop, Get;
    var after := Drop(before, p);
    forall k, x ensures multiset(Get(after, k))[x] + multiset(done + [p])[Pair(k, x)] == multiset(Get(s, k))[x] {
      ListAfterDrop(before, p, k, x);
      LastCount(done, p, Pair(k, x));
      assert multiset(Get(before, k))[x] + multiset(done)[Pair(k, x)] == multiset(Get(s, k))[x];
    }
    forall k ensures Sublist(Get(after, k), Get(s, k)) {
      SublistAfterDrop(before, p, k);
      SublistTransitive(Get(after, k), Get(before, k), Get(s, k));
    }
  }

  lemma LastCount(done: seq<Pair>, p: Pair, q: Pair)
    ensures multiset(done + [p])[q] == multiset(done)[q] + (if p == q then 1 else 0)
  {
    assert multiset(done + [p]) == multiset(done) + multiset{p};
  }

  lemma {:induction false} DropsConserve(s: Sections, pairs: seq<Pair>, keys: seq<Section>, n: nat)
    requires n <= |pairs| && Waiting(s, pairs, keys) && forall k | k in keys :: k in ALL
    ensures Conserved(s, DropAll(s, pairs[..n]), pairs[..n])
  {
    hide Drop, Waiting, Get, Tokens, Conserved, DropAll;
    if n == 0 {
      NoTurn(s, pairs);
      ConserveNothing(s);
    } else {
      DropsConserve(s, pairs, keys, n - 1);
      OneTurn(s, pairs, keys, n - 1, ALL);
      ConserveStep(s, DropAll(s, pairs[..n - 1]), pairs[..n - 1], pairs[n - 1]);
      assert pairs[..n] == pairs[..n - 1] + [pairs[n - 1]];
    }
  }

  /** Nothing is dropped before something that had to go first. */
  function DropRank(k: Section): int {
    if k == ExcludedContext then 0 else if k == OpenQuestions then 1 else 2
  }

  predicate GoesBefore(p: Pair, q: Pair) {
    DropRank(p.section) < DropRank(q.section) ||
    (DropRank(p.section) == DropRank(q.section) && (DropRank(p.section) == 2 ==> PairLe(p, q)))
  }

  lemma PairLeIsPreorder()
    ensures Preorder(PairLe)
  {
  }

  lemma CandidatesOrdered(s: Sections)
    ensures Sorted(Candidates(s), PairLe)
    ensures forall p | p in Candidates(s) :: DropRank(p.section) == 2
  {
    hide PairsIn, Sort, Pending;
    PairLeIsPreorder();
    SortSorts(PairsIn(s, RETRIEVAL), PairLe);
    CandidatesWait(s);
  }

  lemma {:induction false} PairsOfSection(k: Section, items: seq<Item>)
    ensures forall p | p in PairsOf(k, items) :: p.section == k
  {
    if items != [] { PairsOfSection(k, items[1..]); }
  }

  lemma ThreeGroups(first: seq<Pair>, second: seq<Pair>, third: seq<Pair>)
    requires forall p | p in first :: DropRank(p.section) == 0
    requires forall p | p in second :: DropRank(p.section) == 1
    requires (forall p | p in third :: DropRank(p.section) == 2) && Sorted(third, PairLe)
    ensures Sorted(first + (second + third), GoesBefore)
  {
    hide PairLe, DropRank;
    var all, m, n := first + (second + third), |first|, |first| + |second|;
    assert forall i | 0 <= i < m :: all[i] == first[i] && DropRank(all[i].section) == 0;
    assert forall i | m <= i < n :: all[i] == second[i - m] && DropRank(all[i].section) == 1;
    assert forall i | n <= i < |all| :: all[i] == third[i - n] && DropRank(all[i].section) == 2;
  }

  lemma DroppableOrdered(s: Sections)
    ensures Sorted(Droppable(s), GoesBefore)
  {
    hide Candidates, Sorted, Get;
    PairsOfSection(ExcludedContext, Get(s, ExcludedContext));
    PairsOfSection(OpenQuestions, Get(s, OpenQuestions));
    CandidatesOrdered(s);
    var excluded := PairsOf(ExcludedContext, Get(s, ExcludedContext));
    var open := PairsOf(OpenQuestions, Get(s, OpenQuestions));
    var keys := [ExcludedContext, OpenQuestions];
    assert keys[1..] == [OpenQuestions] && keys[1..][1..] == [];
    assert PairsIn(s, keys[1..]) == open;
    ThreeGroups(excluded, open, Candidates(s));
    assert Droppable(s) == excluded + (open + Candidates(s));
  }

  /** Whatever is kept of the droppable sections comes after whatever was dropped. */
  lemma KeptComesLater(s: Sections, pairs: seq<Pair>, keys: seq<Section>, n: nat,
                       le: (Pair, Pair) -> bool, k: Section, kept: Item, p: Pair)
    requires n <= |pairs| && Waiting(s, pairs, keys) && Sorted(pairs, le) && (forall j | j in keys :: j in ALL)
    requires k in keys && kept in Get(DropAll(s, pairs[..n]), k) && p in pairs[..n]
    ensures le(p, Pair(k, kept))
  {
    hide Drop, DropAll, Get, Tokens;
    var t := DropAll(s, pairs[..n]);
    DropsSucceed(s, pairs, keys, n, ALL);
    assert Pending(t, pairs[n..], k);
    assert multiset(Get(t, k))[kept] == multiset(pairs[n..])[Pair(k, kept)];
    assert Pair(k, kept) in pairs[n..];
    var i :| 0 <= i < n && pairs[..n][i] == p;
    var j :| 0 <= j < |pairs[n..]| && pairs[n..][j] == Pair(k, kept);
    assert pairs[i] == p && pairs[n + j] == Pair(k, kept);
  }

  lemma AllDropped(s: Sections, pairs: seq<Pair>, keys: seq<Section>, k: Section)
    requires Waiting(s, pairs, keys) && k in keys && forall j | j in keys :: j in ALL
    ensures Get(DropAll(s, pairs[..|pairs|]), k) == []
  {
    hide Drop, DropAll, Get, Tokens;
    var t := DropAll(s, pairs[..|pairs|]);
    DropsSucceed(s, pairs, keys, |pairs|, ALL);
    assert Pending(t, pairs[|pairs|..], k) && pairs[|pairs|..] == [];
    assert multiset(Get(t, k)) == multiset{};
    assert |multiset(Get(t, k))| == |Get(t, k)|;
  }

  /** Dropping from the front of the list until the total fits: in the end it fits, unless the sections
      are empty; nothing is lost, nothing kept should have gone first, and no drop was one too many. */
  ghost predicate SoundDrops(s: Sections, pairs: seq<Pair>, keys: seq<Section>, n: nat,
                             summed: seq<Section>, fits: Fits, le: (Pair, Pair) -> bool)
    requires n <= |pairs|
  {
    var t := DropAll(s, pairs[..n]);
    && (fits(Tokens(t, summed)) || forall k | k in keys :: Get(t, k) == [])
    && Conserved(s, t, pairs[..n])
    && (forall k, kept, p | k in keys && kept in Get(t, k) && p in pairs[..n] :: le(p, Pair(k, kept)))
    && (forall i | 0 <= i < n :: !fits(Tokens(DropAll(s, pairs[..i]), summed)))
  }

  lemma DropsFit(s: Sections, pairs: seq<Pair>, keys: seq<Section>, n: nat, summed: seq<Section>, fits: Fits)
    requires Waiting(s, pairs, keys) && Distinct(summed)
    requires (forall k | k in keys :: k in summed) && (forall k | k in keys :: k in ALL)
    requires n == DropCount(Tokens(s, summed), pairs, fits)
    ensures fits(Tokens(DropAll(s, pairs[..n]), summed)) || forall k | k in keys :: Get(DropAll(s, pairs[..n]), k) == []
    ensures forall i | 0 <= i < n :: !fits(Tokens(DropAll(s, pairs[..i]), summed))
  {
    hide Tokens, DropAll, Get, Waiting, DropCount, PairTokens;
    var total := Tokens(s, summed);
    DropCountStops(total, pairs, fits);
    DropsSucceed(s, pairs, keys, n, summed);
    forall k | k in keys ensures n == |pairs| ==> Get(DropAll(s, pairs[..n]), k) == [] {
      AllDropped(s, pairs, keys, k);
    }
    forall i | 0 <= i < n ensures !fits(Tokens(DropAll(s, pairs[..i]), summed)) {
      DropsSucceed(s, pairs, keys, i, summed);
      assert !fits(total - PairTokens(pairs[..i]));
    }
  }

  lemma DropsAreSound(s: Sections, pairs: seq<Pair>, keys: seq<Section>, n: nat,
                      summed: seq<Section>, fits: Fits, le: (Pair, Pair) -> bool)
    requires Waiting(s, pairs, keys) && Distinct(summed) && Sorted(pairs, le)
    requires (forall k | k in keys :: k in summed) && (forall k | k in keys :: k in ALL)
    requires n == DropCount(Tokens(s, summed), pairs, fits)
    ensures SoundDrops(s, pairs, keys, n, summed, fits, le)
  {
    hide Tokens, DropAll, Get, Waiting, DropCount, Conserved, Sorted;
    DropsFit(s, pairs, keys, n, summed, fits);
    DropsConserve(s, pairs, keys, n);
    forall k, kept, p | k in keys && kept in Get(DropAll(s, pairs[..n]), k) && p in pairs[..n]
      ensures le(p, Pair(k, kept))
    {
      KeptComesLater(s, pairs, keys, n, le, k, kept, p);
    }
  }

  /** The token budget is met, unless every retrieval section is empty; nothing is lost, nothing kept
      scores below what was dropped, and not one drop more than needed is made. */
  lemma FillIsSound(s: Sections, budget: int)
    ensures SoundDrops(s, Candidates(s), RETRIEVAL, FillCount(s, budget), INCLUDED, Within(budget), PairLe)
  {
    hide Candidates, Waiting, Tokens, DropCount, SoundDrops;
    CandidatesWait(s);
    CandidatesOrdered(s);
    DropsAreSound(s, Candidates(s), RETRIEVAL, FillCount(s, budget), INCLUDED, Within(budget), PairLe);
  }

  /** Likewise for the price, with excluded context dropped before open questions, and those before any
      retrieval item. */
  lemma TrimIsSound(s: Sections, cost: int -> real, budgetUsd: real)
    ensures SoundDrops(s, Droppable(s), TRIMMED, TrimCount(s, true, cost, budgetUsd), ALL,
                       Affordable(cost, budgetUsd), GoesBefore)
  {
    hide Droppable, Waiting, Tokens, DropCount, SoundDrops;
    DroppableWait(s);
    DroppableOrdered(s);
    DropsAreSound(s, Droppable(s), TRIMMED, TrimCount(s, true, cost, budgetUsd), ALL,
                  Affordable(cost, budgetUsd), GoesBefore);
  }

  // ---------------------------------------------------------------------------
  // The same in the pack's own words
  // ---------------------------------------------------------------------------

  /** An item counts one token for every four characters of its content, begun ones included. */
  lemma TokensOfItem(i: Item)
    ensures i.content.None? ==> ItemTokens(i) == 0
    ensures i.content.Some? ==> 4 * ItemTokens(i) - 4 < |i.content.value| <= 4 * ItemTokens(i)
  {
  }

  lemma {:induction false} TokensAddUp(a: seq<Item>, b: seq<Item>)
    ensures ListTokens(a + b) == ListTokens(a) + ListTokens(b)
    ensures ListTokens([]) == 0
    ensures forall i: Item :: ListTokens([i]) == ItemTokens(i)
  {
    forall i: Item ensures ListTokens([i]) == ItemTokens(i) { assert [i][1..] == []; }
    if a == [] {
      assert a + b == b;
    } else {
      TokensAddUp(a[1..], b);
      assert (a + b)[1..] == a[1..] + b;
    }
  }

  /** The items of the sections in turn. */
  function Joined(s: Sections, keys: seq<Section>): seq<Item> {
    if keys == [] then [] else Joined(s, keys[..|keys| - 1]) + Get(s, keys[|keys| - 1])
  }

  lemma {:induction false} TokensAppend(s: Sections, keys: seq<Section>, k: Section)
    ensures Tokens(s, keys + [k]) == Tokens(s, keys) + ListTokens(Get(s, k))
  {
    if keys == [] {
      assert ([] + [k]) == [k] && [k][1..] == [];
    } else {
      TokensAppend(s, keys[1..], k);
      assert (keys + [k])[1..] == keys[1..] + [k];
    }
  }

  lemma NoTokens(s: Sections)
    ensures Tokens(s, []) == ListTokens([]) == 0
  {
  }

  /** The total is that of all the items of the sections. */
  lemma {:induction false} TokensOfJoined(s: Sections, keys: seq<Section>)
    ensures Tokens(s, keys) == ListTokens(Joined(s, keys))
  {
    hide Get, ListTokens, Tokens;
    NoTokens(s);
    if keys != [] {
      var front, last := keys[..|keys| - 1], keys[|keys| - 1];
      TokensOfJoined(s, front);
      TokensAppend(s, front, last);
      TokensAddUp(Joined(s, front), Get(s, last));
      assert keys == front + [last];
    }
  }

  /** A section the retrieval fills. */
  predicate Retrieved(k: Section) {
    k == LikelyFiles || k == LikelyDocs || k == RelevantMemory || k == PriorMistakes || k == ActiveState
  }

  lemma {:induction false} DropAllElsewhere(s: Sections, pairs: seq<Pair>, k: Section)
    requires forall p | p in pairs :: p.section != k
    ensures Get(DropAll(s, pairs), k) == Get(s, k)
  {
    if pairs != [] { DropAllElsewhere(s, pairs[..|pairs| - 1], k); }
  }

  lemma IncludedIsAllButTwo(k: Section)
    ensures k in INCLUDED <==> k != ExcludedContext && k != OpenQuestions
    ensures k in RETRIEVAL <==> Retrieved(k)
    ensures k in TRIMMED <==> Retrieved(k) || k == ExcludedContext || k == OpenQuestions
    ensures k in ALL && Distinct(INCLUDED) && Distinct(ALL)
  {
  }

  /** What was dropped scored no higher than what is kept. */
  ghost predicate DropsTheLeast(t: Sections, dropped: seq<Pair>) {
    forall k, kept, p | Retrieved(k) && kept in Get(t, k) && p in dropped && Retrieved(p.section) ::
      kept.score.None? || (p.item.score.Some? && p.item.score.value <= kept.score.value)
  }

  lemma SectionsByName()
    ensures forall k :: k in INCLUDED <==> k != ExcludedContext && k != OpenQuestions
    ensures forall k :: k in RETRIEVAL <==> Retrieved(k)
    ensures forall k :: k in TRIMMED <==> Retrieved(k) || k == ExcludedContext || k == OpenQuestions
  {
    forall k ensures k in INCLUDED <==> k != ExcludedContext && k != OpenQuestions { IncludedIsAllButTwo(k); }
    forall k ensures k in RETRIEVAL <==> Retrieved(k) { IncludedIsAllButTwo(k); }
    forall k ensures k in TRIMMED <==> Retrieved(k) || k == ExcludedContext || k == OpenQuestions {
      IncludedIsAllButTwo(k);
    }
  }

  /** What the general guarantee says of the sections by name. */
  lemma SoundMeans(s: Sections, pairs: seq<Pair>, keys: seq<Section>, n: nat, summed: seq<Section>, fits: Fits,
                   le: (Pair, Pair) -> bool)
    requires n <= |pairs| && SoundDrops(s, pairs, keys, n, summed, fits, le) && Waiting(s, pairs, keys)
    requires forall k | Retrieved(k) :: k in keys
    requires forall p, q | le(p, q) && Retrieved(p.section) && Retrieved(q.section) :: ScoreLe(p.item, q.item)
    ensures var t := DropAll(s, pairs[..n]);
      && (forall k | k !in keys :: Get(t, k) == Get(s, k))
      && (fits(Tokens(t, summed)) || forall k | k in keys :: Get(t, k) == [])
      && DropsTheLeast(t, pairs[..n])
  {
    hide Tokens, DropAll, Get, Pending, Conserved;
    forall k | k !in keys ensures Get(DropAll(s, pairs[..n]), k) == Get(s, k) {
      DropAllElsewhere(s, pairs[..n], k);
    }
  }

  /** After filling to the token budget: the retrieval sections alone have changed; the tokens of what is
      included are within the budget, or nothing retrieved is left; and whatever was dropped scored no higher
      than anything retrieved that is kept. */
  lemma FillSpelledOut(s: Sections, budget: int)
    ensures var pairs := Candidates(s)[..FillCount(s, budget)]; var t := DropAll(s, pairs);
      && (forall k | !Retrieved(k) :: Get(t, k) == Get(s, k))
      && (Tokens(t, INCLUDED) <= budget || forall k | Retrieved(k) :: Get(t, k) == [])
      && (Tokens(s, INCLUDED) <= budget ==> t == s)
      && DropsTheLeast(t, pairs)
  {
    hide Tokens, DropAll, Get, Candidates, DropCount, SoundDrops, Waiting, DropsTheLeast;
    FillIsSound(s, budget);
    CandidatesWait(s);
    SectionsByName();
    SoundMeans(s, Candidates(s), RETRIEVAL, FillCount(s, budget), INCLUDED, Within(budget), PairLe);
    NoTurn(s, Candidates(s));
    FillStops(s, budget);
  }

  lemma FillStops(s: Sections, budget: int)
    ensures Tokens(s, INCLUDED) <= budget ==> FillCount(s, budget) == 0
  {
  }

  lemma EmptyIfNoMember(items: seq<Item>)
    ensures items == [] <==> forall x :: x !in items
  {
    assert |items| > 0 ==> items[0] in items;
  }

  /** An earlier group is gone before anything of a later one is dropped. */
  lemma GroupsInTurn(s: Sections, n: nat, fits: Fits, k: Section)
    requires n <= |Droppable(s)| && SoundDrops(s, Droppable(s), TRIMMED, n, ALL, fits, GoesBefore) && k in TRIMMED
    ensures forall p | p in Droppable(s)[..n] && DropRank(k) < DropRank(p.section) ::
      Get(DropAll(s, Droppable(s)[..n]), k) == []
  {
    hide Tokens, DropAll, Get, Conserved;
    var t := DropAll(s, Droppable(s)[..n]);
    forall p | p in Droppable(s)[..n] && DropRank(k) < DropRank(p.section) ensures Get(t, k) == [] {
      assert forall kept | kept in Get(t, k) :: GoesBefore(p, Pair(k, kept));
      EmptyIfNoMember(Get(t, k));
    }
  }

  /** After trimming to the price: what must never be dropped is untouched; the price is met, or everything that
      may be dropped is gone; excluded context goes before open questions, those before anything retrieved. */
  lemma TrimSpelledOut(s: Sections, cost: int -> real, budgetUsd: real)
    ensures var pairs := Droppable(s)[..TrimCount(s, true, cost, budgetUsd)]; var t := DropAll(s, pairs);
      && (forall k | !Retrieved(k) && k != ExcludedContext && k != OpenQuestions :: Get(t, k) == Get(s, k))
      && (cost(Tokens(t, ALL)) <= budgetUsd ||
          forall k | Retrieved(k) || k == ExcludedContext || k == OpenQuestions :: Get(t, k) == [])
      && (forall p | p in pairs && p.section != ExcludedContext :: Get(t, ExcludedContext) == [])
      && (forall p | p in pairs && p.section != ExcludedContext && p.section != OpenQuestions ::
            Get(t, OpenQuestions) == [])
      && DropsTheLeast(t, pairs)
  {
    hide Tokens, DropAll, Get, Droppable, DropCount, SoundDrops, Waiting, DropsTheLeast;
    var n := TrimCount(s, true, cost, budgetUsd);
    TrimIsSound(s, cost, budgetUsd);
    DroppableWait(s);
    SectionsByName();
    SoundMeans(s, Droppable(s), TRIMMED, n, ALL, Affordable(cost, budgetUsd), GoesBefore);
    GroupsInTurn(s, n, Affordable(cost, budgetUsd), ExcludedContext);
    GroupsInTurn(s, n, Affordable(cost, budgetUsd), OpenQuestions);
  }

  // ---------------------------------------------------------------------------
  // The object that is trimmed
  // ---------------------------------------------------------------------------

  class Pack {
    var sections: Sections

    constructor (sections: Sections)
      ensures this.sections == sections
    {
      this.sections := sections;
    }

    /** `sections[key].remove(item)`: the exception for a missing item is swallowed. */
    method Remove(p: Pair) returns (removed: bool)
      modifies this
      ensures sections == Drop(old(sections), p)
      ensures removed == (p.item in Get(old(sections), p.section))
    {
      removed := p.item in Get(sections, p.section);
      if removed {
        sections := sections[p.section := RemoveFirst(sections[p.section], p.item)];
      }
    }

    /** `_greedy_token_budget_fill` */
    method GreedyTokenBudgetFill(budget: int) returns (dropped: seq<Item>)
      modifies this
      ensures var pairs := Candidates(old(sections))[..FillCount(old(sections), budget)];
        sections == DropAll(old(sections), pairs) && dropped == ItemsOf(pairs)
    {
      hide Tokens, Candidates, Drop, DropAll, PairTokens, ItemsOf, Waiting, Get;
      ghost var before, total, fits := sections, Tokens(sections, INCLUDED), Within(budget);
      var pairs := Candidates(sections);
      NoTurn(sections, pairs);
      CandidatesWait(sections);
      dropped := [];
      if Tokens(sections, INCLUDED) <= budget {
        StopIsUnique(total, pairs, fits, 0);
        return;
      }
      var i := 0;
      while i < |pairs|
        invariant i <= |pairs| && sections == DropAll(before, pairs[..i]) && dropped == ItemsOf(pairs[..i])
        invariant Tokens(sections, INCLUDED) == total - PairTokens(pairs[..i])
        invariant forall j | 0 <= j < i :: !fits(total - PairTokens(pairs[..j]))
      {
        if Tokens(sections, INCLUDED) <= budget { break; }
        OneTurn(before, pairs, RETRIEVAL, i, INCLUDED);
        var removed := Remove(pairs[i]);
        if removed { dropped := dropped + [pairs[i].item]; }
        i := i + 1;
      }
      StopIsUnique(total, pairs, fits, i);
    }

    /** `_trim_to_budget` */
    method TrimToBudget(budgetUsd: real, known: bool, cost: int -> real)
      returns (itemsDropped: nat, packCostUsd: real)
      modifies this
      ensures itemsDropped == TrimCount(old(sections), known, cost, budgetUsd)
      ensures sections == DropAll(old(sections), Droppable(old(sections))[..itemsDropped])
      ensures packCostUsd == cost(Tokens(sections, ALL))
    {
      hide Tokens, Candidates, Droppable, Drop, DropAll, PairTokens, ItemsOf, Waiting, Get;
      ghost var before, total, fits := sections, Tokens(sections, ALL), Affordable(cost, budgetUsd);
      var totalTokens: int := Tokens(sections, ALL);
      packCostUsd := cost(totalTokens);
      itemsDropped := 0;
      var pairs := Droppable(sections);
      NoTurn(sections, pairs);
      if !known { return; }
      if packCostUsd <= budgetUsd {
        StopIsUnique(total, pairs, fits, 0);
        return;
      }
      DroppableWait(sections);
      var i := 0;
      while i < |pairs|
        invariant i <= |pairs| && itemsDropped == i && sections == DropAll(before, pairs[..i])
        invariant totalTokens == Tokens(sections, ALL) == total - PairTokens(pairs[..i])
        invariant packCostUsd == cost(totalTokens)
        invariant forall j | 0 <= j < i :: !fits(total - PairTokens(pairs[..j]))
      {
        if packCostUsd <= budgetUsd { break; }
        OneTurn(before, pairs, TRIMMED, i, ALL);
        var removed := Remove(pairs[i]);
        if removed {
          itemsDropped := itemsDropped + 1;
          totalTokens := totalTokens - ItemTokens(pairs[i].item);
          packCostUsd := cost(totalTokens);
        }
        i := i + 1;
      }
      StopIsUnique(total, pairs, fits, i);
    }
  }
}
