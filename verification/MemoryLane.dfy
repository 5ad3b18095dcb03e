/** The memory lane (agentrail/context/memory_lane.py): rows are filtered, ordered by authority and
    age, and taken greedily under a byte cap. Whether a content string bears a secret is a given
    predicate. */
module MemoryLane {
  import opened Collections
  import opened Lexicographic
  import opened Sequences
  import opened StableSort

  /** A snapshot row; a missing or falsy field reads as the empty string. */
  datatype Row = Row(id: string, kind: string, writtenBy: string, source: string,
                     tags: Option<seq<string>>, content: string, createdAt: string)

  datatype Item = Item(id: string, kind: string, writtenBy: string, source: string,
                       tags: seq<string>, content: string, createdAt: string)

  function OrElse(s: string, fallback: string): string {
    if s == "" then fallback else s
  }

  /** `_normalize_memory_item`, without the fields that only restate these. */
  function Normalized(r: Row): Item {
    Item(r.id, OrElse(r.kind, "fact"), OrElse(r.writtenBy, "unknown"), r.source,
         if r.tags.Some? then r.tags.value else [], r.content, r.createdAt)
  }

  // ---------------------------------------------------------------------------
  // The order of selection
  // ---------------------------------------------------------------------------

  function TypeRank(kind: string): int {
    if kind == "decision" then 0 else if kind == "preference" then 1 else if kind == "fact" then 2 else 3
  }

  /** `tuple(-ord(ch) for ch in created_at)` */
  function Negated(s: string): seq<int> {
    seq(|s|, i requires 0 <= i < |s| => -(s[i] as int))
  }

  datatype Key = Key(rank: int, created: seq<int>, id: seq<int>)

  /** `_selection_sort_key` */
  function SortKey(i: Item): Key {
    Key(TypeRank(i.kind), Negated(i.createdAt), Codes(i.id))
  }

  predicate KeyLe(a: Key, b: Key) {
    a.rank < b.rank || (a.rank == b.rank &&
      ((a.created != b.created && LexLe(a.created, b.created)) ||
       (a.created == b.created && LexLe(a.id, b.id))))
  }

  predicate Precedes(x: Item, y: Item) {
    KeyLe(SortKey(x), SortKey(y))
  }

  lemma KeyTransitive(a: Key, b: Key, c: Key)
    requires KeyLe(a, b) && KeyLe(b, c)
    ensures KeyLe(a, c)
  {
    if a.rank == b.rank == c.rank {
      LexTotal(a.created, b.created);
      if a.created == b.created == c.created {
        LexTransitive(a.id, b.id, c.id);
      } else {
        if LexLe(a.created, b.created) && LexLe(b.created, c.created) {
          LexTransitive(a.created, b.created, c.created);
        }
      }
    }
  }

  lemma KeyTotal(a: Key, b: Key)
    ensures KeyLe(a, b) || KeyLe(b, a)
    ensures KeyLe(a, b) && KeyLe(b, a) ==> a == b
  {
    LexTotal(a.created, b.created);
    LexTotal(a.id, b.id);
  }

  lemma PrecedesIsPreorder()
    ensures Preorder(Precedes)
  {
    forall x, y ensures Precedes(x, y) || Precedes(y, x) {
      KeyTotal(SortKey(x), SortKey(y));
    }
    forall x, y, z | Precedes(x, y) && Precedes(y, z) ensures Precedes(x, z) {
      KeyTransitive(SortKey(x), SortKey(y), SortKey(z));
    }
  }

  /** Two items have the same place in the order exactly when type rank, time and id agree. */
  lemma TiesAreEqualKeys(x: Item, y: Item)
    ensures Precedes(x, y) && Precedes(y, x) <==>
      TypeRank(x.kind) == TypeRank(y.kind) && x.createdAt == y.createdAt && x.id == y.id
  {
    KeyTotal(SortKey(x), SortKey(y));
    NegatedInjective(x.createdAt, y.createdAt);
    CodesInjective(x.id, y.id);
    LexTotal(SortKey(x).id, SortKey(x).id);
  }

  lemma NegatedInjective(a: string, b: string)
    ensures Negated(a) == Negated(b) ==> a == b
  {
    if Negated(a) == Negated(b) {
      assert |a| == |Negated(a)| == |b|;
      forall i | 0 <= i < |a| ensures a[i] == b[i] {
        assert Negated(a)[i] == Negated(b)[i];
      }
    }
  }

  /** Negating the characters puts the newer timestamp first exactly when neither is a proper prefix
      of the other: a shorter tuple still sorts before its extensions. */
  lemma {:induction false} NewestFirstUnlessPrefix(a: string, b: string)
    requires a != b
    ensures (LexLe(Negated(a), Negated(b)) <==> LexLe(Codes(b), Codes(a))) <==> !(a < b || b < a)
    decreases |a|
  {
    if a != [] && b != [] {
      assert a == [a[0]] + a[1..] && b == [b[0]] + b[1..];
      assert Negated(a)[1..] == Negated(a[1..]) && Negated(b)[1..] == Negated(b[1..]);
      assert Codes(a)[1..] == Codes(a[1..]) && Codes(b)[1..] == Codes(b[1..]);
      if a[0] == b[0] {
        NewestFirstUnlessPrefix(a[1..], b[1..]);
        assert a < b <==> a[1..] < b[1..];
        assert b < a <==> b[1..] < a[1..];
      }
    }
  }

  // ---------------------------------------------------------------------------
  // Selection
  // ---------------------------------------------------------------------------

  function Utf8Len(s: string): nat {
    if s == [] then 0 else
      var c := s[0] as int;
      (if c < 0x80 then 1 else if c < 0x800 then 2 else if c < 0x1_0000 then 3 else 4) + Utf8Len(s[1..])
  }

  function Cost(i: Item): nat {
    Utf8Len(i.content)
  }

  function Total(items: seq<Item>): nat {
    if items == [] then 0 else Total(items[..|items| - 1]) + Cost(items[|items| - 1])
  }

  type Detector = string -> bool

  /** The rows left after the secret filter, normalized. */
  function Survivors(rows: seq<Row>, secret: Detector): seq<Item> {
    if rows == [] then [] else
      (if secret(rows[0].content) then [] else [Normalized(rows[0])]) + Survivors(rows[1..], secret)
  }

  lemma {:induction false} SurvivorOrigin(rows: seq<Row>, secret: Detector, i: Item)
    requires i in Survivors(rows, secret)
    ensures !secret(i.content) && exists r :: r in rows && Normalized(r) == i
  {
    if secret(rows[0].content) || i != Normalized(rows[0]) {
      SurvivorOrigin(rows[1..], secret, i);
      var r :| r in rows[1..] && Normalized(r) == i;
      assert r in rows;
    }
  }

  function Greedy(items: seq<Item>, cap: int): seq<Item> {
    if items == [] then [] else
      var taken := Greedy(items[..|items| - 1], cap);
      var item := items[|items| - 1];
      if Total(taken) + Cost(item) > cap then taken else taken + [item]
  }

  function Ordered(rows: seq<Row>, secret: Detector): seq<Item> {
    Sort(Survivors(rows, secret), Precedes)
  }

  function Lane(rows: seq<Row>, secret: Detector, cap: int): seq<Item> {
    Greedy(Ordered(rows, secret), cap)
  }

  /** `select_memory_items` */
  method SelectMemoryItems(rows: seq<Row>, secret: Detector, cap: int) returns (selected: seq<Item>)
    ensures selected == Lane(rows, secret, cap)
  {
    hide Greedy, Total, Ordered;
    var items := Ordered(rows, secret);
    NothingTaken(items, cap);
    selected := [];
    var used := 0;
    for i := 0 to |items|
      invariant selected == Greedy(items[..i], cap) && used == Total(selected)
    {
      TakenByPriority(items, cap, i);
      TotalAppend(selected, items[i]);
      var cost := Cost(items[i]);
      if used + cost > cap { continue; }
      selected := selected + [items[i]];
      used := used + cost;
    }
    assert items[..|items|] == items;
  }

  lemma NothingTaken(items: seq<Item>, cap: int)
    ensures Greedy(items[..0], cap) == [] && Total([]) == 0
  {
  }

  lemma {:induction false} TotalAppend(items: seq<Item>, item: Item)
    ensures Total(items + [item]) == Total(items) + Cost(item)
  {
    assert (items + [item])[..|items|] == items;
  }

  lemma {:induction false} SublistAppend(xs: seq<Item>, ys: seq<Item>, y: Item)
    requires Sublist(xs, ys)
    ensures Sublist(xs, ys + [y]) && Sublist(xs + [y], ys + [y])
    decreases |ys|
  {
    if ys == [] {
      assert xs + [y] == [y] && ys + [y] == [y] && [y][1..] == [];
    } else {
      assert (ys + [y])[1..] == ys[1..] + [y];
      if xs != [] && xs[0] == ys[0] && Sublist(xs[1..], ys[1..]) {
        SublistAppend(xs[1..], ys[1..], y);
        assert (xs + [y])[1..] == xs[1..] + [y];
      } else if xs != [] {
        SublistAppend(xs, ys[1..], y);
      } else {
        SublistAppend([], ys[1..], y);
      }
    }
  }

  lemma {:induction false} GreedyIsSublist(items: seq<Item>, cap: int)
    ensures Sublist(Greedy(items, cap), items)
  {
    if items != [] {
      var front, last := items[..|items| - 1], items[|items| - 1];
      assert items == front + [last];
      GreedyIsSublist(front, cap);
      SublistAppend(Greedy(front, cap), front, last);
    }
  }

  lemma {:induction false} GreedyFits(items: seq<Item>, cap: int)
    ensures cap >= 0 ==> Total(Greedy(items, cap)) <= cap
    ensures cap < 0 ==> Greedy(items, cap) == []
    ensures Total(items) <= cap ==> Greedy(items, cap) == items
  {
    if items != [] {
      var front, last := items[..|items| - 1], items[|items| - 1];
      assert items == front + [last];
      GreedyFits(front, cap);
      TotalAppend(Greedy(front, cap), last);
    }
  }

  /** What was left out: each skipped item had no room beside what stood before it, so it has none at
      the end either; and no item after it was in its way. */
  lemma {:induction false} SkippedDoNotFit(items: seq<Item>, cap: int, item: Item)
    ensures multiset(Greedy(items, cap)) <= multiset(items)
    ensures item in multiset(items) - multiset(Greedy(items, cap)) ==> Total(Greedy(items, cap)) + Cost(item) > cap
  {
    if items != [] {
      var front, last := items[..|items| - 1], items[|items| - 1];
      assert items == front + [last];
      SkippedDoNotFit(front, cap, item);
      TotalAppend(Greedy(front, cap), last);
      assert multiset(items) == multiset(front) + multiset{last};
    }
  }

  lemma {:induction false} GreedyPrefix(items: seq<Item>, cap: int, n: nat)
    requires n <= |items|
    ensures Greedy(items[..n], cap) <= Greedy(items, cap)
  {
    if n == |items| {
      assert items[..n] == items;
    } else {
      var front := items[..|items| - 1];
      GreedyPrefix(front, cap, n);
      assert front[..n] == items[..n];
    }
  }

  /** An item is taken exactly when it fits beside what its betters took. */
  lemma TakenByPriority(items: seq<Item>, cap: int, n: nat)
    requires n < |items|
    ensures Greedy(items[..n + 1], cap) <= Greedy(items, cap)
    ensures Greedy(items[..n + 1], cap) ==
      Greedy(items[..n], cap) + (if Total(Greedy(items[..n], cap)) + Cost(items[n]) <= cap then [items[n]] else [])
  {
    GreedyPrefix(items, cap, n + 1);
    assert items[..n + 1][..n] == items[..n];
  }

  /** The item does not fit when everything before it is taken. */
  predicate Overflows(items: seq<Item>, cap: int, j: nat) {
    j < |items| && Total(items[..j + 1]) > cap
  }

  /** The first item that does not, or the number of items if all fit. */
  function FirstMisfit(items: seq<Item>, cap: int, from: nat): (m: nat)
    requires from <= |items|
    ensures from <= m <= |items| && (m < |items| ==> Overflows(items, cap, m))
    ensures forall j | from <= j < m :: !Overflows(items, cap, j)
    decreases |items| - from
  {
    if from == |items| || Overflows(items, cap, from) then from else FirstMisfit(items, cap, from + 1)
  }

  /** Selection that stops at the first misfit. */
  function StoppedAtMisfit(items: seq<Item>, cap: int): seq<Item> {
    items[..FirstMisfit(items, cap, 0)]
  }

  lemma {:induction false} NoneOfTheseFits(items: seq<Item>, cap: int, m: nat, j: nat)
    requires m <= j <= |items|
    requires forall i | m <= i < j :: Total(Greedy(items[..m], cap)) + Cost(items[i]) > cap
    ensures Greedy(items[..j], cap) == Greedy(items[..m], cap)
  {
    if m < j {
      NoneOfTheseFits(items, cap, m, j - 1);
      TakenByPriority(items, cap, j - 1);
    }
  }

  lemma TakenUpToMisfit(items: seq<Item>, cap: int)
    ensures var m := FirstMisfit(items, cap, 0);
      Greedy(items[..m], cap) == items[..m] && (m < |items| ==> Total(items[..m]) + Cost(items[m]) > cap)
  {
    var m := FirstMisfit(items, cap, 0);
    if m > 0 {
      assert !Overflows(items, cap, m - 1);
      GreedyFits(items[..m], cap);
    }
    if m < |items| {
      TotalAppend(items[..m], items[m]);
      assert items[..m + 1] == items[..m] + [items[m]];
    }
  }

  /** If the lane is done after `m` items, no later item fits beside it. */
  lemma GreedyBetween(items: seq<Item>, cap: int, m: nat, i: nat)
    requires m <= i < |items| && Greedy(items, cap) == Greedy(items[..m], cap)
    ensures Total(Greedy(items[..m], cap)) + Cost(items[i]) > cap
  {
    hide Greedy, Total;
    GreedyPrefix(items[..i], cap, m);
    assert items[..i][..m] == items[..m];
    TakenByPriority(items, cap, i);
    assert |Greedy(items[..i], cap)| == |Greedy(items[..m], cap)|;
    assert Greedy(items[..i], cap) == Greedy(items[..m], cap);
  }

  /** Going on past the first item that does not fit differs from stopping there exactly if some later
      item still fits. */
  lemma StoppingLosesLaterFits(items: seq<Item>, cap: int)
    ensures var m := FirstMisfit(items, cap, 0);
      Greedy(items, cap) == StoppedAtMisfit(items, cap) <==>
      forall i | m < i < |items| :: Total(items[..m]) + Cost(items[i]) > cap
  {
    hide Greedy, Total, FirstMisfit;
    var m := FirstMisfit(items, cap, 0);
    TakenUpToMisfit(items, cap);
    assert items[..|items|] == items;
    if forall i | m < i < |items| :: Total(items[..m]) + Cost(items[i]) > cap {
      NoneOfTheseFits(items, cap, m, |items|);
    }
    if Greedy(items, cap) == items[..m] {
      forall i | m < i < |items| ensures Total(items[..m]) + Cost(items[i]) > cap {
        GreedyBetween(items, cap, m, i);
      }
    }
  }

  /** The lane is a sublist of the sorted survivors, within the cap, free of secrets, and maximal. */
  lemma LaneIsSound(rows: seq<Row>, secret: Detector, cap: int)
    ensures var lane, items := Lane(rows, secret, cap), Survivors(rows, secret);
      && Sublist(lane, Ordered(rows, secret))
      && multiset(Ordered(rows, secret)) == multiset(items) && Sorted(Ordered(rows, secret), Precedes)
      && (cap >= 0 ==> Total(lane) <= cap) && (cap < 0 ==> lane == [])
      && (forall i | i in lane :: !secret(i.content) && exists r :: r in rows && Normalized(r) == i)
      && multiset(lane) <= multiset(items)
      && (forall i | i in multiset(items) - multiset(lane) :: Total(lane) + Cost(i) > cap)
  {
    hide Survivors, Sort, Greedy, Precedes;
    var ordered, items := Ordered(rows, secret), Survivors(rows, secret);
    PrecedesIsPreorder();
    SortPermutes(items, Precedes);
    SortSorts(items, Precedes);
    GreedyFits(ordered, cap);
    GreedyIsSublist(ordered, cap);
    forall i | i in multiset(items) - multiset(Lane(rows, secret, cap))
      ensures Total(Lane(rows, secret, cap)) + Cost(i) > cap
    {
      SkippedDoNotFit(ordered, cap, i);
    }
    forall i | i in Lane(rows, secret, cap)
      ensures !secret(i.content) && exists r :: r in rows && Normalized(r) == i
    {
      SkippedDoNotFit(ordered, cap, i);
      assert i in multiset(ordered);
      assert i in multiset(items);
      SurvivorOrigin(rows, secret, i);
    }
    assert multiset(Lane(rows, secret, cap)) <= multiset(items) by {
      if i :| i in Lane(rows, secret, cap) { SkippedDoNotFit(ordered, cap, i); }
    }
  }

  // ---------------------------------------------------------------------------
  // What the order means
  // ---------------------------------------------------------------------------

  /** Of two texts the one that is larger where they first differ. */
  ghost predicate Newer(a: string, b: string) {
    exists k :: 0 <= k < |a| && k < |b| && a[..k] == b[..k] && a[k] > b[k]
  }

  /** `x < y` for strings: a proper start of the other, or smaller where they first differ. */
  ghost predicate IdBefore(x: string, y: string) {
    x < y || Newer(y, x)
  }

  predicate SameAuthority(x: string, y: string) {
    x == y || (x !in {"decision", "preference", "fact"} && y !in {"decision", "preference", "fact"})
  }

  lemma NewerFirst(a: string, b: string)
    requires LexLe(Negated(a), Negated(b)) && a != b && |a| == |b|
    ensures Newer(a, b)
  {
    LexLeExactly(Negated(a), Negated(b));
    NegatedInjective(a, b);
    var k: nat :| SmallerAt(Negated(a), Negated(b), k);
    forall i | 0 <= i < k ensures a[i] == b[i] {
      assert Negated(a)[..k][i] == Negated(b)[..k][i];
    }
    assert a[..k] == b[..k] && a[k] > b[k];
  }

  lemma SmallerIdFirst(x: string, y: string)
    requires LexLe(Codes(x), Codes(y)) && x != y
    ensures IdBefore(x, y)
  {
    LexLeExactly(Codes(x), Codes(y));
    CodesInjective(x, y);
    if k: nat :| SmallerAt(Codes(x), Codes(y), k) {
      forall i | 0 <= i < k ensures x[i] == y[i] {
        assert Codes(x)[..k][i] == Codes(y)[..k][i];
      }
      assert y[..k] == x[..k] && y[k] > x[k];
    } else {
      forall i | 0 <= i < |x| ensures x[i] == y[i] {
        assert Codes(x)[i] == Codes(y)[..|x|][i];
      }
      assert x <= y;
    }
  }

  lemma PrecedesMeans(x: Item, y: Item)
    requires Precedes(x, y)
    ensures y.kind == "decision" ==> x.kind == "decision"
    ensures y.kind == "preference" ==> x.kind in {"decision", "preference"}
    ensures y.kind == "fact" ==> x.kind in {"decision", "preference", "fact"}
    ensures SameAuthority(x.kind, y.kind) ==>
      && (x.createdAt != y.createdAt && |x.createdAt| == |y.createdAt| ==> Newer(x.createdAt, y.createdAt))
      && (x.createdAt == y.createdAt && x.id != y.id ==> IdBefore(x.id, y.id))
  {
    if SameAuthority(x.kind, y.kind) {
      NegatedInjective(x.createdAt, y.createdAt);
      if x.createdAt == y.createdAt && x.id != y.id { SmallerIdFirst(x.id, y.id); }
      if x.createdAt != y.createdAt && |x.createdAt| == |y.createdAt| { NewerFirst(x.createdAt, y.createdAt); }
    }
  }

  /** In the order of selection every decision stands before every preference, every preference before every
      fact, and every fact before anything else; of one authority the newer stands first (for timestamps of one
      length), and at equal times the smaller id. */
  lemma AuthorityThenAge(rows: seq<Row>, secret: Detector, i: nat, j: nat)
    requires i < j < |Ordered(rows, secret)|
    ensures var x, y := Ordered(rows, secret)[i], Ordered(rows, secret)[j];
      && (y.kind == "decision" ==> x.kind == "decision")
      && (y.kind == "preference" ==> x.kind == "decision" || x.kind == "preference")
      && (y.kind == "fact" ==> x.kind == "decision" || x.kind == "preference" || x.kind == "fact")
      && (SameAuthority(x.kind, y.kind) ==>
            && (x.createdAt != y.createdAt && |x.createdAt| == |y.createdAt| ==> Newer(x.createdAt, y.createdAt))
            && (x.createdAt == y.createdAt && x.id != y.id ==> IdBefore(x.id, y.id)))
  {
    hide Sort, Survivors, Precedes, SameAuthority, Newer, IdBefore;
    PrecedesIsPreorder();
    SortSorts(Survivors(rows, secret), Precedes);
    PrecedesMeans(Ordered(rows, secret)[i], Ordered(rows, secret)[j]);
  }

  /** What is selected from: every row whose content holds no secret, in turn, with a missing type read as a
      fact and a missing author as unknown. */
  lemma {:induction false} SurvivorsExactly(rows: seq<Row>, secret: Detector)
    ensures var kept := Filter(rows, (r: Row) => !secret(r.content)); var items := Survivors(rows, secret);
      |items| == |kept| &&
      forall k | 0 <= k < |kept| ::
        items[k] == Item(kept[k].id, if kept[k].kind == "" then "fact" else kept[k].kind,
                         if kept[k].writtenBy == "" then "unknown" else kept[k].writtenBy, kept[k].source,
                         if kept[k].tags.Some? then kept[k].tags.value else [], kept[k].content, kept[k].createdAt)
  {
    if rows != [] { SurvivorsExactly(rows[1..], secret); }
  }

  /** The bytes of a character in UTF-8 (section 3 of RFC 3629). */
  function Utf8(c: char): seq<int> {
    var n := c as int;
    if n <= 0x7F then [n]
    else if n <= 0x7FF then [0xC0 + n / 64, 0x80 + n % 64]
    else if n <= 0xFFFF then [0xE0 + n / 4096, 0x80 + n / 64 % 64, 0x80 + n % 64]
    else [0xF0 + n / 262144, 0x80 + n / 4096 % 64, 0x80 + n / 64 % 64, 0x80 + n % 64]
  }

  function Encoded(s: string): seq<int> {
    if s == [] then [] else Utf8(s[0]) + Encoded(s[1..])
  }

  /** An item costs the bytes of its content. */
  lemma {:induction false} CostIsEncodedLength(s: string)
    ensures Utf8Len(s) == |Encoded(s)|
  {
    if s != [] { CostIsEncodedLength(s[1..]); }
  }

  // ---------------------------------------------------------------------------
  // Independence of the input order
  // ---------------------------------------------------------------------------

  lemma {:induction false} SurvivorsConcat(a: seq<Row>, b: seq<Row>, secret: Detector)
    ensures Survivors(a + b, secret) == Survivors(a, secret) + Survivors(b, secret)
  {
    if a == [] {
      assert a + b == b;
    } else {
      SurvivorsConcat(a[1..], b, secret);
      assert a + b != [] && (a + b)[0] == a[0] && (a + b)[1..] == a[1..] + b;
      var head := if secret(a[0].content) then [] else [Normalized(a[0])];
      ConcatAssociates(head, Survivors(a[1..], secret), Survivors(b, secret));
    }
  }

  lemma SurvivorOne(r: Row, secret: Detector)
    ensures Survivors([r], secret) == if secret(r.content) then [] else [Normalized(r)]
  {
    assert [r][1..] == [];
    assert Survivors([r][1..], secret) == [];
  }

  lemma MiddleOut(x: seq<Item>, y: seq<Item>, z: seq<Item>)
    ensures multiset(x + (y + z)) == multiset(x + z) + multiset(y)
  {
  }

  lemma SurvivorsTakeOut(a: seq<Row>, i: nat, secret: Detector)
    requires i < |a|
    ensures multiset(Survivors(a, secret)) ==
            multiset(Survivors(a[..i] + a[i + 1..], secret)) + multiset(Survivors([a[i]], secret))
  {
    hide Survivors;
    assert a == a[..i] + ([a[i]] + a[i + 1..]);
    SurvivorsConcat(a[..i], [a[i]] + a[i + 1..], secret);
    SurvivorsConcat([a[i]], a[i + 1..], secret);
    SurvivorsConcat(a[..i], a[i + 1..], secret);
    MiddleOut(Survivors(a[..i], secret), Survivors([a[i]], secret), Survivors(a[i + 1..], secret));
  }

  lemma {:induction false} SurvivorsPermute(a: seq<Row>, b: seq<Row>, secret: Detector)
    requires multiset(a) == multiset(b)
    ensures multiset(Survivors(a, secret)) == multiset(Survivors(b, secret))
    decreases |a|
  {
    hide Survivors;
    SameMembers(a, b);
    if a != [] {
      assert a[0] in b;
      var j :| 0 <= j < |b| && b[j] == a[0];
      WithoutOne(a, 0, b, j);
      SurvivorsTakeOut(a, 0, secret);
      SurvivorsTakeOut(b, j, secret);
      SurvivorsPermute(a[..0] + a[1..], b[..j] + b[j + 1..], secret);
    } else {
      assert b == [];
    }
  }

  lemma SameLane(rows: seq<Row>, others: seq<Row>, secret: Detector, cap: int)
    requires NoTies(Survivors(rows, secret), Precedes) && multiset(others) == multiset(rows)
    ensures Lane(others, secret, cap) == Lane(rows, secret, cap)
  {
    hide Survivors, Sort, Greedy, Precedes;
    var items, more := Survivors(rows, secret), Survivors(others, secret);
    SurvivorsPermute(others, rows, secret);
    PrecedesIsPreorder();
    SortPermutes(items, Precedes);
    SortPermutes(more, Precedes);
    SortSorts(items, Precedes);
    SortSorts(more, Precedes);
    SameMembers(Sort(items, Precedes), items);
    SortedIsUnique(Sort(items, Precedes), Sort(more, Precedes), Precedes);
  }

  ghost predicate Canonical(rows: seq<Row>, secret: Detector) {
    forall others, cap | multiset(others) == multiset(rows) :: Lane(others, secret, cap) == Lane(rows, secret, cap)
  }

  lemma FrontRows(r: Row, s: Row, rest: seq<Row>, secret: Detector)
    requires !secret(r.content) && !secret(s.content)
    ensures Survivors([r] + ([s] + rest), secret) == [Normalized(r)] + ([Normalized(s)] + Survivors(rest, secret))
  {
    hide Survivors;
    SurvivorOne(r, secret);
    SurvivorOne(s, secret);
    SurvivorsConcat([s], rest, secret);
    SurvivorsConcat([r], [s] + rest, secret);
  }

  /** Under a large cap the lane is everything, in order. */
  lemma OrderShows(rows: seq<Row>, a: seq<Row>, b: seq<Row>, secret: Detector)
    requires multiset(a) == multiset(rows) && multiset(b) == multiset(rows)
    requires Ordered(a, secret) != Ordered(b, secret)
    ensures !Canonical(rows, secret)
  {
    hide Ordered, Greedy, Total;
    var cap := Total(Ordered(a, secret)) + Total(Ordered(b, secret));
    GreedyFits(Ordered(a, secret), cap);
    GreedyFits(Ordered(b, secret), cap);
    assert Lane(a, secret, cap) != Lane(b, secret, cap);
  }

  lemma TiesChangeTheLane(rows: seq<Row>, secret: Detector, x: Item, y: Item)
    requires x in Survivors(rows, secret) && y in Survivors(rows, secret)
    requires x != y && Precedes(x, y) && Precedes(y, x)
    ensures !Canonical(rows, secret)
  {
    hide Survivors, Sort, Lane, Precedes, Canonical;
    SurvivorOrigin(rows, secret, x);
    SurvivorOrigin(rows, secret, y);
    var r :| r in rows && Normalized(r) == x;
    var s :| s in rows && Normalized(s) == y;
    var rest := TwoToFront(rows, r, s);
    var a, b := [r] + ([s] + rest), [s] + ([r] + rest);
    FrontRows(r, s, rest, secret);
    FrontRows(s, r, rest, secret);
    PrecedesIsPreorder();
    TiesShow(x, y, Survivors(rest, secret), Precedes);
    OrderShows(rows, a, b, secret);
  }

  /** The lane is the same for every order of the input rows, under every cap, exactly when no two
      different surviving items share type rank, time and id. */
  lemma CanonicalUnlessTied(rows: seq<Row>, secret: Detector)
    ensures Canonical(rows, secret) <==> NoTies(Survivors(rows, secret), Precedes)
  {
    hide Survivors, Sort, Greedy, Precedes;
    if NoTies(Survivors(rows, secret), Precedes) {
      forall others, cap | multiset(others) == multiset(rows)
        ensures Lane(others, secret, cap) == Lane(rows, secret, cap)
      {
        SameLane(rows, others, secret, cap);
      }
    } else {
      var items := Survivors(rows, secret);
      var x, y :| x in items && y in items && Precedes(x, y) && Precedes(y, x) && x != y;
      TiesChangeTheLane(rows, secret, x, y);
    }
  }
}
