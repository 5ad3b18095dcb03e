/** The listwise window rerank (agentrail/context/llm_rerank.py): windows slide from the back of the
    list to its head, a model reorders each, and the overlap lets a good candidate travel forward.
    What the model answers is an arbitrary function of the call and its window. */
module LlmRerank {
  import opened Collections
  import opened Decimal
  import opened Sequences
  import opened StableSort

  datatype Span = Span(start: int, end: int)

  function Stride(size: int, overlap: int): (s: int)
    ensures s >= 1
  {
    Max(1, size - overlap)
  }

  // ---------------------------------------------------------------------------
  // Window geometry
  // ---------------------------------------------------------------------------

  /** The spans still to come when the next window ends at `end`. */
  function SpansFrom(end: int, count: int, size: int, stride: int): seq<Span>
    requires stride >= 1
    decreases if end > size then end - size else 0
  {
    if end <= size then [Span(0, Min(size, count))]
    else [Span(end - size, end)] + SpansFrom(end - stride, count, size, stride)
  }

  function Spans(count: int, size: int, overlap: int): seq<Span> {
    if count <= 0 then []
    else if count <= size then [Span(0, count)]
    else SpansFrom(count, count, size, Stride(size, overlap))
  }

  /** `window_spans`. The loop ends whatever the arguments: the stride is never less than one. */
  method WindowSpans(count: int, size: int, overlap: int) returns (spans: seq<Span>)
    ensures spans == Spans(count, size, overlap)
  {
    spans := [];
    if count <= 0 { return; }
    if count <= size { return [Span(0, count)]; }
    var stride := Max(1, size - overlap);
    var end := count;
    while true
      invariant spans + SpansFrom(end, count, size, stride) == SpansFrom(count, count, size, stride)
      decreases if end > size then end - size else 0
    {
      var start := Max(0, end - size);
      if start == 0 {
        spans := spans + [Span(0, Min(size, count))];
        return;
      }
      spans := spans + [Span(start, end)];
      end := end - stride;
    }
  }

  predicate SpanOk(s: Span, count: int, size: int) {
    0 <= s.start < s.end <= count && s.end - s.start == Min(size, count)
  }

  /** How many positions two neighbouring windows share. */
  function Shared(size: int, overlap: int): int {
    size - Stride(size, overlap)
  }

  /** Neighbouring windows: the later one starts further forward, and the head of the earlier one
      lies inside it. */
  predicate Follows(s: Span, t: Span, shared: int) {
    t.start < s.start && s.start + shared <= t.end
  }

  predicate Chained(spans: seq<Span>, count: int, size: int, shared: int) {
    spans != [] && SpanOk(spans[0], count, size) &&
    (|spans| == 1 || (Follows(spans[0], spans[1], shared) && Chained(spans[1..], count, size, shared)))
  }

  lemma {:induction false} ChainedAt(spans: seq<Span>, count: int, size: int, shared: int, i: nat)
    requires Chained(spans, count, size, shared) && i < |spans|
    ensures SpanOk(spans[i], count, size)
    ensures i > 0 ==> Follows(spans[i - 1], spans[i], shared)
  {
    if i > 0 {
      ChainedAt(spans[1..], count, size, shared, i - 1);
      assert spans[1..][i - 1] == spans[i];
      if i > 1 { assert spans[1..][i - 2] == spans[i - 1]; }
    }
  }

  lemma {:induction false} SpansFromShape(end: int, count: int, size: int, stride: int)
    requires 1 <= size < count && 1 <= stride && size - stride < end <= count
    ensures var spans := SpansFrom(end, count, size, stride);
      && Chained(spans, count, size, size - stride) && spans[|spans| - 1] == Span(0, size)
      && spans[0] == (if end <= size then Span(0, size) else Span(end - size, end))
    decreases if end > size then end - size else 0
  {
    if end > size {
      var spans, rest := SpansFrom(end, count, size, stride), SpansFrom(end - stride, count, size, stride);
      SpansFromShape(end - stride, count, size, stride);
      assert spans[1..] == rest && |spans| > 1 && spans[|spans| - 1] == rest[|rest| - 1];
      assert Follows(spans[0], rest[0], size - stride);
    }
  }

  /** The windows start at the back, end with a full window at the head, and the head of each lies
      inside the next one. */
  lemma SpansShape(count: int, size: int, overlap: int)
    requires count >= 1 && size >= 1
    ensures var spans := Spans(count, size, overlap);
      && spans != [] && spans[0].end == count && spans[|spans| - 1] == Span(0, Min(size, count))
      && (forall i | 0 <= i < |spans| :: SpanOk(spans[i], count, size))
      && (forall i | 0 < i < |spans| :: Follows(spans[i - 1], spans[i], Shared(size, overlap)))
  {
    var spans := Spans(count, size, overlap);
    if count > size {
      SpansFromShape(count, count, size, Stride(size, overlap));
      forall i | 0 <= i < |spans|
        ensures SpanOk(spans[i], count, size)
        ensures i > 0 ==> Follows(spans[i - 1], spans[i], Shared(size, overlap))
      {
        ChainedAt(spans, count, size, Shared(size, overlap), i);
      }
    }
  }

  // ---------------------------------------------------------------------------
  // One window's answer
  // ---------------------------------------------------------------------------

  /** What could be read from the model's text: no JSON list at all, or a list of values as strings. */
  datatype Reply = NoList | List(values: seq<string>)

  /** The valid values in order of first appearance. */
  function FirstSeen(values: seq<string>, ids: seq<string>): (r: seq<string>)
    ensures Distinct(r) && forall x :: x in r <==> x in values && x in ids
  {
    if values == [] then [] else
      var front, last := values[..|values| - 1], values[|values| - 1];
      assert values == front + [last];
      var r := FirstSeen(front, ids);
      if last in ids && last !in r then r + [last] else r
  }

  function Unmentioned(ids: seq<string>, seen: set<string>): (r: seq<string>)
    ensures forall x :: x in r <==> x in ids && x !in seen
  {
    if ids == [] then [] else
      (if ids[0] in seen then [] else [ids[0]]) + Unmentioned(ids[1..], seen)
  }

  lemma {:induction false} UnmentionedIsSublist(ids: seq<string>, seen: set<string>)
    ensures Sublist(Unmentioned(ids, seen), ids)
  {
    if ids != [] {
      UnmentionedIsSublist(ids[1..], seen);
      if ids[0] in seen {
        assert Unmentioned(ids, seen) == Unmentioned(ids[1..], seen);
      } else {
        assert Unmentioned(ids, seen)[1..] == Unmentioned(ids[1..], seen);
      }
    }
  }

  lemma {:induction false} NoneUnmentioned(ids: seq<string>, seen: set<string>)
    requires forall x | x in ids :: x in seen
    ensures Unmentioned(ids, seen) == []
  {
    if ids != [] { NoneUnmentioned(ids[1..], seen); }
  }

  function WindowOrder(reply: Reply, ids: seq<string>): seq<string> {
    match reply
    case NoList => ids
    case List(values) =>
      var ordered := FirstSeen(values, ids);
      ordered + Unmentioned(ids, Elements(ordered))
  }

  /** The loop of `parse_window_order` over the parsed values. */
  method TakeMentioned(values: seq<string>, ids: seq<string>) returns (ordered: seq<string>, seen: set<string>)
    ensures ordered == FirstSeen(values, ids) && seen == Elements(ordered)
  {
    var valid := set x | x in ids;
    ordered, seen := [], {};
    for i := 0 to |values|
      invariant ordered == FirstSeen(values[..i], ids) && seen == Elements(ordered)
    {
      assert values[..i + 1][..i] == values[..i];
      if values[i] in valid && values[i] !in seen {
        ordered := ordered + [values[i]];
        seen := seen + {values[i]};
      }
    }
    assert values[..|values|] == values;
  }

  lemma UnmentionedStep(ids: seq<string>, i: nat, seen: set<string>)
    requires i < |ids|
    ensures Unmentioned(ids[i..], seen) == (if ids[i] in seen then [] else [ids[i]]) + Unmentioned(ids[i + 1..], seen)
  {
    assert ids[i..][1..] == ids[i + 1..] && ids[i..][0] == ids[i];
  }

  lemma UnmentionedEnd(ids: seq<string>, seen: set<string>)
    ensures Unmentioned(ids[|ids|..], seen) == []
  {
  }

  /** The extension of `ordered` by what was left out. */
  method AppendUnmentioned(ordered: seq<string>, ids: seq<string>, seen: set<string>) returns (order: seq<string>)
    ensures order == ordered + Unmentioned(ids, seen)
  {
    hide Unmentioned;
    order := ordered;
    assert ids[0..] == ids;
    UnmentionedEnd(ids, seen);
    for i := 0 to |ids|
      invariant order + Unmentioned(ids[i..], seen) == ordered + Unmentioned(ids, seen)
    {
      UnmentionedStep(ids, i, seen);
      ConcatAssociates(order, if ids[i] in seen then [] else [ids[i]], Unmentioned(ids[i + 1..], seen));
      if ids[i] !in seen {
        order := order + [ids[i]];
      }
    }
  }

  /** `parse_window_order` */
  method ParseWindowOrder(reply: Reply, ids: seq<string>) returns (order: seq<string>)
    ensures order == WindowOrder(reply, ids)
  {
    if reply.NoList? { return ids; }
    var seen: set<string>;
    order, seen := TakeMentioned(reply.values, ids);
    order := AppendUnmentioned(order, ids, seen);
  }

  /** Whatever the model says, its window is reordered and nothing else: the ids it named come first
      in the order it named them, the ones it left out follow in the order they were in. */
  lemma WindowOrderKeepsAll(reply: Reply, ids: seq<string>)
    requires Distinct(ids)
    ensures var r := WindowOrder(reply, ids);
      && Distinct(r) && |r| == |ids| && multiset(r) == multiset(ids)
      && (reply.NoList? ==> r == ids)
      && (reply.List? ==>
            var k := |FirstSeen(reply.values, ids)|;
            && k <= |r| && r[..k] == FirstSeen(reply.values, ids) && Sublist(r[k..], ids)
            && forall x | x in r[k..] :: x !in reply.values)
  {
    hide FirstSeen, Unmentioned, Sublist;
    if reply.List? {
      var ordered := FirstSeen(reply.values, ids);
      var rest := Unmentioned(ids, Elements(ordered));
      UnmentionedIsSublist(ids, Elements(ordered));
      SublistDistinct(rest, ids);
      var r := WindowOrder(reply, ids);
      assert r[..|ordered|] == ordered && r[|ordered|..] == rest;
      JoinDistinct(ordered, rest);
      SameElements(r, ids);
      assert |multiset(r)| == |multiset(ids)|;
    }
  }

  predicate Before(x: string, y: string, xs: seq<string>) {
    exists i, j :: 0 <= i < j < |xs| && xs[i] == x && xs[j] == y
  }

  /** `y` is not mentioned before `x` is. */
  predicate MentionedFirst(x: string, y: string, values: seq<string>) {
    exists p :: 0 <= p < |values| && values[p] == x && y !in values[..p]
  }

  /** Of two ids the model names, the one it names first comes first. */
  lemma {:induction false} FirstMentionDecides(values: seq<string>, ids: seq<string>, x: string, y: string)
    requires MentionedFirst(x, y, values) && y in values && x in ids && y in ids && x != y
    ensures Before(x, y, FirstSeen(values, ids))
  {
    var front, last := values[..|values| - 1], values[|values| - 1];
    assert values == front + [last];
    var r := FirstSeen(front, ids);
    var p :| 0 <= p < |values| && values[p] == x && y !in values[..p];
    assert values[..|front|] == front && values[|front|] == last;
    assert front[p] == x && front[..p] == values[..p];
    if y in front {
      FirstMentionDecides(front, ids, x, y);
      var i, j :| 0 <= i < j < |r| && r[i] == x && r[j] == y;
      assert FirstSeen(values, ids)[i] == x && FirstSeen(values, ids)[j] == y;
    } else {
      assert x in front;
      var i :| 0 <= i < |r| && r[i] == x;
      assert FirstSeen(values, ids)[i] == x && FirstSeen(values, ids)[|r|] == y;
    }
  }

  /** The permutation promise holds for every reply exactly when no id occurs twice in the window. */
  lemma PermutationNeedsDistinctIds(ids: seq<string>)
    ensures (forall reply :: multiset(WindowOrder(reply, ids)) == multiset(ids)) <==> Distinct(ids)
  {
    if Distinct(ids) {
      forall reply ensures multiset(WindowOrder(reply, ids)) == multiset(ids) {
        WindowOrderKeepsAll(reply, ids);
      }
    } else {
      var echo := List(ids);
      var ordered := FirstSeen(ids, ids);
      NoneUnmentioned(ids, Elements(ordered));
      assert WindowOrder(echo, ids) == ordered;
      DistinctCounts(ordered);
      DistinctCounts(ids);
      assert multiset(WindowOrder(echo, ids)) != multiset(ids);
    }
  }

  // ---------------------------------------------------------------------------
  // All windows
  // ---------------------------------------------------------------------------

  datatype CallOutcome = Raised(kind: string) | Answered(reply: Reply)

  /** The answer to the i-th call, made with this window. */
  type Model = (int, seq<string>) -> CallOutcome

  function Replaced(order: seq<string>, span: Span, window: seq<string>): (r: seq<string>)
    requires 0 <= span.start <= span.end <= |order|
  {
    order[..span.start] + window + order[span.end..]
  }

  predicate SpansFit(spans: seq<Span>, count: int) {
    forall i | 0 <= i < |spans| :: 0 <= spans[i].start <= spans[i].end <= count
  }

  /** The order after all windows, or the kind of the first exception. */
  function Merge(order: seq<string>, spans: seq<Span>, ask: Model, call: int): Result<seq<string>, string>
    requires Distinct(order) && SpansFit(spans, |order|)
    decreases |spans|
  {
    if spans == [] then Ok(order) else
      var span := spans[0];
      var window := order[span.start..span.end];
      var outcome := ask(call, window);
      if outcome.Raised? then Err(outcome.kind) else
      var next := Replaced(order, span, WindowOrder(outcome.reply, window));
      ReplacedKeepsAll(order, span, outcome.reply);
      Merge(next, spans[1..], ask, call + 1)
  }

  lemma ReplacedKeepsAll(order: seq<string>, span: Span, reply: Reply)
    requires Distinct(order) && 0 <= span.start <= span.end <= |order|
    ensures var next := Replaced(order, span, WindowOrder(reply, order[span.start..span.end]));
      multiset(next) == multiset(order) && Distinct(next) && |next| == |order|
  {
    hide WindowOrder, Distinct;
    var window := order[span.start..span.end];
    DistinctPart(order, span);
    WindowOrderKeepsAll(reply, window);
    MiddlePermutes(order[..span.start], window, WindowOrder(reply, window), order[span.end..]);
    assert order == order[..span.start] + window + order[span.end..];
    DistinctCounts(order);
    DistinctCounts(Replaced(order, span, WindowOrder(reply, window)));
  }

  lemma DistinctPart(order: seq<string>, span: Span)
    requires Distinct(order) && 0 <= span.start <= span.end <= |order|
    ensures Distinct(order[span.start..span.end])
  {
  }

  lemma MiddlePermutes(before: seq<string>, xs: seq<string>, ys: seq<string>, after: seq<string>)
    requires multiset(xs) == multiset(ys)
    ensures multiset(before + xs + after) == multiset(before + ys + after)
    ensures |before + xs + after| == |before + ys + after|
  {
    assert |multiset(xs)| == |multiset(ys)|;
  }

  lemma {:induction false} MergeKeepsAll(order: seq<string>, spans: seq<Span>, ask: Model, call: int)
    requires Distinct(order) && SpansFit(spans, |order|)
    ensures var r := Merge(order, spans, ask, call);
      r.Ok? ==> multiset(r.value) == multiset(order) && Distinct(r.value) && |r.value| == |order|
    decreases |spans|
  {
    hide WindowOrder, Replaced, Distinct;
    if spans != [] {
      var span := spans[0];
      var outcome := ask(call, order[span.start..span.end]);
      if outcome.Answered? {
        ReplacedKeepsAll(order, span, outcome.reply);
        MergeKeepsAll(Replaced(order, span, WindowOrder(outcome.reply, order[span.start..span.end])),
                      spans[1..], ask, call + 1);
      }
    }
  }

  // ---------------------------------------------------------------------------
  // The best candidates travel to the head
  // ---------------------------------------------------------------------------

  type Ranking = string -> int

  predicate Ranked(w: seq<string>, rank: Ranking) {
    forall i, j | 0 <= i < j < |w| :: rank(w[i]) < rank(w[j])
  }

  /** Every call answers with its window in rank order. */
  ghost predicate Sorts(ask: Model, rank: Ranking, ids: set<string>) {
    forall call, w | Distinct(w) && Elements(w) <= ids ::
      ask(call, w).Answered? && Ranked(WindowOrder(ask(call, w).reply, w), rank)
  }

  /** From `from`, `k` positions hold the best of everything from there on, best first. */
  predicate TopFrom(order: seq<string>, from: int, k: int, rank: Ranking) {
    forall i, j | 0 <= from <= i < from + k && i < j < |order| :: rank(order[i]) < rank(order[j])
  }

  /** The `k` positions before `p` beat everything from `p` on. */
  predicate Fenced(order: seq<string>, p: int, k: int, rank: Ranking) {
    forall i, j | 0 <= p - k <= i < p <= j < |order| :: rank(order[i]) < rank(order[j])
  }

  lemma TopIsFenced(order: seq<string>, from: int, k: int, rank: Ranking)
    requires TopFrom(order, from, k, rank)
    ensures Fenced(order, from + k, k, rank)
  {
  }

  lemma LowRanksComeFirst(w: seq<string>, few: seq<string>, q: nat, bound: int, rank: Ranking)
    requires Ranked(w, rank) && q < |w| && rank(w[q]) >= bound
    requires forall x | x in few :: x in w && rank(x) < bound
    ensures Elements(few) <= Elements(w[..q])
  {
    forall x | x in few ensures x in w[..q] {
      var t :| 0 <= t < |w| && w[t] == x;
      assert t < q;
      assert w[..q][t] == x;
    }
  }

  /** If `k` members of a sorted window beat a bound, so do its first `k` positions. */
  lemma FirstBeatBound(w: seq<string>, few: seq<string>, q: nat, bound: int, rank: Ranking)
    requires Ranked(w, rank) && Distinct(few) && q < |few| && q < |w|
    requires forall x | x in few :: x in w && rank(x) < bound
    ensures rank(w[q]) < bound
  {
    ElementsCard(few);
    ElementsCard(w[..q]);
    if rank(w[q]) >= bound {
      LowRanksComeFirst(w, few, q, bound, rank);
      SubsetCard(Elements(few), Elements(w[..q]));
    }
  }

  /** A position of the sorted window still beats what lies beyond the window. */
  lemma WindowBeats(order: seq<string>, span: Span, w: seq<string>, p: int, k: int, rank: Ranking, q: int, j: int)
    requires Distinct(order) && 0 <= span.start <= p - k <= p <= span.end <= j < |order|
    requires (forall x | x in order[span.start..span.end] :: x in w) && Ranked(w, rank)
    requires Fenced(order, p, k, rank) && 0 <= q < k && q < |w|
    ensures rank(w[q]) < rank(order[j])
  {
    var few := order[p - k..p];
    assert Distinct(few) && |few| == k;
    forall x | x in few ensures x in w && rank(x) < rank(order[j]) {
      var t :| 0 <= t < k && few[t] == x;
      assert order[p - k + t] == x && order[span.start..span.end][p - k + t - span.start] == x;
    }
    FirstBeatBound(w, few, q, rank(order[j]), rank);
  }

  /** Sorting a window that covers the fence moves the fence to the window's head. */
  lemma WindowStep(order: seq<string>, span: Span, w: seq<string>, p: int, k: int, rank: Ranking)
    requires Distinct(order) && 0 <= span.start <= p - k <= p <= span.end <= |order| && span.start + k <= span.end
    requires |w| == span.end - span.start && (forall x | x in order[span.start..span.end] :: x in w)
    requires Ranked(w, rank) && Fenced(order, p, k, rank)
    ensures TopFrom(Replaced(order, span, w), span.start, k, rank)
  {
    var next := Replaced(order, span, w);
    forall i, j | span.start <= i < span.start + k && i < j < |next| ensures rank(next[i]) < rank(next[j]) {
      assert next[i] == w[i - span.start];
      if j < span.end {
        assert next[j] == w[j - span.start];
      } else {
        assert next[j] == order[j];
        WindowBeats(order, span, w, p, k, rank, i - span.start, j);
      }
    }
  }

  lemma SpansFromFit(end: int, count: int, size: int, stride: int)
    requires 1 <= size < count && 1 <= stride && size - stride < end <= count
    ensures SpansFit(SpansFrom(end, count, size, stride), count)
  {
    var spans := SpansFrom(end, count, size, stride);
    SpansFromShape(end, count, size, stride);
    forall i | 0 <= i < |spans| ensures SpanOk(spans[i], count, size) {
      ChainedAt(spans, count, size, size - stride, i);
    }
  }

  /** One perfect call. */
  lemma PerfectCall(order: seq<string>, span: Span, p: int, k: int, ask: Model, call: int, rank: Ranking,
                    ids: set<string>)
    requires Distinct(order) && Elements(order) <= ids && Sorts(ask, rank, ids)
    requires 0 <= span.start <= p - k <= p <= span.end <= |order| && span.start + k <= span.end
    requires Fenced(order, p, k, rank)
    ensures var window := order[span.start..span.end];
      ask(call, window).Answered? &&
      var next := Replaced(order, span, WindowOrder(ask(call, window).reply, window));
      Distinct(next) && |next| == |order| && Elements(next) <= ids && TopFrom(next, span.start, k, rank)
  {
    hide TopFrom, Fenced, WindowOrder;
    var window := order[span.start..span.end];
    assert Distinct(window) && Elements(window) <= ids;
    var outcome := ask(call, window);
    assert outcome.Answered? && Ranked(WindowOrder(outcome.reply, window), rank);
    var w := WindowOrder(outcome.reply, window);
    WindowOrderKeepsAll(outcome.reply, window);
    ReplacedKeepsAll(order, span, outcome.reply);
    forall x | x in window ensures x in w { assert x in multiset(w); }
    WindowStep(order, span, w, p, k, rank);
    forall x | x in Replaced(order, span, w) ensures x in order { assert x in multiset(Replaced(order, span, w)); }
  }

  lemma {:induction false} FenceTravels(order: seq<string>, end: int, size: int, stride: int,
                                        ask: Model, call: int, rank: Ranking, ids: set<string>)
    requires Distinct(order) && Elements(order) <= ids && Sorts(ask, rank, ids)
    requires 1 <= stride <= size < |order| && size - stride < end <= |order|
    requires Fenced(order, end, size - stride, rank)
    requires SpansFit(SpansFrom(end, |order|, size, stride), |order|)
    ensures var r := Merge(order, SpansFrom(end, |order|, size, stride), ask, call);
      r.Ok? && TopFrom(r.value, 0, size - stride, rank)
    decreases if end > size then end - size else 0
  {
    hide Ranked, TopFrom, Fenced, WindowOrder, Sorts, Distinct;
    var k, spans := size - stride, SpansFrom(end, |order|, size, stride);
    var span := spans[0];
    PerfectCall(order, span, end, k, ask, call, rank, ids);
    var window := order[span.start..span.end];
    var next := Replaced(order, span, WindowOrder(ask(call, window).reply, window));
    if end > size {
      assert spans[1..] == SpansFrom(end - stride, |order|, size, stride);
      SpansFromFit(end - stride, |order|, size, stride);
      TopIsFenced(next, span.start, k, rank);
      FenceTravels(next, end - stride, size, stride, ask, call + 1, rank, ids);
    } else {
      assert spans[1..] == [];
      assert Merge(next, [], ask, call + 1) == Ok(next);
    }
  }

  /** How much of the head a perfect model is sure to get right: all of it in one window, else what two
      windows in a row share. The last window is a full one, so a short list has a larger share. */
  function Certain(count: int, size: int, overlap: int): int {
    if count <= size then count else Max(Shared(size, overlap), 2 * size - count)
  }

  lemma MergeOnce(order: seq<string>, spans: seq<Span>, ask: Model, call: int, next: seq<string>)
    requires Distinct(order) && SpansFit(spans, |order|) && spans != []
    requires var window := order[spans[0].start..spans[0].end];
      ask(call, window).Answered? && next == Replaced(order, spans[0], WindowOrder(ask(call, window).reply, window))
    ensures Distinct(next) && |next| == |order| && SpansFit(spans[1..], |next|)
    ensures Merge(order, spans, ask, call) == Merge(next, spans[1..], ask, call + 1)
  {
    ReplacedKeepsAll(order, spans[0], ask(call, order[spans[0].start..spans[0].end]).reply);
  }

  lemma MergeNone(order: seq<string>, ask: Model, call: int)
    requires Distinct(order)
    ensures Merge(order, [], ask, call) == Ok(order)
  {
  }

  lemma MergeRaised(order: seq<string>, spans: seq<Span>, ask: Model, call: int)
    requires Distinct(order) && SpansFit(spans, |order|) && spans != []
    requires ask(call, order[spans[0].start..spans[0].end]).Raised?
    ensures Merge(order, spans, ask, call) == Err(ask(call, order[spans[0].start..spans[0].end]).kind)
  {
  }

  lemma OneWindow(ids: seq<string>, ask: Model, rank: Ranking)
    requires Distinct(ids) && Sorts(ask, rank, Elements(ids))
    ensures var r := Merge(ids, [Span(0, |ids|)], ask, 0); r.Ok? && TopFrom(r.value, 0, |ids|, rank)
  {
    hide WindowOrder, TopFrom, Ranked, Sorts;
    var span := Span(0, |ids|);
    assert Fenced(ids, |ids|, |ids|, rank);
    PerfectCall(ids, span, |ids|, |ids|, ask, 0, rank, Elements(ids));
    var next := Replaced(ids, span, WindowOrder(ask(0, ids[0..|ids|]).reply, ids[0..|ids|]));
    MergeOnce(ids, [span], ask, 0, next);
    assert [span][1..] == [];
    assert Merge(next, [], ask, 1) == Ok(next);
  }

  /** A list that two windows cover. */
  lemma TwoWindowsLead(ids: seq<string>, size: int, stride: int, ask: Model, rank: Ranking)
    requires Distinct(ids) && Sorts(ask, rank, Elements(ids))
    requires 1 <= stride <= size < |ids| <= size + stride
    ensures SpansFit(SpansFrom(|ids|, |ids|, size, stride), |ids|)
    ensures var r := Merge(ids, SpansFrom(|ids|, |ids|, size, stride), ask, 0);
      r.Ok? && TopFrom(r.value, 0, 2 * size - |ids|, rank)
  {
    hide WindowOrder, Merge, TopFrom, Ranked, Sorts;
    var n, k := |ids|, 2 * size - |ids|;
    var back, head := Span(n - size, n), Span(0, size);
    SpansFromFit(n, n, size, stride);
    assert SpansFrom(n, n, size, stride) == [back, head];
    assert Fenced(ids, n, k, rank);
    PerfectCall(ids, back, n, k, ask, 0, rank, Elements(ids));
    var next := Replaced(ids, back, WindowOrder(ask(0, ids[n - size..n]).reply, ids[n - size..n]));
    MergeOnce(ids, [back, head], ask, 0, next);
    assert [back, head][1..] == [head] && [head][1..] == [];
    TopIsFenced(next, n - size, k, rank);
    PerfectCall(next, head, size, k, ask, 1, rank, Elements(ids));
    var last := Replaced(next, head, WindowOrder(ask(1, next[0..size]).reply, next[0..size]));
    MergeOnce(next, [head], ask, 1, last);
    MergeNone(last, ask, 2);
  }

  /** The merged order has the `k` globally best candidates at its head, best first. */
  ghost predicate Leads(ids: seq<string>, size: int, overlap: int, ask: Model, rank: Ranking, k: int)
    requires Distinct(ids)
  {
    var spans := Spans(|ids|, size, overlap);
    SpansFit(spans, |ids|) && Merge(ids, spans, ask, 0).Ok? && TopFrom(Merge(ids, spans, ask, 0).value, 0, k, rank)
  }

  /** If every call sorts its window by one fixed order, the head of the final order is the head of
      the order sorted globally, whatever the number of candidates. */
  lemma BestCandidatesLead(ids: seq<string>, size: int, overlap: int, ask: Model, rank: Ranking)
    requires Distinct(ids) && ids != [] && size >= 1 && overlap >= 0
    requires Sorts(ask, rank, Elements(ids))
    ensures Leads(ids, size, overlap, ask, rank, Certain(|ids|, size, overlap))
    ensures Certain(|ids|, size, overlap) >= Min(Min(overlap, size - 1), |ids|)
  {
    hide WindowOrder, Merge, TopFrom, Ranked, Sorts;
    var n, stride := |ids|, Stride(size, overlap);
    if n <= size {
      OneWindow(ids, ask, rank);
    } else if n <= size + stride {
      TwoWindowsLead(ids, size, stride, ask, rank);
    } else {
      SpansFromFit(n, n, size, stride);
      FenceTravels(ids, n, size, stride, ask, 0, rank, Elements(ids));
    }
  }

  /** `TopFrom` says it all: the head equals the head of any sorted arrangement of the same ids. */
  lemma {:induction false} HeadOfSorted(order: seq<string>, best: seq<string>, k: nat, rank: Ranking)
    requires multiset(order) == multiset(best) && Ranked(best, rank) && k <= |order|
    requires TopFrom(order, 0, k, rank)
    ensures k <= |best| && order[..k] == best[..k]
  {
    assert |multiset(order)| == |multiset(best)|;
    if k > 0 {
      var i := k - 1;
      HeadOfSorted(order, best, i, rank);
      AfterPrefix(order, best, i);
      assert order[i] == order[i..][0] && best[i] == best[i..][0];
      SameMembers(order[i..], best[i..]);
      SameMembers(best[i..], order[i..]);
      assert order[i] in best[i..] && best[i] in order[i..];
      var q :| 0 <= q < |best[i..]| && best[i..][q] == order[i];
      var t :| 0 <= t < |order[i..]| && order[i..][t] == best[i];
      assert best[i + q] == order[i] && order[i + t] == best[i];
      assert order[..k] == order[..i] + [order[i]] && best[..k] == best[..i] + [best[i]];
    }
  }

  // ---------------------------------------------------------------------------
  // And no more than that is certain
  // ---------------------------------------------------------------------------

  function PositionOf(x: string, ids: seq<string>): (i: nat)
    ensures i <= |ids| && (i < |ids| ==> ids[i] == x) && (x in ids ==> i < |ids|)
  {
    if ids == [] || ids[0] == x then 0 else 1 + PositionOf(x, ids[1..])
  }

  /** The ranking by which the candidates came in worst first. */
  function Backwards(ids: seq<string>): Ranking {
    x => 0 - PositionOf(x, ids)
  }

  function RankLe(rank: Ranking): (string, string) -> bool {
    (x, y) => rank(x) <= rank(y)
  }

  /** The model that answers every call with its window, sorted. */
  function Sorter(rank: Ranking): Model {
    (call, w) => Answered(List(Sort(w, RankLe(rank))))
  }

  lemma {:induction false} FirstSeenOfAll(values: seq<string>, ids: seq<string>)
    requires Distinct(values) && forall x | x in values :: x in ids
    ensures FirstSeen(values, ids) == values
  {
    if values != [] {
      var front, last := values[..|values| - 1], values[|values| - 1];
      FirstSeenOfAll(front, ids);
      assert values == front + [last] && last !in front;
    }
  }

  /** A model that names its whole window gets the order it names. */
  lemma NamedInFull(named: seq<string>, ids: seq<string>)
    requires Distinct(ids) && multiset(named) == multiset(ids)
    ensures WindowOrder(List(named), ids) == named
  {
    hide FirstSeen, Unmentioned;
    SameMembers(named, ids);
    SameMembers(ids, named);
    DistinctCounts(ids);
    DistinctCounts(named);
    FirstSeenOfAll(named, ids);
    NoneUnmentioned(ids, Elements(named));
  }

  ghost predicate Separates(rank: Ranking, ids: set<string>) {
    forall x, y | x in ids && y in ids && rank(x) == rank(y) :: x == y
  }

  lemma SorterSorts(rank: Ranking, ids: set<string>)
    requires Separates(rank, ids)
    ensures Sorts(Sorter(rank), rank, ids)
  {
    hide Sort, WindowOrder;
    forall call: int, w: seq<string> | Distinct(w) && Elements(w) <= ids
      ensures Sorter(rank)(call, w).Answered?
      ensures Ranked(WindowOrder(Sorter(rank)(call, w).reply, w), rank)
    {
      var sorted := Sort(w, RankLe(rank));
      assert Preorder(RankLe(rank));
      SortPermutes(w, RankLe(rank));
      SortSorts(w, RankLe(rank));
      SameMembers(sorted, w);
      DistinctCounts(w);
      DistinctCounts(sorted);
      NamedInFull(sorted, w);
      forall i, j | 0 <= i < j < |sorted| ensures rank(sorted[i]) < rank(sorted[j]) {
        assert RankLe(rank)(sorted[i], sorted[j]) && sorted[i] != sorted[j];
        assert sorted[i] in w && sorted[j] in w;
      }
    }
  }

  function Reversed(xs: seq<string>): (r: seq<string>)
    ensures |r| == |xs| && forall i | 0 <= i < |r| :: r[i] == xs[|xs| - 1 - i]
  {
    seq(|xs|, i requires 0 <= i < |xs| => xs[|xs| - 1 - i])
  }

  lemma PositionAt(ids: seq<string>, i: nat)
    requires Distinct(ids) && i < |ids|
    ensures PositionOf(ids[i], ids) == i
  {
    var p := PositionOf(ids[i], ids);
    assert ids[p] == ids[i];
  }

  lemma BackwardsSeparates(ids: seq<string>)
    ensures Separates(Backwards(ids), Elements(ids))
  {
    forall x, y | x in ids && y in ids && Backwards(ids)(x) == Backwards(ids)(y) ensures x == y {
      assert ids[PositionOf(x, ids)] == x && ids[PositionOf(y, ids)] == y;
    }
  }

  lemma ReversedPermutes(xs: seq<string>)
    requires Distinct(xs)
    ensures multiset(Reversed(xs)) == multiset(xs)
  {
    forall x | x in xs ensures x in Reversed(xs) {
      var i :| 0 <= i < |xs| && xs[i] == x;
      assert Reversed(xs)[|xs| - 1 - i] == x;
    }
    SameElements(Reversed(xs), xs);
  }

  /** Backwards, any stretch of the candidates is best when reversed. */
  lemma ReversedIsRanked(ids: seq<string>, from: nat)
    requires Distinct(ids) && from <= |ids|
    ensures Ranked(Reversed(ids[from..]), Backwards(ids))
    ensures multiset(Reversed(ids[from..])) == multiset(ids[from..])
    ensures Separates(Backwards(ids), Elements(ids))
  {
    hide PositionOf;
    var back := Reversed(ids[from..]);
    BackwardsSeparates(ids);
    ReversedPermutes(ids[from..]);
    forall i | 0 <= i < |back| ensures Backwards(ids)(back[i]) == i + 1 - |ids| {
      assert back[i] == ids[|ids| - 1 - i];
      PositionAt(ids, |ids| - 1 - i);
    }
  }

  lemma {:induction false} SpansEndBy(end: int, count: int, size: int, stride: int)
    requires stride >= 1 && size >= 0
    ensures forall s | s in SpansFrom(end, count, size, stride) :: s.end <= Max(end, size)
    decreases if end > size then end - size else 0
  {
    if end > size { SpansEndBy(end - stride, count, size, stride); }
  }

  /** What lies behind every window stays where it is. */
  lemma {:induction false} TailStays(order: seq<string>, spans: seq<Span>, ask: Model, call: int, j: nat)
    requires Distinct(order) && SpansFit(spans, |order|) && j < |order|
    requires (forall s | s in spans :: s.end <= j) && Merge(order, spans, ask, call).Ok?
    ensures j < |Merge(order, spans, ask, call).value| && Merge(order, spans, ask, call).value[j] == order[j]
    decreases |spans|
  {
    hide WindowOrder;
    if spans != [] {
      var window := order[spans[0].start..spans[0].end];
      var reply := ask(call, window).reply;
      var next := Replaced(order, spans[0], WindowOrder(reply, window));
      MergeOnce(order, spans, ask, call, next);
      WindowOrderKeepsAll(reply, window);
      assert spans[0] in spans;
      assert next[j] == order[j];
      TailStays(next, spans[1..], ask, call + 1, j);
    }
  }

  /** After the first call the back window is reversed. */
  lemma AfterBackWindow(ids: seq<string>, size: int, stride: int)
    requires Distinct(ids) && |ids| > size >= stride >= 1
    ensures var n, ask := |ids|, Sorter(Backwards(ids));
      var next := Replaced(ids, Span(n - size, n), Reversed(ids[n - size..n]));
      && Distinct(next) && |next| == n && SpansFit(SpansFrom(n, n, size, stride), n)
      && SpansFit(SpansFrom(n - stride, n, size, stride), n)
      && Merge(ids, SpansFrom(n, n, size, stride), ask, 0) == Merge(next, SpansFrom(n - stride, n, size, stride), ask, 1)
  {
    hide WindowOrder, Merge, Replaced, Sorter, Backwards, SpansFrom, Distinct, Reversed;
    var n, ask := |ids|, Sorter(Backwards(ids));
    var spans, window := SpansFrom(n, n, size, stride), ids[n - size..n];
    BackWindowAnswer(ids, n - size);
    assert ids[n - size..] == window;
    SpansFromFit(n, n, size, stride);
    FirstSpan(n, n, size, stride);
    MergeOnce(ids, spans, ask, 0, Replaced(ids, spans[0], Reversed(window)));
  }

  lemma FirstSpan(end: int, count: int, size: int, stride: int)
    requires stride >= 1 && end > size
    ensures var spans := SpansFrom(end, count, size, stride);
      spans != [] && spans[0] == Span(end - size, end) && spans[1..] == SpansFrom(end - stride, count, size, stride)
  {
  }

  lemma BackWindowAnswer(ids: seq<string>, from: nat)
    requires Distinct(ids) && from <= |ids|
    ensures var ask, window := Sorter(Backwards(ids)), ids[from..];
      ask(0, window).Answered? && WindowOrder(ask(0, window).reply, window) == Reversed(window)
  {
    hide Sort, WindowOrder, Sorts, Ranked, Sorter, Backwards;
    ReversedIsRanked(ids, from);
    SorterSorts(Backwards(ids), Elements(ids));
    assert Elements(ids[from..]) <= Elements(ids);
    BackWindowReverses(ids, ids[from..], Backwards(ids));
  }

  /** The first candidate of the back window that the next window does not reach is never moved again. */
  lemma BestOneStays(ids: seq<string>, size: int, overlap: int)
    requires Distinct(ids) && |ids| > size >= 1 && overlap >= 0
    requires var rank := Backwards(ids); Leads(ids, size, overlap, Sorter(rank), rank, 0)
    ensures var c := Certain(|ids|, size, overlap); var ask := Sorter(Backwards(ids));
      var r := Merge(ids, Spans(|ids|, size, overlap), ask, 0).value;
      0 <= c < size && |r| == |ids| && r[|ids| - size + c] == ids[|ids| - 1 - c]
  {
    hide Sort, WindowOrder, Merge, TopFrom, Replaced, Sorter, Backwards, SpansFrom;
    var n, stride := |ids|, Stride(size, overlap);
    var ask, c := Sorter(Backwards(ids)), Certain(n, size, overlap);
    var window := ids[n - size..n];
    var next := Replaced(ids, Span(n - size, n), Reversed(window));
    AfterBackWindow(ids, size, stride);
    MergeKeepsAll(ids, SpansFrom(n, n, size, stride), ask, 0);
    SpansEndBy(n - stride, n, size, stride);
    TailStays(next, SpansFrom(n - stride, n, size, stride), ask, 1, n - size + c);
    PlacedInWindow(ids, Span(n - size, n), Reversed(window), n - size + c);
  }

  lemma PlacedInWindow(order: seq<string>, span: Span, w: seq<string>, i: int)
    requires 0 <= span.start <= i < span.end <= |order| && |w| == span.end - span.start
    ensures i < |Replaced(order, span, w)| && Replaced(order, span, w)[i] == w[i - span.start]
  {
  }

  lemma BackWindowReverses(ids: seq<string>, window: seq<string>, rank: Ranking)
    requires Distinct(window) && Elements(window) <= Elements(ids) && Sorts(Sorter(rank), rank, Elements(ids))
    requires Ranked(Reversed(window), rank) && multiset(Reversed(window)) == multiset(window)
    ensures Sorter(rank)(0, window).Answered?
    ensures WindowOrder(Sorter(rank)(0, window).reply, window) == Reversed(window)
  {
    hide Sort, WindowOrder;
    var w := WindowOrder(Sorter(rank)(0, window).reply, window);
    assert Ranked(w, rank);
    WindowOrderKeepsAll(Sorter(rank)(0, window).reply, window);
    HeadOfSorted(w, Reversed(window), |w|, rank);
    assert w[..|w|] == w && Reversed(window)[..|w|] == Reversed(window);
  }

  lemma PlaceOfSorted(order: seq<string>, best: seq<string>, k: nat, i: nat, rank: Ranking)
    requires multiset(order) == multiset(best) && Ranked(best, rank) && i < k <= |order|
    requires TopFrom(order, 0, k, rank)
    ensures |best| == |order| && order[i] == best[i]
  {
    SameMembers(order, best);
    HeadOfSorted(order, best, k, rank);
    assert order[i] == order[..k][i] && best[i] == best[..k][i];
  }

  /** One place further is not certain: candidates that come in worst first, sorted window by window,
      leave the next best one behind. */
  lemma NextPlaceIsNotCertain(ids: seq<string>, size: int, overlap: int)
    requires Distinct(ids) && |ids| > size >= 1 && overlap >= 0
    ensures Sorts(Sorter(Backwards(ids)), Backwards(ids), Elements(ids))
    ensures !Leads(ids, size, overlap, Sorter(Backwards(ids)), Backwards(ids), Certain(|ids|, size, overlap) + 1)
  {
    hide Sort, WindowOrder, Merge, Sorts, Ranked, Spans;
    var n, rank, c := |ids|, Backwards(ids), Certain(|ids|, size, overlap);
    ReversedIsRanked(ids, 0);
    assert ids[0..] == ids;
    SorterSorts(rank, Elements(ids));
    BestCandidatesLead(ids, size, overlap, Sorter(rank), rank);
    BestOneStays(ids, size, overlap);
    if Leads(ids, size, overlap, Sorter(rank), rank, c + 1) {
      var r := Merge(ids, Spans(n, size, overlap), Sorter(rank), 0).value;
      MergeKeepsAll(ids, Spans(n, size, overlap), Sorter(rank), 0);
      PlaceOfSorted(r, Reversed(ids), c + 1, c, rank);
    }
  }

  /** So `Certain` is exact for every list and every geometry: that many places, and no more, are right
      for every ranking and every model that sorts by it. */
  lemma CertainIsExact(ids: seq<string>, size: int, overlap: int, k: int)
    requires Distinct(ids) && ids != [] && size >= 1 && overlap >= 0 && k <= |ids|
    ensures (forall ask: Model, rank: Ranking | Sorts(ask, rank, Elements(ids)) ::
               Leads(ids, size, overlap, ask, rank, k))
       <==> k <= Certain(|ids|, size, overlap)
  {
    hide Merge, Sorts, Spans;
    var c := Certain(|ids|, size, overlap);
    if k <= c {
      forall ask: Model, rank: Ranking | Sorts(ask, rank, Elements(ids))
        ensures Leads(ids, size, overlap, ask, rank, k)
      {
        BestCandidatesLead(ids, size, overlap, ask, rank);
      }
    } else {
      NextPlaceIsNotCertain(ids, size, overlap);
      assert !Leads(ids, size, overlap, Sorter(Backwards(ids)), Backwards(ids), k);
    }
  }

  // ---------------------------------------------------------------------------
  // The whole rerank
  // ---------------------------------------------------------------------------

  const WINDOW_SIZE := 10
  const WINDOW_OVERLAP := 5

  datatype Reranked<T> = Reranked(ordered: seq<T>, changed: bool, fallback: Option<string>)

  function IdOf(position: int): string {
    "c" + Dec(position)
  }

  lemma IdInjective(i: int, j: int)
    requires IdOf(i) == IdOf(j)
    ensures i == j
  {
    hide Dec;
    assert IdOf(i)[1..] == Dec(i) && IdOf(j)[1..] == Dec(j);
    DecInjective(i, j);
  }

  /** `c1`, `c2`, ...: positions in the order the candidates came in. */
  function Ids(n: nat): seq<string> {
    seq(n, i => IdOf(i + 1))
  }

  lemma IdsDistinct(n: nat)
    ensures Distinct(Ids(n))
  {
    hide IdOf;
    forall i, j | 0 <= i < j < n ensures Ids(n)[i] != Ids(n)[j] {
      if IdOf(i + 1) == IdOf(j + 1) { IdInjective(i + 1, j + 1); }
    }
  }

  /** `by_id` */
  function ById<T>(candidates: seq<T>): (m: map<string, T>)
    ensures m.Keys == Elements(Ids(|candidates|))
    ensures forall i | 0 <= i < |candidates| :: m[Ids(|candidates|)[i]] == candidates[i]
  {
    IdsDistinct(|candidates|);
    Zipped(Ids(|candidates|), candidates)
  }

  function Zipped<T>(ids: seq<string>, xs: seq<T>): (m: map<string, T>)
    requires |ids| == |xs| && Distinct(ids)
    ensures m.Keys == Elements(ids)
    ensures forall i | 0 <= i < |ids| :: m[ids[i]] == xs[i]
  {
    if ids == [] then map[] else
      var k := |ids| - 1;
      assert ids == ids[..k] + [ids[k]];
      Zipped(ids[..k], xs[..k])[ids[k] := xs[k]]
  }

  function Looked<T>(ids: seq<string>, m: map<string, T>): seq<T>
    requires forall id | id in ids :: id in m
  {
    seq(|ids|, i requires 0 <= i < |ids| => m[ids[i]])
  }

  lemma {:induction false} LookedPermutes<T>(xs: seq<string>, ys: seq<string>, m: map<string, T>)
    requires multiset(xs) == multiset(ys) && forall id | id in ys :: id in m
    ensures forall id | id in xs :: id in m
    ensures multiset(Looked(xs, m)) == multiset(Looked(ys, m))
    decreases |xs|
  {
    SameMembers(xs, ys);
    if xs != [] {
      var k := |xs| - 1;
      assert xs[k] in ys;
      var t :| 0 <= t < |ys| && ys[t] == xs[k];
      var rest := ys[..t] + ys[t + 1..];
      WithoutOne(xs, k, ys, t);
      assert xs[..k] + xs[k + 1..] == xs[..k];
      LookedPermutes(xs[..k], rest, m);
      assert Looked(xs, m) == Looked(xs[..k], m) + [m[xs[k]]];
      assert Looked(rest, m) == Looked(ys[..t], m) + Looked(ys[t + 1..], m);
      assert Looked(ys, m) == Looked(ys[..t], m) + [m[ys[t]]] + Looked(ys[t + 1..], m);
    }
  }

  /** The loop over the windows: `order` is rearranged in place until a call raises. */
  method RunWindows(order: array<string>, spans: seq<Span>, ask: Model) returns (raised: Option<string>)
    requires Distinct(order[..]) && SpansFit(spans, order.Length)
    modifies order
    ensures var merged := Merge(old(order[..]), spans, ask, 0);
      if merged.Err? then raised == Some(merged.error) else raised == None && order[..] == merged.value
  {
    hide WindowOrder, Merge;
    for call := 0 to |spans|
      invariant Distinct(order[..]) && SpansFit(spans[call..], |order[..]|)
      invariant Merge(order[..], spans[call..], ask, call) == Merge(old(order[..]), spans, ask, 0)
    {
      ghost var before := order[..];
      var span := spans[call];
      assert spans[call..][0] == span;
      var window := order[span.start..span.end];
      var outcome := ask(call, window);
      if outcome.Raised? {
        MergeRaised(before, spans[call..], ask, call);
        return Some(outcome.kind);
      }
      var answer := ParseWindowOrder(outcome.reply, window);
      WindowOrderKeepsAll(outcome.reply, window);
      Splice(order, span.start, answer);
      MergeOnce(before, spans[call..], ask, call, order[..]);
      assert spans[call..][1..] == spans[call + 1..];
    }
    assert spans[|spans|..] == [];
    MergeNone(order[..], ask, |spans|);
    raised := None;
  }

  /** `llm_rerank`. Without the model, or when any call raises, the order stands as it was. */
  method LlmRerank<T>(candidates: seq<T>, available: bool, ask: Model) returns (r: Reranked<T>)
    ensures multiset(r.ordered) == multiset(candidates)
    ensures |candidates| < 2 ==> r == Reranked(candidates, false, None)
    ensures |candidates| >= 2 && !available ==> r == Reranked(candidates, false, Some("missing_model_path"))
    ensures |candidates| >= 2 && available ==> RerankOk(candidates, ask, r)
  {
    hide Merge, Spans;
    r := Reranked(candidates, false, None);
    if |candidates| < 2 { return; }
    if !available { return r.(fallback := Some("missing_model_path")); }
    var n := |candidates|;
    var ids := Ids(n);
    IdsDistinct(n);
    var order := new string[n](i requires 0 <= i < n => ids[i]);
    assert order[..] == ids;
    var spans := WindowSpans(n, WINDOW_SIZE, WINDOW_OVERLAP);
    SpansShape(n, WINDOW_SIZE, WINDOW_OVERLAP);
    MergeKeepsAll(ids, spans, ask, 0);
    var raised := RunWindows(order, spans, ask);
    if raised.Some? {
      return r.(fallback := Some("api_error:" + raised.value));
    }
    LookedPermutes(order[..], ids, ById(candidates));
    LookedInOrder(candidates);
    r := Reranked(Looked(order[..], ById(candidates)), order[..] != ids, None);
  }

  /** `order[start:end] = answer`, the two being equally long. */
  method Splice(order: array<string>, start: nat, answer: seq<string>)
    requires start + |answer| <= order.Length
    modifies order
    ensures order[..] == Replaced(old(order[..]), Span(start, start + |answer|), answer)
  {
    forall i | 0 <= i < |answer| {
      order[start + i] := answer[i];
    }
  }

  ghost predicate RerankOk<T>(candidates: seq<T>, ask: Model, r: Reranked<T>)
    requires |candidates| >= 2
  {
    var ids := Ids(|candidates|);
    IdsDistinct(|candidates|);
    SpansShape(|candidates|, WINDOW_SIZE, WINDOW_OVERLAP);
    var merged := Merge(ids, Spans(|candidates|, WINDOW_SIZE, WINDOW_OVERLAP), ask, 0);
    if merged.Err? then r == Reranked(candidates, false, Some("api_error:" + merged.error))
    else
      MergeKeepsAll(ids, Spans(|candidates|, WINDOW_SIZE, WINDOW_OVERLAP), ask, 0);
      LookedPermutes(merged.value, ids, ById(candidates));
      r == Reranked(Looked(merged.value, ById(candidates)), merged.value != ids, None)
  }

  lemma LookedInOrder<T>(candidates: seq<T>)
    ensures Looked(Ids(|candidates|), ById(candidates)) == candidates
  {
  }
}
