/** The deterministic rerank (agentrail/context/rerank.py): candidates are scored by signals on top of
    a prior that decays with retrieval rank, sorted, cut at top-K, and keyword noise is dropped.
    Tokenizing is not modelled: which candidate defines or is named after a target symbol is given. */
module Rerank {
  import opened Collections
  import opened Sequences
  import opened StableSort

  datatype Freshness = Current | Unknown | Stale | Expired

  datatype Candidate = Candidate(key: string, primary: bool, noiseType: bool, defines: bool, stemMatch: bool,
                                 depth: Option<nat>, freshness: Freshness)

  function SymbolSignal(c: Candidate): real {
    (if c.defines then 3.0 else 0.0) + (if c.stemMatch then 1.5 else 0.0)
  }

  function GraphSignal(c: Candidate): real {
    if c.depth.None? then 0.0 else 2.0 / (c.depth.value as real + 1.0)
  }

  function FreshnessSignal(c: Candidate): real {
    match c.freshness
    case Current => 1.0
    case Unknown => 0.0
    case Stale => -1.0
    case Expired => -2.0
  }

  predicate RelevantPrimary(c: Candidate) {
    c.primary && !c.noiseType && c.defines
  }

  predicate HasRelevantPrimary(candidates: seq<Candidate>) {
    exists c | c in candidates :: RelevantPrimary(c)
  }

  predicate DroppableNoise(c: Candidate, hasPrimary: bool) {
    c.noiseType && hasPrimary && !c.defines && SymbolSignal(c) == 0.0
  }

  function Signals(c: Candidate, hasPrimary: bool): real {
    SymbolSignal(c) + GraphSignal(c) + FreshnessSignal(c) - (if DroppableNoise(c, hasPrimary) then 4.0 else 0.0)
  }

  datatype Scored = Scored(score: real, index: int, item: Candidate, noise: bool)

  function ScoreOf(candidates: seq<Candidate>, i: nat): Scored
    requires i < |candidates|
  {
    var c, hasPrimary := candidates[i], HasRelevantPrimary(candidates);
    Scored((|candidates| - i) as real * 0.1 + Signals(c, hasPrimary), i, c, DroppableNoise(c, hasPrimary))
  }

  function ScoreAll(candidates: seq<Candidate>): (r: seq<Scored>)
    ensures |r| == |candidates| && forall i | 0 <= i < |r| :: r[i] == ScoreOf(candidates, i)
  {
    seq(|candidates|, i requires 0 <= i < |candidates| => ScoreOf(candidates, i))
  }

  /** `key=(-score, index)` */
  predicate Ahead(x: Scored, y: Scored) {
    x.score > y.score || (x.score == y.score && x.index <= y.index)
  }

  function InOrder(candidates: seq<Candidate>): seq<Scored> {
    Sort(ScoreAll(candidates), Ahead)
  }

  function Legitimate(scored: seq<Scored>): seq<Scored> {
    if scored == [] then [] else
      Legitimate(scored[..|scored| - 1]) + (if scored[|scored| - 1].noise then [] else [scored[|scored| - 1]])
  }

  /** The first entries, at most `k` of them; a cut-off below zero keeps none. */
  function Top(xs: seq<Scored>, k: int): seq<Scored> {
    if k <= 0 then [] else if k <= |xs| then xs[..k] else xs
  }

  function Items(scored: seq<Scored>): seq<Candidate> {
    Mapped(scored, (x: Scored) => x.item)
  }

  datatype Cut = Cut(ranked: seq<Scored>, rejected: seq<Scored>)

  /** What the loop has kept and rejected after these entries. */
  function CutAt(scored: seq<Scored>, topK: int): Cut {
    if scored == [] then Cut([], []) else
      var cut, last := CutAt(scored[..|scored| - 1], topK), scored[|scored| - 1];
      if |cut.ranked| < topK && !last.noise then cut.(ranked := cut.ranked + [last])
      else cut.(rejected := cut.rejected + [last])
  }

  function Reranked(candidates: seq<Candidate>, topK: int): Cut {
    CutAt(InOrder(candidates), topK)
  }

  /** `rerank_candidates` */
  method RerankCandidates(candidates: seq<Candidate>, topK: int) returns (ranked: seq<Scored>, rejected: seq<Scored>)
    ensures Cut(ranked, rejected) == Reranked(candidates, topK)
  {
    var scored := InOrder(candidates);
    ranked, rejected := [], [];
    var keptPosition := 0;
    for i := 0 to |scored|
      invariant Cut(ranked, rejected) == CutAt(scored[..i], topK) && keptPosition == |ranked|
    {
      assert scored[..i + 1][..i] == scored[..i];
      if keptPosition < topK && !scored[i].noise {
        keptPosition := keptPosition + 1;
        ranked := ranked + [scored[i]];
      } else {
        rejected := rejected + [scored[i]];
      }
    }
    assert scored[..|scored|] == scored;
  }

  lemma AheadIsPreorder()
    ensures Preorder(Ahead)
  {
  }

  lemma OrderedWithoutTies(candidates: seq<Candidate>)
    ensures multiset(InOrder(candidates)) == multiset(ScoreAll(candidates))
    ensures |InOrder(candidates)| == |candidates|
    ensures Sorted(InOrder(candidates), Ahead)
  {
    AheadIsPreorder();
    SortPermutes(ScoreAll(candidates), Ahead);
    SortSorts(ScoreAll(candidates), Ahead);
  }

  lemma {:induction false} LegitimateIs(scored: seq<Scored>)
    ensures forall x :: multiset(Legitimate(scored))[x] == if x.noise then 0 else multiset(scored)[x]
    ensures |Legitimate(scored)| <= |scored|
  {
    if scored != [] {
      var front, last := scored[..|scored| - 1], scored[|scored| - 1];
      LegitimateIs(front);
      assert scored == front + [last];
      assert multiset(scored) == multiset(front) + multiset{last};
    }
  }

  lemma {:induction false} LegitimateKeepsOrder(scored: seq<Scored>)
    requires Sorted(scored, Ahead)
    ensures Sorted(Legitimate(scored), Ahead)
  {
    if scored != [] {
      var front, last := scored[..|scored| - 1], scored[|scored| - 1];
      LegitimateKeepsOrder(front);
      forall x | x in Legitimate(front) ensures Ahead(x, last) {
        LegitimateIs(front);
        assert x in multiset(Legitimate(front));
        assert x in multiset(front);
        var t :| 0 <= t < |front| && front[t] == x;
        assert scored[t] == x;
      }
    }
  }

  lemma {:induction false} CutConserves(scored: seq<Scored>, topK: int)
    ensures var cut := CutAt(scored, topK); multiset(cut.ranked) + multiset(cut.rejected) == multiset(scored)
  {
    if scored != [] {
      var front, last := scored[..|scored| - 1], scored[|scored| - 1];
      CutConserves(front, topK);
      assert scored == front + [last];
    }
  }

  /** The kept entries are the first legitimate ones, as many as fit. */
  lemma {:induction false} CutKeepsTheFirst(scored: seq<Scored>, topK: int)
    ensures CutAt(scored, topK).ranked == Top(Legitimate(scored), topK)
  {
    if scored != [] {
      var front := scored[..|scored| - 1];
      CutKeepsTheFirst(front, topK);
    }
  }

  /** An entry rejected for its place, not for being noise, comes after every entry kept. */
  lemma {:induction false} RejectedComeLater(scored: seq<Scored>, topK: int, x: Scored, y: Scored)
    requires Sorted(scored, Ahead)
    requires x in CutAt(scored, topK).ranked && y in CutAt(scored, topK).rejected && !y.noise
    ensures Ahead(x, y)
    ensures |CutAt(scored, topK).ranked| >= topK
  {
    var front, last := scored[..|scored| - 1], scored[|scored| - 1];
    var before := CutAt(front, topK);
    if x in before.ranked && y in before.rejected {
      RejectedComeLater(front, topK, x, y);
    } else if x in before.ranked {
      CutConserves(front, topK);
      assert x in multiset(before.ranked);
      assert x in multiset(front);
      var t :| 0 <= t < |front| && front[t] == x;
      assert scored[t] == x;
    } else {
      KeptWhileRoom(front, topK, y);
    }
  }

  lemma {:induction false} KeptWhileRoom(scored: seq<Scored>, topK: int, y: Scored)
    requires |CutAt(scored, topK).ranked| < topK && !y.noise
    ensures y !in CutAt(scored, topK).rejected
  {
    if scored != [] {
      KeptWhileRoom(scored[..|scored| - 1], topK, y);
    }
  }

  /** Ranked and rejected are the candidates, each once. */
  lemma NothingIsLost(candidates: seq<Candidate>, topK: int)
    ensures var cut := Reranked(candidates, topK);
      multiset(Items(cut.ranked)) + multiset(Items(cut.rejected)) == multiset(candidates)
  {
    hide CutAt, Sort, ScoreOf;
    var cut := Reranked(candidates, topK);
    OrderedWithoutTies(candidates);
    CutConserves(InOrder(candidates), topK);
    MappedPermutes(cut.ranked + cut.rejected, ScoreAll(candidates), (x: Scored) => x.item);
    assert Items(cut.ranked + cut.rejected) == Items(cut.ranked) + Items(cut.rejected);
    ItemsOfScores(candidates);
  }

  lemma ItemsOfScores(candidates: seq<Candidate>)
    ensures Items(ScoreAll(candidates)) == candidates
  {
  }

  /** How many candidates are not droppable noise. */
  function LegitimateCount(candidates: seq<Candidate>): nat {
    |Legitimate(ScoreAll(candidates))|
  }

  lemma SortKeepsLegitimate(candidates: seq<Candidate>)
    ensures |Legitimate(InOrder(candidates))| == LegitimateCount(candidates)
  {
    hide Legitimate, Sort, ScoreAll;
    var sorted, scores := InOrder(candidates), ScoreAll(candidates);
    OrderedWithoutTies(candidates);
    LegitimateIs(sorted);
    LegitimateIs(scores);
    assert multiset(Legitimate(sorted)) == multiset(Legitimate(scores));
    SameMembers(Legitimate(sorted), Legitimate(scores));
  }

  /** The cut respects the scores: as many are kept as fit, none of them noise, and every legitimate
      candidate left out scores no better than any kept, ties going to the better retrieval rank. */
  lemma DominanceHolds(candidates: seq<Candidate>, topK: int)
    ensures var cut := Reranked(candidates, topK);
      && |cut.ranked| == (if topK <= 0 then 0 else if topK <= LegitimateCount(candidates) then topK
                          else LegitimateCount(candidates))
      && Sorted(cut.ranked, Ahead)
      && (forall x | x in cut.ranked :: !x.noise)
      && (forall x, y | x in cut.ranked && y in cut.rejected && !y.noise :: Ahead(x, y))
  {
    hide CutAt, Sort, ScoreOf, Legitimate;
    var scored, cut := InOrder(candidates), Reranked(candidates, topK);
    OrderedWithoutTies(candidates);
    SortKeepsLegitimate(candidates);
    CutKeepsTheFirst(scored, topK);
    LegitimateKeepsOrder(scored);
    forall x | x in cut.ranked ensures !x.noise {
      LegitimateIs(scored);
      assert x in multiset(Legitimate(scored));
    }
    forall x, y | x in cut.ranked && y in cut.rejected && !y.noise ensures Ahead(x, y) {
      RejectedComeLater(scored, topK, x, y);
    }
  }

  lemma {:induction false} LegitimateAt(scored: seq<Scored>, i: nat)
    requires i < |scored| && !scored[i].noise
    ensures Legitimate(scored) != []
  {
    if i < |scored| - 1 {
      LegitimateAt(scored[..|scored| - 1], i);
    }
  }

  /** Noise is only dropped beside a source worth keeping: the result is then not empty. */
  lemma NoiseNeverEmptiesTheList(candidates: seq<Candidate>, topK: int)
    requires topK >= 1 && exists i :: 0 <= i < |candidates| && ScoreOf(candidates, i).noise
    ensures Reranked(candidates, topK).ranked != []
  {
    var c :| c in candidates && RelevantPrimary(c);
    var i :| 0 <= i < |candidates| && candidates[i] == c;
    assert !ScoreAll(candidates)[i].noise;
    LegitimateAt(ScoreAll(candidates), i);
    DominanceHolds(candidates, topK);
  }

  /** The signals refine the retrieval order: a candidate passes one ranked `j - i` places above it
      exactly when its signals lead by more than 0.1 a place. */
  lemma PassesByLead(candidates: seq<Candidate>, i: nat, j: nat)
    requires i < j < |candidates|
    ensures var hasPrimary := HasRelevantPrimary(candidates);
      Ahead(ScoreOf(candidates, j), ScoreOf(candidates, i)) <==>
      Signals(candidates[j], hasPrimary) - Signals(candidates[i], hasPrimary) > (j - i) as real * 0.1
  {
    assert (|candidates| - i) as real == (|candidates| - j) as real + (j - i) as real;
  }

  /** What each kind of evidence is worth, counted in places of the retrieval order: with it a candidate passes
      another that differs in nothing else exactly if that one is ranked fewer places above. */
  predicate Passes(candidates: seq<Candidate>, i: nat, j: nat, places: real)
    requires i < j < |candidates|
  {
    Ahead(ScoreOf(candidates, j), ScoreOf(candidates, i)) <==> (j - i) as real < places
  }

  /** Defining a symbol that is asked for is worth 30 places, being named after one 15, and each step of
      freshness, from expired over stale and unknown to current, 10. */
  lemma EvidenceInPlaces(candidates: seq<Candidate>, i: nat, j: nat)
    requires i < j < |candidates| && !candidates[i].noiseType
    ensures var a, b := candidates[i], candidates[j].(key := candidates[i].key);
      && (!a.defines && b == a.(defines := true) ==> Passes(candidates, i, j, 30.0))
      && (!a.stemMatch && b == a.(stemMatch := true) ==> Passes(candidates, i, j, 15.0))
      && (a.freshness.Unknown? && b == a.(freshness := Current) ==> Passes(candidates, i, j, 10.0))
      && (a.freshness.Stale? && b == a.(freshness := Unknown) ==> Passes(candidates, i, j, 10.0))
      && (a.freshness.Expired? && b == a.(freshness := Stale) ==> Passes(candidates, i, j, 10.0))
  {
    PassesByLead(candidates, i, j);
  }

  lemma TenfoldOver(y: real)
    requires y > 0.0
    ensures 20.0 / y == 10.0 * (2.0 / y)
  {
  }

  lemma GraphLead(a: Candidate, b: Candidate, hasPrimary: bool)
    requires !a.noiseType && b.(key := a.key) == a.(depth := b.depth)
    ensures Signals(b, hasPrimary) - Signals(a, hasPrimary) == GraphSignal(b) - GraphSignal(a)
  {
  }

  /** A place `d` steps from an anchor in the code graph is worth 20 / (d + 1) places over none, so nearer is
      better. */
  lemma NearnessInPlaces(candidates: seq<Candidate>, i: nat, j: nat)
    requires i < j < |candidates| && !candidates[i].noiseType && candidates[j].depth.Some?
    requires candidates[j].(key := candidates[i].key) == candidates[i].(depth := candidates[j].depth)
    ensures var near := 20.0 / (candidates[j].depth.value as real + 1.0);
      && (candidates[i].depth.None? ==> Passes(candidates, i, j, near))
      && (candidates[i].depth.Some? ==>
            Passes(candidates, i, j, near - 20.0 / (candidates[i].depth.value as real + 1.0)))
  {
    hide Ahead, ScoreOf, Signals;
    PassesByLead(candidates, i, j);
    GraphLead(candidates[i], candidates[j], HasRelevantPrimary(candidates));
    TenfoldOver(candidates[j].depth.value as real + 1.0);
    if candidates[i].depth.Some? { TenfoldOver(candidates[i].depth.value as real + 1.0); }
  }

  /** What counts as noise: a test, fixture or script with no symbol to show for itself, beside a primary source
      that is none of these and defines what is asked for. It sinks by 40 places, and is never kept. */
  lemma NoiseExactly(candidates: seq<Candidate>, i: nat, topK: int)
    requires i < |candidates|
    ensures var c := candidates[i];
      ScoreOf(candidates, i).noise <==>
      && c.noiseType && !c.defines && !c.stemMatch
      && exists d :: d in candidates && d.primary && !d.noiseType && d.defines
    ensures forall j: nat | i < j < |candidates| && ScoreOf(candidates, i).noise &&
      candidates[j].(key := candidates[i].key) == candidates[i].(noiseType := false) :: Passes(candidates, i, j, 40.0)
    ensures forall x | x in Reranked(candidates, topK).ranked :: !x.noise
  {
    DominanceHolds(candidates, topK);
    if d :| d in candidates && d.primary && !d.noiseType && d.defines {
      assert RelevantPrimary(d);
    }
    forall j: nat | i < j < |candidates| && ScoreOf(candidates, i).noise &&
      candidates[j].(key := candidates[i].key) == candidates[i].(noiseType := false)
      ensures Passes(candidates, i, j, 40.0)
    {
      PassesByLead(candidates, i, j);
    }
  }
}
