/** The file-level ranking metrics (agentrail/context/evaluation.py): results collapse to distinct
    files, then nDCG scores their order and the precision and recall figures score membership.
    The logarithmic discount enters only as some positive, strictly decreasing sequence of reals. */
module Evaluation {
  import opened Collections
  import opened Sequences
  import opened StableSort

  // ---------------------------------------------------------------------------
  // From results to files
  // ---------------------------------------------------------------------------

  /** Distinct paths in first-seen order; a blank path is no file. */
  function Dedupe(paths: seq<string>): (files: seq<string>)
    ensures Distinct(files) && forall x :: x in files <==> x in paths && x != ""
  {
    if paths == [] then [] else
      var front, last := paths[..|paths| - 1], paths[|paths| - 1];
      assert paths == front + [last];
      var files := Dedupe(front);
      if last != "" && last !in files then files + [last] else files
  }

  /** `_dedupe_paths` */
  method DedupePaths(paths: seq<string>) returns (ordered: seq<string>)
    ensures ordered == Dedupe(paths)
  {
    var seen: set<string> := {};
    ordered := [];
    for i := 0 to |paths|
      invariant ordered == Dedupe(paths[..i]) && seen == Elements(ordered)
    {
      assert paths[..i + 1][..i] == paths[..i];
      if paths[i] != "" && paths[i] !in seen {
        seen := seen + {paths[i]};
        ordered := ordered + [paths[i]];
      }
    }
    assert paths[..|paths|] == paths;
  }

  /** Rank order is kept: what is seen later is listed later. */
  lemma {:induction false} DedupeExtends(early: seq<string>, late: seq<string>)
    ensures Dedupe(early) <= Dedupe(early + late)
  {
    if late == [] {
      assert early + late == early;
    } else {
      var k := |late| - 1;
      DedupeExtends(early, late[..k]);
      assert (early + late)[..|early + late| - 1] == early + late[..k];
    }
  }

  // ---------------------------------------------------------------------------
  // Discounted gain
  // ---------------------------------------------------------------------------

  type Weights = nat -> real

  /** What is used of `1 / log2(i + 1)`. */
  ghost predicate Discounting(w: Weights) {
    (forall i: nat :: w(i) > 0.0) && forall i: nat, j: nat | i < j :: w(j) < w(i)
  }

  /** `_dcg`, for gains that start at rank `from`. */
  function Dcg(gains: seq<int>, w: Weights, from: nat): real {
    if gains == [] then 0.0 else gains[0] as real * w(from) + Dcg(gains[1..], w, from + 1)
  }

  /** Weights that stop at `depth`. */
  function Cut(w: Weights, depth: nat): Weights {
    (i: nat) => if i < depth then w(i) else 0.0
  }

  lemma {:induction false} CutIsPrefix(gains: seq<int>, w: Weights, depth: nat, from: nat)
    ensures Dcg(gains, Cut(w, depth), from) ==
            Dcg(if from >= depth then [] else if |gains| <= depth - from then gains else gains[..depth - from], w, from)
    decreases |gains|
  {
    if gains != [] {
      CutIsPrefix(gains[1..], w, depth, from + 1);
      if from < depth {
        var n := if |gains| <= depth - from then |gains| else depth - from;
        assert gains[..n][1..] == gains[1..][..n - 1];
        assert gains[..|gains|] == gains && gains[1..][..|gains| - 1] == gains[1..];
      }
    }
  }

  lemma {:induction false} DcgNonNegative(gains: seq<int>, w: Weights, from: nat)
    requires (forall i | 0 <= i < |gains| :: gains[i] >= 0) && (forall i: nat :: w(i) >= 0.0)
    ensures Dcg(gains, w, from) >= 0.0
    ensures (exists i :: 0 <= i < |gains| && gains[i] > 0 && w(from + i) > 0.0) ==> Dcg(gains, w, from) > 0.0
    ensures (forall i | 0 <= i < |gains| :: gains[i] == 0 || w(from + i) == 0.0) ==> Dcg(gains, w, from) == 0.0
    decreases |gains|
  {
    if gains != [] {
      DcgNonNegative(gains[1..], w, from + 1);
      assert gains[0] as real * w(from) >= 0.0;
      if i :| 0 <= i < |gains| && gains[i] > 0 && w(from + i) > 0.0 {
        if i > 0 { assert gains[1..][i - 1] == gains[i] && w(from + 1 + (i - 1)) > 0.0; }
        else { assert gains[0] as real * w(from) > 0.0; }
      }
      if forall i | 0 <= i < |gains| :: gains[i] == 0 || w(from + i) == 0.0 {
        forall i | 0 <= i < |gains| - 1 ensures gains[1..][i] == 0 || w(from + 1 + i) == 0.0 {
          assert gains[i + 1] == 0 || w(from + (i + 1)) == 0.0;
        }
        assert gains[0] == 0 || w(from + 0) == 0.0;
      }
    }
  }

  lemma {:induction false} DcgUpdate(gains: seq<int>, w: Weights, from: nat, i: nat, g: int)
    requires i < |gains|
    ensures Dcg(gains[i := g], w, from) == Dcg(gains, w, from) + (g - gains[i]) as real * w(from + i)
    decreases |gains|
  {
    if i == 0 {
      assert gains[0 := g][1..] == gains[1..];
    } else {
      DcgUpdate(gains[1..], w, from + 1, i - 1, g);
      assert gains[i := g][1..] == gains[1..][i - 1 := g];
    }
  }

  function Swapped(gains: seq<int>, i: nat, j: nat): seq<int>
    requires i < |gains| && j < |gains|
  {
    gains[i := gains[j]][j := gains[i]]
  }

  /** Swapping two gains changes the total by the gain moved times the weight it moves across. */
  lemma SwapChange(gains: seq<int>, w: Weights, from: nat, i: nat, j: nat)
    requires i < |gains| && j < |gains|
    ensures Dcg(Swapped(gains, i, j), w, from) ==
      Dcg(gains, w, from) + (gains[j] - gains[i]) as real * (w(from + i) - w(from + j))
  {
    DcgUpdate(gains, w, from, i, gains[j]);
    DcgUpdate(gains[i := gains[j]], w, from, j, gains[i]);
    var d := (gains[j] - gains[i]) as real;
    assert i != j ==> (gains[i] - gains[j]) as real * w(from + j) == -(d * w(from + j));
    assert d * (w(from + i) - w(from + j)) == d * w(from + i) - d * w(from + j);
  }

  lemma SwappedPermutes(gains: seq<int>, i: nat, j: nat)
    requires i < |gains| && j < |gains|
    ensures multiset(Swapped(gains, i, j)) == multiset(gains)
  {
  }

  lemma Product(a: real, b: real)
    requires a >= 0.0 && b >= 0.0
    ensures a * b >= 0.0
    ensures a > 0.0 && b > 0.0 ==> a * b > 0.0
  {
  }

  /** Moving a larger gain to a heavier rank. */
  lemma PromoteGains(gains: seq<int>, w: Weights, from: nat, i: nat, j: nat)
    requires i < |gains| && j < |gains| && gains[i] <= gains[j] && w(from + i) >= w(from + j)
    ensures Dcg(gains, w, from) <= Dcg(Swapped(gains, i, j), w, from)
    ensures gains[i] < gains[j] && w(from + i) > w(from + j) ==>
      Dcg(gains, w, from) < Dcg(Swapped(gains, i, j), w, from)
  {
    hide Dcg, Swapped;
    var d, v := (gains[j] - gains[i]) as real, w(from + i) - w(from + j);
    SwapChange(gains, w, from, i, j);
    assert Dcg(Swapped(gains, i, j), w, from) == Dcg(gains, w, from) + d * v;
    Product(d, v);
  }

  predicate Descending(gains: seq<int>) {
    forall i, j | 0 <= i < j < |gains| :: gains[i] >= gains[j]
  }

  ghost predicate NonIncreasing(w: Weights) {
    forall i: nat, j: nat | i < j :: w(j) <= w(i)
  }

  /** Bringing a largest gain to the front loses nothing. */
  lemma LargestFirst(gains: seq<int>, best: seq<int>, w: Weights, from: nat) returns (front: seq<int>)
    requires multiset(gains) == multiset(best) && Descending(best) && NonIncreasing(w) && gains != []
    ensures multiset(front) == multiset(gains) && |front| == |gains| == |best| && front[0] == best[0]
    ensures Dcg(gains, w, from) <= Dcg(front, w, from)
  {
    hide Dcg;
    SameMembers(gains, best);
    SameMembers(best, gains);
    assert best[0] in gains && gains[0] in best;
    assert best[0] >= gains[0];
    var p :| 0 <= p < |gains| && gains[p] == best[0];
    assert w(from + 0) >= w(from + p);
    PromoteGains(gains, w, from, 0, p);
    SwappedPermutes(gains, 0, p);
    front := Swapped(gains, 0, p);
  }

  /** The rearrangement inequality: no order of the same gains beats the descending one. */
  lemma {:induction false} DescendingIsBest(gains: seq<int>, best: seq<int>, w: Weights, from: nat)
    requires multiset(gains) == multiset(best) && Descending(best) && NonIncreasing(w)
    ensures Dcg(gains, w, from) <= Dcg(best, w, from)
    decreases |gains|
  {
    hide NonIncreasing;
    SameMembers(gains, best);
    if gains != [] {
      var front := LargestFirst(gains, best, w, from);
      assert front[..1] == best[..1];
      AfterPrefix(front, best, 1);
      assert Descending(best[1..]);
      DescendingIsBest(front[1..], best[1..], w, from + 1);
    }
  }

  /** Up to the depth nothing could be improved by moving a later gain forward. */
  predicate WellOrdered(gains: seq<int>, depth: nat) {
    forall i, j | 0 <= i < j < |gains| && i < depth :: gains[i] >= gains[j]
  }

  lemma {:induction false} WellOrderedHead(gains: seq<int>, best: seq<int>, depth: nat, k: nat)
    requires multiset(gains) == multiset(best) && Descending(best) && WellOrdered(gains, depth)
    requires k <= depth && k <= |gains|
    ensures k <= |best| && gains[..k] == best[..k]
  {
    SameMembers(gains, best);
    if k > 0 {
      var i := k - 1;
      WellOrderedHead(gains, best, depth, i);
      AfterPrefix(gains, best, i);
      SameMembers(gains[i..], best[i..]);
      SameMembers(best[i..], gains[i..]);
      assert gains[i..][0] in best[i..] && best[i..][0] in gains[i..];
      assert gains[..k] == gains[..i] + [gains[i]] && best[..k] == best[..i] + [best[i]];
    }
  }

  function Prefix(gains: seq<int>, depth: nat): seq<int> {
    if depth <= |gains| then gains[..depth] else gains
  }

  lemma PrefixDcg(gains: seq<int>, w: Weights, depth: nat)
    ensures Dcg(gains, Cut(w, depth), 0) == Dcg(Prefix(gains, depth), w, 0)
  {
    CutIsPrefix(gains, w, depth, 0);
    assert gains[..|gains|] == gains;
  }

  lemma CutNonIncreasing(w: Weights, depth: nat)
    requires Discounting(w)
    ensures NonIncreasing(Cut(w, depth))
  {
  }

  /** A later gain that is larger, inside the depth, is a loss. */
  lemma InversionLoses(gains: seq<int>, best: seq<int>, w: Weights, depth: nat, i: nat, j: nat)
    requires multiset(gains) == multiset(best) && Descending(best) && Discounting(w)
    requires i < j < |gains| && i < depth && gains[i] < gains[j]
    ensures Dcg(gains, Cut(w, depth), 0) < Dcg(Swapped(gains, i, j), Cut(w, depth), 0)
    ensures Dcg(gains, Cut(w, depth), 0) < Dcg(best, Cut(w, depth), 0)
  {
    hide Dcg, Swapped, Descending;
    var c := Cut(w, depth);
    assert c(i) > c(j);
    PromoteGains(gains, c, 0, i, j);
    SwappedPermutes(gains, i, j);
    CutNonIncreasing(w, depth);
    DescendingIsBest(Swapped(gains, i, j), best, c, 0);
  }

  /** The discounted gain at a depth never beats the ideal one, and reaches it exactly for the orders
      that leave nothing to move forward. */
  lemma IdealIsReached(gains: seq<int>, best: seq<int>, w: Weights, depth: nat)
    requires multiset(gains) == multiset(best) && Descending(best) && Discounting(w)
    ensures Dcg(Prefix(gains, depth), w, 0) <= Dcg(Prefix(best, depth), w, 0)
    ensures Dcg(Prefix(gains, depth), w, 0) == Dcg(Prefix(best, depth), w, 0) <==> WellOrdered(gains, depth)
  {
    hide Dcg, Descending, Discounting;
    PrefixDcg(gains, w, depth);
    PrefixDcg(best, w, depth);
    CutNonIncreasing(w, depth);
    DescendingIsBest(gains, best, Cut(w, depth), 0);
    SameMembers(gains, best);
    if WellOrdered(gains, depth) {
      WellOrderedHead(gains, best, depth, if depth <= |gains| then depth else |gains|);
      assert gains[..|gains|] == gains && best[..|best|] == best;
    } else {
      var i, j :| 0 <= i < j < |gains| && i < depth && gains[i] < gains[j];
      InversionLoses(gains, best, w, depth, i, j);
    }
  }

  // ---------------------------------------------------------------------------
  // nDCG over files
  // ---------------------------------------------------------------------------

  function Gains(files: seq<string>, relevant: set<string>): seq<int> {
    if files == [] then [] else [if files[0] in relevant then 1 else 0] + Gains(files[1..], relevant)
  }

  function Ideal(gains: seq<int>): seq<int> {
    Sort(gains, (x: int, y: int) => x >= y)
  }

  function Depth(files: seq<string>, k: int): nat {
    if k > 0 then k else |files|
  }

  /** The score of `_file_level_ndcg` on files in rank order, before rounding. */
  function NdcgOfFiles(files: seq<string>, relevant: set<string>, k: int, w: Weights): real {
    var gains := Gains(files, relevant);
    var idcg := Dcg(Prefix(Ideal(gains), Depth(files, k)), w, 0);
    if relevant == {} then 1.0
    else if idcg == 0.0 then 0.0
    else Dcg(Prefix(gains, Depth(files, k)), w, 0) / idcg
  }

  function Ndcg(ranked: seq<string>, relevant: set<string>, k: int, w: Weights): real {
    NdcgOfFiles(Dedupe(ranked), relevant, k, w)
  }

  lemma {:induction false} GainsAt(files: seq<string>, relevant: set<string>)
    ensures |Gains(files, relevant)| == |files|
    ensures forall i | 0 <= i < |files| :: Gains(files, relevant)[i] == if files[i] in relevant then 1 else 0
  {
    if files != [] {
      GainsAt(files[1..], relevant);
    }
  }

  lemma IdealIsBest(gains: seq<int>)
    ensures multiset(Ideal(gains)) == multiset(gains) && |Ideal(gains)| == |gains| && Descending(Ideal(gains))
    ensures forall g | g in Ideal(gains) :: g in gains
  {
    SortPermutes(gains, (x: int, y: int) => x >= y);
    SortSorts(gains, (x: int, y: int) => x >= y);
    SameMembers(Ideal(gains), gains);
  }

  lemma IdealIsUnique(gains: seq<int>, others: seq<int>)
    requires multiset(gains) == multiset(others)
    ensures Ideal(gains) == Ideal(others)
  {
    IdealIsBest(gains);
    IdealIsBest(others);
    SortedIsUnique(Ideal(gains), Ideal(others), (x: int, y: int) => x >= y);
  }

  /** The files that are relevant, counted off the list. */
  function Hits(files: seq<string>, relevant: set<string>): nat {
    if files == [] then 0 else (if files[0] in relevant then 1 else 0) + Hits(files[1..], relevant)
  }

  lemma {:induction false} HitsCount(files: seq<string>, relevant: set<string>)
    requires Distinct(files)
    ensures Hits(files, relevant) == |Elements(files) * relevant| <= |files|
  {
    if files == [] {
      assert Elements(files) * relevant == {};
    } else {
      var tail := files[1..];
      HitsCount(tail, relevant);
      assert files == [files[0]] + tail;
      assert files[0] !in tail;
      assert Elements(files) == Elements(tail) + {files[0]};
      HitsStep(Elements(tail), files[0], relevant);
    }
  }

  lemma HitsStep(tail: set<string>, file: string, relevant: set<string>)
    requires file !in tail
    ensures |(tail + {file}) * relevant| == |tail * relevant| + (if file in relevant then 1 else 0)
  {
    assert (tail + {file}) * relevant == tail * relevant + (if file in relevant then {file} else {});
  }

  lemma {:induction false} HitsSplit(files: seq<string>, relevant: set<string>, n: nat)
    requires n <= |files|
    ensures Hits(files, relevant) == Hits(files[..n], relevant) + Hits(files[n..], relevant)
  {
    if n > 0 {
      HitsSplit(files[1..], relevant, n - 1);
      assert files[..n][1..] == files[1..][..n - 1];
    }
  }

  lemma {:induction false} HitsExtremes(files: seq<string>, relevant: set<string>)
    ensures Hits(files, relevant) <= |files|
    ensures Hits(files, relevant) == |files| <==> forall i | 0 <= i < |files| :: files[i] in relevant
    ensures Hits(files, relevant) == 0 <==> forall i | 0 <= i < |files| :: files[i] !in relevant
  {
    if files != [] {
      HitsExtremes(files[1..], relevant);
      assert files == [files[0]] + files[1..];
      assert forall i | 1 <= i < |files| :: files[i] == files[1..][i - 1];
      assert forall i | 0 <= i < |files| - 1 :: files[1..][i] == files[i + 1];
    }
  }

  /** The relevant files fill the leading positions, as far as the depth goes and there are any. */
  predicate Leading(files: seq<string>, relevant: set<string>, depth: nat) {
    forall i | 0 <= i < |files| && i < depth && i < Hits(files, relevant) :: files[i] in relevant
  }

  lemma LeadingIsWellOrdered(files: seq<string>, relevant: set<string>, depth: nat)
    ensures WellOrdered(Gains(files, relevant), depth) <==> Leading(files, relevant, depth)
  {
    hide Hits, Gains, Leading, WellOrdered;
    if Leading(files, relevant, depth) {
      LeadersAreWellOrdered(files, relevant, depth);
    }
    if WellOrdered(Gains(files, relevant), depth) {
      WellOrderedLead(files, relevant, depth);
    }
  }

  lemma LeadersAreWellOrdered(files: seq<string>, relevant: set<string>, depth: nat)
    requires Leading(files, relevant, depth)
    ensures WellOrdered(Gains(files, relevant), depth)
  {
    hide Hits, Gains;
    GainsAt(files, relevant);
    var r := Hits(files, relevant);
    HitsExtremes(files, relevant);
    if r <= depth {
      HitsSplit(files, relevant, r);
      HitsExtremes(files[..r], relevant);
      HitsExtremes(files[r..], relevant);
      assert forall j | r <= j < |files| :: files[j] == files[r..][j - r];
    }
  }

  lemma WellOrderedLead(files: seq<string>, relevant: set<string>, depth: nat)
    requires WellOrdered(Gains(files, relevant), depth)
    ensures Leading(files, relevant, depth)
  {
    hide Hits, Gains;
    GainsAt(files, relevant);
    var gains, r := Gains(files, relevant), Hits(files, relevant);
    HitsExtremes(files, relevant);
    if i :| 0 <= i < |files| && i < depth && i < r && files[i] !in relevant {
      HitsSplit(files, relevant, i);
      HitsExtremes(files[..i], relevant);
      forall j | 0 <= j < |files| - i ensures files[i..][j] !in relevant {
        assert gains[i] >= gains[i + j];
      }
      HitsExtremes(files[i..], relevant);
    }
  }

  lemma PrefixNonNegative(gains: seq<int>, w: Weights, depth: nat)
    requires Discounting(w) && forall i | 0 <= i < |gains| :: gains[i] >= 0
    ensures Dcg(Prefix(gains, depth), w, 0) >= 0.0
    ensures Dcg(Prefix(gains, depth), w, 0) == 0.0 <==> forall i | 0 <= i < |gains| && i < depth :: gains[i] == 0
  {
    var head := Prefix(gains, depth);
    DcgNonNegative(head, w, 0);
    assert forall i | 0 <= i < |head| :: head[i] == gains[i];
    if i :| 0 <= i < |gains| && i < depth && gains[i] != 0 {
      assert head[i] > 0 && w(0 + i) > 0.0;
    }
  }

  predicate NoneRelevant(files: seq<string>, relevant: set<string>, depth: nat) {
    forall i | 0 <= i < |files| && i < depth :: files[i] !in relevant
  }

  lemma IdealScore(files: seq<string>, relevant: set<string>, w: Weights, depth: nat)
    requires Discounting(w) && (files != [] ==> depth > 0)
    ensures Dcg(Prefix(Ideal(Gains(files, relevant)), depth), w, 0) >= 0.0
    ensures Dcg(Prefix(Ideal(Gains(files, relevant)), depth), w, 0) == 0.0
       <==> NoneRelevant(files, relevant, |files|)
  {
    hide Dcg, Ideal, Prefix, Gains;
    var gains := Gains(files, relevant);
    GainsAt(files, relevant);
    IdealIsBest(gains);
    SameMembers(gains, Ideal(gains));
    assert forall t | 0 <= t < |gains| :: Ideal(gains)[t] in gains;
    PrefixNonNegative(Ideal(gains), w, depth);
    if i :| 0 <= i < |files| && files[i] in relevant {
      assert gains[i] in Ideal(gains);
      var t :| 0 <= t < |gains| && Ideal(gains)[t] == 1;
      assert Ideal(gains)[0] >= Ideal(gains)[t];
    }
  }

  lemma Fraction(a: real, b: real)
    requires 0.0 <= a <= b && b > 0.0
    ensures 0.0 <= a / b <= 1.0
    ensures a / b == 1.0 <==> a == b
    ensures a / b == 0.0 <==> a == 0.0
  {
  }

  /** The score is a fraction; it is one exactly when the relevant files lead the ranking as far as the
      depth goes, and zero exactly when the depth shows none of them. */
  lemma NdcgIsSound(ranked: seq<string>, relevant: set<string>, k: int, w: Weights)
    requires Discounting(w)
    ensures var score := Ndcg(ranked, relevant, k, w); var files := Dedupe(ranked);
      && 0.0 <= score <= 1.0
      && (score == 1.0 <==> (relevant == {} || (!NoneRelevant(files, relevant, |files|) &&
                                                Leading(files, relevant, Depth(files, k)))))
      && (score == 0.0 <==> (relevant != {} && NoneRelevant(files, relevant, Depth(files, k))))
  {
    hide Dcg, Ideal, Prefix, Gains, Leading, WellOrdered, Dedupe;
    var files := Dedupe(ranked);
    var depth, gains := Depth(files, k), Gains(files, relevant);
    GainsAt(files, relevant);
    IdealScore(files, relevant, w, depth);
    IdealIsBest(gains);
    IdealIsReached(gains, Ideal(gains), w, depth);
    PrefixNonNegative(gains, w, depth);
    LeadingIsWellOrdered(files, relevant, depth);
    var dcg, idcg := Dcg(Prefix(gains, depth), w, 0), Dcg(Prefix(Ideal(gains), depth), w, 0);
    if idcg > 0.0 { Fraction(dcg, idcg); }
    assert forall i | 0 <= i < |files| && i < depth :: gains[i] == 0 <==> files[i] !in relevant;
  }

  function Exchanged(files: seq<string>, i: nat, j: nat): seq<string>
    requires i < |files| && j < |files|
  {
    files[i := files[j]][j := files[i]]
  }

  lemma ExchangedGains(files: seq<string>, relevant: set<string>, i: nat, j: nat)
    requires i < |files| && j < |files|
    ensures |Gains(files, relevant)| == |files|
    ensures Gains(Exchanged(files, i, j), relevant) == Swapped(Gains(files, relevant), i, j)
  {
    GainsAt(files, relevant);
    GainsAt(Exchanged(files, i, j), relevant);
  }

  /** Order matters: moving a relevant file up past an irrelevant one inside the depth raises the score. */
  lemma PromotionRaisesNdcg(files: seq<string>, relevant: set<string>, k: int, w: Weights, i: nat, j: nat)
    requires Discounting(w) && i < j < |files| && i < Depth(files, k)
    requires files[i] !in relevant && files[j] in relevant
    ensures NdcgOfFiles(files, relevant, k, w) < NdcgOfFiles(Exchanged(files, i, j), relevant, k, w)
  {
    hide Dcg, Ideal, Prefix, Gains, Swapped;
    var depth, gains := Depth(files, k), Gains(files, relevant);
    ExchangedGains(files, relevant, i, j);
    GainsAt(files, relevant);
    var swapped := Swapped(gains, i, j);
    SwappedPermutes(gains, i, j);
    IdealIsUnique(gains, swapped);
    IdealIsBest(gains);
    InversionLoses(gains, Ideal(gains), w, depth, i, j);
    PrefixDcg(gains, w, depth);
    PrefixDcg(swapped, w, depth);
    IdealScore(files, relevant, w, depth);
    assert files[j] in files;
    Quotients(Dcg(Prefix(gains, depth), w, 0), Dcg(Prefix(swapped, depth), w, 0),
              Dcg(Prefix(Ideal(gains), depth), w, 0));
  }

  lemma Quotients(a: real, b: real, c: real)
    requires a < b && c > 0.0
    ensures a / c < b / c
  {
  }

  // ---------------------------------------------------------------------------
  // Membership metrics
  // ---------------------------------------------------------------------------

  function PrecisionInPack(pack: seq<string>, relevant: set<string>): real {
    var files := Dedupe(pack);
    if files != [] then Hits(files, relevant) as real / |files| as real
    else if relevant == {} then 1.0 else 0.0
  }

  function Recall(pack: seq<string>, relevant: set<string>): real {
    var packed := Elements(Dedupe(pack));
    if relevant != {} then |relevant * packed| as real / |relevant| as real else 1.0
  }

  function RPrecision(ranked: seq<string>, relevant: set<string>): real {
    var files := Dedupe(ranked);
    var considered := if |relevant| <= |files| then files[..|relevant|] else files;
    if relevant != {} then Hits(considered, relevant) as real / |relevant| as real else 1.0
  }

  /** Precision and recall see which files a pack holds and nothing else: no reorder, and no further
      chunk of a file already there, changes them. */
  lemma MembershipIgnoresOrder(pack: seq<string>, other: seq<string>, relevant: set<string>)
    requires forall x :: x in pack <==> x in other
    ensures PrecisionInPack(pack, relevant) == PrecisionInPack(other, relevant)
    ensures Recall(pack, relevant) == Recall(other, relevant)
  {
    var files, others := Dedupe(pack), Dedupe(other);
    SameElements(files, others);
    assert |multiset(files)| == |multiset(others)|;
    assert Elements(files) == Elements(others);
    HitsCount(files, relevant);
    HitsCount(others, relevant);
  }

  lemma ReorderKeepsMembership(pack: seq<string>, other: seq<string>, relevant: set<string>)
    requires multiset(pack) == multiset(other)
    ensures PrecisionInPack(pack, relevant) == PrecisionInPack(other, relevant)
    ensures Recall(pack, relevant) == Recall(other, relevant)
  {
    SameMembers(pack, other);
    SameMembers(other, pack);
    MembershipIgnoresOrder(pack, other, relevant);
  }

  /** All three are fractions. Recall is one exactly when the packed files include every relevant one,
      precision exactly when they include no other, and R-precision exactly when the relevant files,
      all of them, lead the ranking. */
  lemma MembershipIsSound(ranked: seq<string>, pack: seq<string>, relevant: set<string>)
    ensures 0.0 <= PrecisionInPack(pack, relevant) <= 1.0
    ensures 0.0 <= Recall(pack, relevant) <= 1.0
    ensures 0.0 <= RPrecision(ranked, relevant) <= 1.0
    ensures relevant != {} ==> (Recall(pack, relevant) == 1.0 <==> relevant <= Elements(Dedupe(pack)))
    ensures Dedupe(pack) != [] ==>
      (PrecisionInPack(pack, relevant) == 1.0 <==> Elements(Dedupe(pack)) <= relevant)
    ensures relevant != {} ==>
      (RPrecision(ranked, relevant) == 1.0 <==>
        |relevant| <= |Dedupe(ranked)| && Elements(Dedupe(ranked)[..|relevant|]) == relevant)
  {
    PackIsSound(pack, relevant);
    RPrecisionIsSound(ranked, relevant);
  }

  lemma HitsOfFiles(files: seq<string>, relevant: set<string>)
    requires Distinct(files)
    ensures Hits(files, relevant) == |Elements(files) * relevant| == |relevant * Elements(files)|
  {
    HitsCount(files, relevant);
    assert relevant * Elements(files) == Elements(files) * relevant;
  }

  /** Precision and recall are one count, of the relevant files packed, over all that are packed and over all
      that are relevant. */
  lemma FractionsCount(pack: seq<string>, relevant: set<string>)
    ensures var files := Dedupe(pack); var found := |Elements(files) * relevant|;
      && (files != [] ==> PrecisionInPack(pack, relevant) == found as real / |files| as real)
      && (relevant != {} ==> Recall(pack, relevant) == found as real / |relevant| as real)
  {
    hide Hits, Dedupe, Elements;
    HitsOfFiles(Dedupe(pack), relevant);
  }

  /** The first files, as many as are relevant. */
  function First(files: seq<string>, relevant: set<string>): seq<string> {
    if |relevant| <= |files| then files[..|relevant|] else files
  }

  /** R-precision counts the relevant ones among them. */
  lemma RPrecisionCounts(ranked: seq<string>, relevant: set<string>)
    requires relevant != {}
    ensures var found := |Elements(First(Dedupe(ranked), relevant)) * relevant|;
      RPrecision(ranked, relevant) == found as real / |relevant| as real
  {
    hide Hits, Dedupe, Elements;
    HitsOfFiles(First(Dedupe(ranked), relevant), relevant);
  }

  lemma PackIsSound(pack: seq<string>, relevant: set<string>)
    ensures 0.0 <= PrecisionInPack(pack, relevant) <= 1.0
    ensures 0.0 <= Recall(pack, relevant) <= 1.0
    ensures relevant != {} ==> (Recall(pack, relevant) == 1.0 <==> relevant <= Elements(Dedupe(pack)))
    ensures Dedupe(pack) != [] ==>
      (PrecisionInPack(pack, relevant) == 1.0 <==> Elements(Dedupe(pack)) <= relevant)
  {
    hide Dedupe, Hits;
    var files := Dedupe(pack);
    var packed := Elements(files);
    HitsCount(files, relevant);
    ElementsCard(files);
    SubsetCard(relevant * packed, relevant);
    SubsetCard(packed * relevant, packed);
    assert relevant * packed == packed * relevant;
    assert relevant <= packed ==> relevant * packed == relevant;
    assert packed <= relevant ==> packed * relevant == packed;
    if relevant != {} { Fraction(|relevant * packed| as real, |relevant| as real); }
    if files != [] { Fraction(Hits(files, relevant) as real, |files| as real); }
  }

  lemma RPrecisionIsSound(ranked: seq<string>, relevant: set<string>)
    ensures 0.0 <= RPrecision(ranked, relevant) <= 1.0
    ensures relevant != {} ==>
      (RPrecision(ranked, relevant) == 1.0 <==>
        |relevant| <= |Dedupe(ranked)| && Elements(Dedupe(ranked)[..|relevant|]) == relevant)
  {
    hide Dedupe, Hits;
    var files := Dedupe(ranked);
    var considered := if |relevant| <= |files| then files[..|relevant|] else files;
    HitsCount(considered, relevant);
    ElementsCard(considered);
    SubsetCard(Elements(considered) * relevant, relevant);
    SubsetCard(Elements(considered) * relevant, Elements(considered));
    assert Elements(considered) == relevant ==> Elements(considered) * relevant == relevant;
    if relevant != {} { Fraction(Hits(considered, relevant) as real, |relevant| as real); }
  }
}
