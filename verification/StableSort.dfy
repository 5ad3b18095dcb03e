/** `sorted`: a stable sort by an ordering of the elements. */
module StableSort {
  import opened Collections
  import opened Sequences

  /** `x` may stand before `y`. */
  type Ordering<!T> = (T, T) -> bool

  ghost predicate Preorder<T(!new)>(le: Ordering<T>) {
    && (forall x, y :: le(x, y) || le(y, x))
    && (forall x, y, z :: le(x, y) && le(y, z) ==> le(x, z))
  }

  predicate Sorted<T>(xs: seq<T>, le: Ordering<T>) {
    forall i, j | 0 <= i < j < |xs| :: le(xs[i], xs[j])
  }

  function Insert<T>(x: T, xs: seq<T>, le: Ordering<T>): seq<T> {
    if xs == [] || le(x, xs[0]) then [x] + xs else [xs[0]] + Insert(x, xs[1..], le)
  }

  function Sort<T>(xs: seq<T>, le: Ordering<T>): seq<T> {
    if xs == [] then [] else Insert(xs[0], Sort(xs[1..], le), le)
  }

  lemma {:induction false} InsertPermutes<T>(x: T, xs: seq<T>, le: Ordering<T>)
    ensures multiset(Insert(x, xs, le)) == multiset(xs) + multiset{x}
    ensures |Insert(x, xs, le)| == |xs| + 1
  {
    if !(xs == [] || le(x, xs[0])) {
      InsertPermutes(x, xs[1..], le);
      assert xs == [xs[0]] + xs[1..];
    }
  }

  lemma {:induction false} SortPermutes<T>(xs: seq<T>, le: Ordering<T>)
    ensures multiset(Sort(xs, le)) == multiset(xs) && |Sort(xs, le)| == |xs|
  {
    if xs != [] {
      SortPermutes(xs[1..], le);
      InsertPermutes(xs[0], Sort(xs[1..], le), le);
      assert xs == [xs[0]] + xs[1..];
    }
  }

  lemma {:induction false} InsertSorts<T(!new)>(x: T, xs: seq<T>, le: Ordering<T>)
    requires Preorder(le) && Sorted(xs, le)
    ensures Sorted(Insert(x, xs, le), le)
  {
    if xs == [] || le(x, xs[0]) {
      var r := [x] + xs;
      forall i, j | 0 <= i < j < |r| ensures le(r[i], r[j]) {
        assert r[j] == xs[j - 1] && le(xs[0], xs[0]);
        assert le(xs[0], r[j]);
        if i > 0 { assert r[i] == xs[i - 1]; }
      }
    } else {
      var rest := Insert(x, xs[1..], le);
      InsertSorts(x, xs[1..], le);
      InsertPermutes(x, xs[1..], le);
      forall y | y in rest ensures le(xs[0], y) {
        assert y in multiset(rest);
        if y in xs[1..] {
          var t :| 0 <= t < |xs[1..]| && xs[1..][t] == y;
          assert xs[t + 1] == y;
        }
      }
      var r := [xs[0]] + rest;
      forall i, j | 0 <= i < j < |r| ensures le(r[i], r[j]) {
        assert r[j] == rest[j - 1];
        if i > 0 { assert r[i] == rest[i - 1]; }
      }
    }
  }

  lemma {:induction false} SortSorts<T(!new)>(xs: seq<T>, le: Ordering<T>)
    requires Preorder(le)
    ensures Sorted(Sort(xs, le), le)
  {
    if xs != [] {
      SortSorts(xs[1..], le);
      InsertSorts(xs[0], Sort(xs[1..], le), le);
    }
  }

  /** Without ties there is only one sorted arrangement. */
  lemma {:induction false} SortedIsUnique<T>(xs: seq<T>, ys: seq<T>, le: Ordering<T>)
    requires multiset(xs) == multiset(ys) && Sorted(xs, le) && Sorted(ys, le)
    requires forall x, y | x in xs && y in xs && le(x, y) && le(y, x) :: x == y
    ensures xs == ys
  {
    SameMembers(xs, ys);
    SameMembers(ys, xs);
    if xs != [] {
      assert xs[0] in ys && ys[0] in xs;
      assert xs[0] == ys[0] by {
        var i :| 0 <= i < |ys| && ys[i] == xs[0];
        var j :| 0 <= j < |xs| && xs[j] == ys[0];
      }
      assert xs[..1] == ys[..1];
      AfterPrefix(xs, ys, 1);
      SortedIsUnique(xs[1..], ys[1..], le);
      assert xs == [xs[0]] + xs[1..] && ys == [ys[0]] + ys[1..];
    }
  }

  /** A class of elements that tie with one another. */
  ghost predicate Tied<T(!new)>(p: T -> bool, le: Ordering<T>) {
    forall x, y | p(x) && p(y) :: le(x, y)
  }

  lemma FilterCons<T(!new)>(x: T, xs: seq<T>, p: T -> bool)
    ensures Filter([x] + xs, p) == (if p(x) then [x] else []) + Filter(xs, p)
  {
    assert ([x] + xs)[1..] == xs;
  }

  lemma {:induction false} InsertIsStable<T(!new)>(x: T, xs: seq<T>, le: Ordering<T>, p: T -> bool)
    requires Tied(p, le)
    ensures Filter(Insert(x, xs, le), p) == (if p(x) then [x] else []) + Filter(xs, p)
  {
    if xs == [] || le(x, xs[0]) {
      FilterCons(x, xs, p);
    } else {
      InsertIsStable(x, xs[1..], le, p);
      assert !(p(x) && p(xs[0]));
      FilterCons(xs[0], Insert(x, xs[1..], le), p);
      FilterCons(xs[0], xs[1..], p);
      assert xs == [xs[0]] + xs[1..];
    }
  }

  /** Elements that tie keep the order they came in. */
  lemma {:induction false} SortIsStable<T(!new)>(xs: seq<T>, le: Ordering<T>, p: T -> bool)
    requires Tied(p, le)
    ensures Filter(Sort(xs, le), p) == Filter(xs, p)
  {
    if xs != [] {
      SortIsStable(xs[1..], le, p);
      InsertIsStable(xs[0], Sort(xs[1..], le), le, p);
    }
  }

  predicate NoTies<T(==)>(xs: seq<T>, le: Ordering<T>) {
    forall x, y | x in xs && y in xs && le(x, y) && le(y, x) :: x == y
  }

  /** So with a tie the result depends on the order of the input. */
  lemma TiesShow<T(!new)>(x: T, y: T, rest: seq<T>, le: Ordering<T>)
    requires Preorder(le) && x != y && le(x, y) && le(y, x)
    ensures Sort([x] + ([y] + rest), le) != Sort([y] + ([x] + rest), le)
  {
    var p := t => le(t, x) && le(x, t);
    SortIsStable([x] + ([y] + rest), le, p);
    SortIsStable([y] + ([x] + rest), le, p);
    FilterCons(x, [y] + rest, p);
    FilterCons(y, [x] + rest, p);
    assert Filter([x] + ([y] + rest), p)[0] != Filter([y] + ([x] + rest), p)[0];
  }
}
