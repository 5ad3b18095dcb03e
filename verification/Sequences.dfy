/** Lists without repetition, sublists, and sorting. */
module Sequences {
  import opened Collections

  predicate Distinct<T(==)>(xs: seq<T>) {
    forall i, j | 0 <= i < j < |xs| :: xs[i] != xs[j]
  }

  lemma {:induction false} ElementsCard<T(!new)>(xs: seq<T>)
    ensures |Elements(xs)| <= |xs|
    ensures Distinct(xs) ==> |Elements(xs)| == |xs|
  {
    if xs == [] {
      assert Elements(xs) == {};
    } else {
      var front, last := xs[..|xs| - 1], xs[|xs| - 1];
      ElementsCard(front);
      assert xs == front + [last];
      assert Elements(xs) == Elements(front) + {last};
    }
  }

  /** A list repeats nothing exactly when its multiset does not. */
  lemma {:induction false} DistinctCounts<T(!new)>(xs: seq<T>)
    ensures Distinct(xs) <==> forall x :: multiset(xs)[x] <= 1
  {
    if xs != [] {
      var front, last := xs[..|xs| - 1], xs[|xs| - 1];
      DistinctCounts(front);
      assert xs == front + [last];
      assert multiset(xs) == multiset(front) + multiset{last};
      if Distinct(xs) {
        assert Distinct(front) && last !in front;
        assert last !in multiset(front);
      } else if Distinct(front) {
        var i, j :| 0 <= i < j < |xs| && xs[i] == xs[j];
        assert j == |xs| - 1 && front[i] == last;
        assert multiset(xs)[last] >= 2;
      } else {
        var x :| multiset(front)[x] > 1;
        assert multiset(xs)[x] > 1;
      }
    }
  }

  lemma SameElements<T(!new)>(xs: seq<T>, ys: seq<T>)
    requires Distinct(xs) && Distinct(ys)
    requires forall x :: x in xs <==> x in ys
    ensures multiset(xs) == multiset(ys)
  {
    DistinctCounts(xs);
    DistinctCounts(ys);
    forall x ensures multiset(xs)[x] == multiset(ys)[x] {
      assert x in multiset(xs) <==> x in xs;
      assert x in multiset(ys) <==> x in ys;
    }
  }

  function Filter<T(!new)>(xs: seq<T>, keep: T -> bool): (r: seq<T>)
    ensures forall x :: x in r <==> x in xs && keep(x)
  {
    if xs == [] then [] else (if keep(xs[0]) then [xs[0]] else []) + Filter(xs[1..], keep)
  }

  /** `xs` is `ys` with some positions left out. */
  predicate Sublist<T(==)>(xs: seq<T>, ys: seq<T>) {
    xs == [] || (ys != [] && ((xs[0] == ys[0] && Sublist(xs[1..], ys[1..])) || Sublist(xs, ys[1..])))
  }

  lemma {:induction false} SublistDistinct<T(!new)>(xs: seq<T>, ys: seq<T>)
    requires Sublist(xs, ys) && Distinct(ys)
    ensures Distinct(xs)
    ensures forall x | x in xs :: x in ys
  {
    if xs != [] {
      if xs[0] == ys[0] && Sublist(xs[1..], ys[1..]) {
        SublistDistinct(xs[1..], ys[1..]);
        assert xs == [xs[0]] + xs[1..] && ys == [ys[0]] + ys[1..];
        forall i, j | 0 <= i < j < |xs| ensures xs[i] != xs[j] {
          assert xs[j] == xs[1..][j - 1] && xs[j] in ys[1..];
          if i > 0 { assert xs[i] == xs[1..][i - 1]; }
        }
      } else {
        SublistDistinct(xs, ys[1..]);
      }
    }
  }

  lemma SameMembers<T>(xs: seq<T>, ys: seq<T>)
    requires multiset(xs) == multiset(ys)
    ensures |xs| == |ys| && forall x | x in xs :: x in ys
  {
    assert |multiset(xs)| == |multiset(ys)|;
    forall x | x in xs ensures x in ys {
      assert x in multiset(xs);
    }
  }

  lemma Cancel<T>(a: multiset<T>, b: multiset<T>, c: multiset<T>)
    requires a + c == b + c
    ensures a == b
  {
    assert a == (a + c) - c;
    assert b == (b + c) - c;
  }

  lemma TakeOut<T>(xs: seq<T>, i: nat)
    requires i < |xs|
    ensures multiset(xs) == multiset(xs[..i] + xs[i + 1..]) + multiset{xs[i]}
  {
    assert xs == xs[..i] + [xs[i]] + xs[i + 1..];
  }

  /** Taking equal members out of two arrangements leaves two arrangements. */
  lemma WithoutOne<T>(xs: seq<T>, i: nat, ys: seq<T>, j: nat)
    requires multiset(xs) == multiset(ys) && i < |xs| && j < |ys| && xs[i] == ys[j]
    ensures multiset(xs[..i] + xs[i + 1..]) == multiset(ys[..j] + ys[j + 1..])
  {
    TakeOut(xs, i);
    TakeOut(ys, j);
    Cancel(multiset(xs[..i] + xs[i + 1..]), multiset(ys[..j] + ys[j + 1..]), multiset{xs[i]});
  }

  /** What follows equal prefixes of two arrangements are two arrangements. */
  lemma AfterPrefix<T>(xs: seq<T>, ys: seq<T>, i: nat)
    requires multiset(xs) == multiset(ys) && i <= |xs| && i <= |ys| && xs[..i] == ys[..i]
    ensures multiset(xs[i..]) == multiset(ys[i..])
  {
    assert xs == xs[..i] + xs[i..] && ys == ys[..i] + ys[i..];
    assert multiset(xs[i..]) + multiset(xs[..i]) == multiset(xs);
    assert multiset(ys[i..]) + multiset(xs[..i]) == multiset(ys);
    Cancel(multiset(xs[i..]), multiset(ys[i..]), multiset(xs[..i]));
  }

  /** Two different members can be brought to the front, in either order. */
  lemma TwoToFront<T(!new)>(xs: seq<T>, x: T, y: T) returns (rest: seq<T>)
    requires x in xs && y in xs && x != y
    ensures multiset([x] + ([y] + rest)) == multiset(xs) && multiset([y] + ([x] + rest)) == multiset(xs)
  {
    var i :| 0 <= i < |xs| && xs[i] == x;
    var others := xs[..i] + xs[i + 1..];
    TakeOut(xs, i);
    assert y in multiset(others);
    var j :| 0 <= j < |others| && others[j] == y;
    rest := others[..j] + others[j + 1..];
    TakeOut(others, j);
  }

  lemma ConcatAssociates<T>(a: seq<T>, b: seq<T>, c: seq<T>)
    ensures a + (b + c) == (a + b) + c
  {
  }

  lemma JoinDistinct<T>(a: seq<T>, b: seq<T>)
    requires Distinct(a) && Distinct(b) && forall x | x in a :: x !in b
    ensures Distinct(a + b)
  {
    var r := a + b;
    forall i, j | 0 <= i < j < |r| ensures r[i] != r[j] {
      if i < |a| && j >= |a| { assert r[i] in a && r[j] in b; }
      if i >= |a| { assert r[i] == b[i - |a|] && r[j] == b[j - |a|]; }
    }
  }

  function Mapped<A, B>(xs: seq<A>, f: A -> B): (r: seq<B>)
    ensures |r| == |xs| && forall i | 0 <= i < |r| :: r[i] == f(xs[i])
  {
    seq(|xs|, i requires 0 <= i < |xs| => f(xs[i]))
  }

  lemma MappedTakeOut<A, B>(xs: seq<A>, i: nat, f: A -> B)
    requires i < |xs|
    ensures multiset(Mapped(xs, f)) == multiset(Mapped(xs[..i] + xs[i + 1..], f)) + multiset{f(xs[i])}
  {
    var all, rest := Mapped(xs, f), Mapped(xs[..i] + xs[i + 1..], f);
    TakeOut(all, i);
    assert all[..i] + all[i + 1..] == rest;
  }

  /** Arrangements of the same elements have images that are arrangements of the same images. */
  lemma {:induction false} MappedPermutes<A, B>(xs: seq<A>, ys: seq<A>, f: A -> B)
    requires multiset(xs) == multiset(ys)
    ensures multiset(Mapped(xs, f)) == multiset(Mapped(ys, f))
    decreases |xs|
  {
    hide Mapped;
    SameMembers(xs, ys);
    if xs == [] {
      assert ys == [];
    } else {
      assert xs[0] in ys;
      var t :| 0 <= t < |ys| && ys[t] == xs[0];
      WithoutOne(xs, 0, ys, t);
      MappedTakeOut(xs, 0, f);
      MappedTakeOut(ys, t, f);
      MappedPermutes(xs[..0] + xs[1..], ys[..t] + ys[t + 1..], f);
    }
  }
}
