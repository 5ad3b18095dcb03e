/** Shared vocabulary: optional values, results, and counting over finite collections. */
module Collections {

  datatype Option<+T> = None | Some(value: T)

  datatype Result<+T, +E> = Ok(value: T) | Err(error: E)

  function Min(a: int, b: int): int {
    if a <= b then a else b
  }

  function Max(a: int, b: int): int {
    if a >= b then a else b
  }

  /** Some element of a non-empty set; which one is not specified. */
  ghost function Pick<T>(s: set<T>): (x: T)
    requires s != {}
    ensures x in s
  {
    var x :| x in s; x
  }

  /** Some key a value is stored under. */
  ghost function KeyOf<K, V>(m: map<K, V>, v: V): (k: K)
    requires v in m.Values
    ensures k in m && m[k] == v
  {
    var k :| k in m && m[k] == v; k
  }

  /** The least element of a non-empty finite set of integers. */
  function MinOf(s: set<int>): (m: int)
    requires s != {}
    ensures m in s && forall x | x in s :: m <= x
  {
    MinExists(s);
    var m :| m in s && forall x | x in s :: m <= x;
    m
  }

  lemma MinExists(s: set<int>)
    requires s != {}
    ensures exists m :: m in s && forall x | x in s :: m <= x
  {
    var y := Pick(s);
    var rest := s - {y};
    if s == {y} {
      assert forall x | x in s :: y <= x;
    } else {
      MinExists(rest);
      var m :| m in rest && forall x | x in rest :: m <= x;
      var least := Min(m, y);
      assert forall x | x in s :: x == y || x in rest;
      assert least in s && forall x | x in s :: least <= x;
    }
  }

  /** The elements of a set of integers in increasing order (`sorted(s)`). */
  function Ascending(s: set<int>): (r: seq<int>)
    ensures forall x :: x in r <==> x in s
    ensures |r| == |s|
    ensures forall i, j | 0 <= i < j < |r| :: r[i] < r[j]
  {
    if s == {} then [] else
      var m := MinOf(s);
      WithoutCard(s, m);
      [m] + Ascending(s - {m})
  }

  /** The set of elements of a sequence (`frozenset(xs)`). */
  function Elements<T(==, !new)>(xs: seq<T>): (s: set<T>)
    ensures forall x :: x in s <==> x in xs
  {
    set x | x in xs
  }

  // ---------------------------------------------------------------------------
  // Sums over finite maps
  // ---------------------------------------------------------------------------

  ghost function Sum<K>(m: map<K, int>): int
  {
    if m.Keys == {} then 0 else
      var k := Pick(m.Keys);
      m[k] + Sum(m - {k})
  }

  lemma {:induction false} SumSplit<K>(m: map<K, int>, k: K)
    requires k in m
    ensures Sum(m) == m[k] + Sum(m - {k})
    decreases |m|
  {
    var p := Pick(m.Keys);
    if p != k {
      var a, b := m - {p}, m - {k};
      assert k in a && p in b && a[k] == m[k] && b[p] == m[p];
      SumSplit(a, k);
      SumSplit(b, p);
      assert a - {k} == b - {p};
      assert Sum(m) == m[p] + Sum(a);
    }
  }

  lemma SumUpdate<K>(m: map<K, int>, k: K, v: int)
    ensures Sum(m[k := v]) == Sum(m) - (if k in m then m[k] else 0) + v
  {
    SumSplit(m[k := v], k);
    if k in m {
      SumSplit(m, k);
      assert m[k := v] - {k} == m - {k};
    } else {
      assert m[k := v] - {k} == m;
    }
  }

  lemma {:induction false} SumNonNegative<K>(m: map<K, int>)
    requires forall k | k in m :: m[k] >= 0
    ensures Sum(m) >= 0
    ensures forall k | k in m :: m[k] <= Sum(m)
    decreases |m|
  {
    if m.Keys != {} {
      var k := Pick(m.Keys);
      SumNonNegative(m - {k});
      forall j | j in m ensures m[j] <= Sum(m) {
        if j != k { assert j in m - {k}; }
      }
    }
  }

  // ---------------------------------------------------------------------------
  // Cardinality
  // ---------------------------------------------------------------------------

  /** An injective map has as many values as keys. */
  lemma {:induction false} InjectiveCard<K, V>(m: map<K, V>)
    requires forall i, j | i in m && j in m && i != j :: m[i] != m[j]
    ensures |m.Values| == |m.Keys|
    decreases |m|
  {
    if m.Keys == {} {
      assert m.Values == {};
    } else {
      var k := Pick(m.Keys);
      var rest := m - {k};
      InjectiveCard(rest);
      forall v | v in m.Values ensures v in rest.Values + {m[k]} {
        var j :| j in m && m[j] == v;
        if j != k { assert j in rest && rest[j] == v; }
      }
      forall v | v in rest.Values + {m[k]} ensures v in m.Values {
        if v in rest.Values {
          var j :| j in rest && rest[j] == v;
          assert j in m && m[j] == v;
        }
      }
      assert m.Values == rest.Values + {m[k]};
      assert m[k] !in rest.Values;
      assert m.Keys == rest.Keys + {k};
    }
  }

  lemma WithoutCard<T>(a: set<T>, x: T)
    ensures |a| == |a - {x}| + (if x in a then 1 else 0)
  {
    if x !in a { assert a - {x} == a; }
  }

  /** Sets that differ in one element at most. */
  lemma SwapCard<T>(a: set<T>, b: set<T>, x: T)
    requires a - {x} == b - {x}
    ensures |b| == |a| - (if x in a then 1 else 0) + (if x in b then 1 else 0)
  {
    WithoutCard(a, x);
    WithoutCard(b, x);
  }

  lemma SubsetCard<T>(a: set<T>, b: set<T>)
    requires a <= b
    ensures |a| <= |b|
    ensures |a| == |b| ==> a == b
  {
    assert b == a + (b - a);
    assert |b| == |a| + |b - a|;
  }

  function Range(lo: int, hi: int): (s: set<int>)
    ensures forall x :: x in s <==> lo <= x < hi
    decreases hi - lo
  {
    if lo < hi then Range(lo, hi - 1) + {hi - 1} else {}
  }

  lemma {:induction false} RangeCard(lo: int, hi: int)
    requires lo <= hi
    ensures |Range(lo, hi)| == hi - lo
    decreases hi - lo
  {
    if lo < hi {
      RangeCard(lo, hi - 1);
    }
  }
}
