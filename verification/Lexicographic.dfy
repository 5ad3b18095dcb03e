/** The order in which strings and tuples of numbers compare. */
module Lexicographic {

  function Codes(s: string): seq<int> {
    seq(|s|, i requires 0 <= i < |s| => s[i] as int)
  }

  /** How Python compares tuples of numbers, and strings by their code points. */
  predicate LexLe(a: seq<int>, b: seq<int>) {
    a == [] || (b != [] && (a[0] < b[0] || (a[0] == b[0] && LexLe(a[1..], b[1..]))))
  }

  lemma {:induction false} LexTotal(a: seq<int>, b: seq<int>)
    ensures LexLe(a, b) || LexLe(b, a)
    ensures LexLe(a, b) && LexLe(b, a) ==> a == b
    decreases |a|
  {
    if a != [] && b != [] {
      LexTotal(a[1..], b[1..]);
      assert a == [a[0]] + a[1..] && b == [b[0]] + b[1..];
    }
  }

  lemma {:induction false} LexTransitive(a: seq<int>, b: seq<int>, c: seq<int>)
    requires LexLe(a, b) && LexLe(b, c)
    ensures LexLe(a, c)
    decreases |a|
  {
    if a != [] && a[0] == b[0] == c[0] {
      LexTransitive(a[1..], b[1..], c[1..]);
    }
  }

  /** At the first place where the two differ, `a` has the smaller number. */
  predicate SmallerAt(a: seq<int>, b: seq<int>, k: nat) {
    k < |a| && k < |b| && a[..k] == b[..k] && a[k] < b[k]
  }

  /** What the order is: a tuple stands before its extensions, and else the first difference decides. */
  lemma {:induction false} LexLeExactly(a: seq<int>, b: seq<int>)
    ensures LexLe(a, b) <==> a <= b || exists k: nat :: SmallerAt(a, b, k)
    decreases |a|
  {
    if a != [] && b != [] {
      var x, y := a[1..], b[1..];
      assert a == [a[0]] + x && b == [b[0]] + y;
      LexLeExactly(x, y);
      if a[0] < b[0] {
        assert SmallerAt(a, b, 0);
      } else if a[0] == b[0] {
        assert a <= b <==> x <= y;
        if k: nat :| SmallerAt(x, y, k) {
          assert a[..k + 1] == [a[0]] + x[..k] && b[..k + 1] == [b[0]] + y[..k];
          assert SmallerAt(a, b, k + 1);
        }
      }
      if k: nat :| SmallerAt(a, b, k) {
        assert k > 0 ==> a[..k][0] == b[..k][0];
        if k > 0 {
          assert x[..k - 1] == a[..k][1..] && y[..k - 1] == b[..k][1..];
          assert SmallerAt(x, y, k - 1);
        }
      }
    }
  }

  lemma CodesInjective(a: string, b: string)
    ensures Codes(a) == Codes(b) ==> a == b
  {
    if Codes(a) == Codes(b) {
      assert |a| == |Codes(a)| == |b|;
      forall i | 0 <= i < |a| ensures a[i] == b[i] {
        assert Codes(a)[i] == Codes(b)[i];
      }
    }
  }

  predicate StringLe(a: string, b: string) {
    LexLe(Codes(a), Codes(b))
  }

  /** A total order. */
  lemma StringOrder(a: string, b: string, c: string)
    ensures StringLe(a, b) || StringLe(b, a)
    ensures StringLe(a, b) && StringLe(b, a) ==> a == b
    ensures StringLe(a, b) && StringLe(b, c) ==> StringLe(a, c)
  {
    LexTotal(Codes(a), Codes(b));
    CodesInjective(a, b);
    if StringLe(a, b) && StringLe(b, c) { LexTransitive(Codes(a), Codes(b), Codes(c)); }
  }
}
