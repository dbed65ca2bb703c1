/** Notions that several models share. */
module Basics {

  datatype Option<T> = None | Some(value: T)

  ghost predicate Distinct<T(!new)>(q: seq<T>) { forall i, j :: 0 <= i < j < |q| ==> q[i] != q[j] }

  // ----- Sizes of finite sets -----

  ghost function Below(n: nat): (s: set<nat>)
    ensures |s| == n && forall x: nat {:trigger x in s} :: x in s <==> x < n
  {
    if n == 0 then {} else Below(n - 1) + {n - 1}
  }

  lemma SubsetSize<T>(a: set<T>, b: set<T>)
    requires a <= b
    ensures |a| <= |b|
  {
    assert b == a + (b - a);
  }

  lemma UnionSize<T>(a: set<T>, b: set<T>)
    requires a !! b
    ensures |a + b| == |a| + |b|
  {
  }

  /** `b` is `a` with all of `p`, or with not all of it. */
  lemma GrownSize<T>(a: set<T>, b: set<T>, p: set<T>)
    requires a <= b <= a + p
    ensures p <= b ==> b == a + p && |b| == |a| + |p - a|
    ensures !(p <= b) ==> |b| < |a| + |p - a|
  {
    UnionSize(a, p - a);
    if p <= b {
      assert b == a + (p - a);
    } else {
      var x :| x in p && x !in b;
      SubsetSize(b, a + (p - a) - {x});
    }
  }

  /** The elements of a sequence without repetitions. */
  ghost function Elements<T(!new)>(q: seq<T>): (s: set<T>)
    requires Distinct(q)
    ensures |s| == |q| && forall x {:trigger x in s} :: x in s <==> x in q
  {
    if q == [] then {}
    else
      var n := |q| - 1;
      assert q == q[..n] + [q[n]];
      Elements(q[..n]) + {q[n]}
  }

  /** Numbers below `n` without repetitions that leave one out are fewer than `n`. */
  lemma LeavesOneOut(q: seq<nat>, n: nat, x: nat)
    requires Distinct(q) && x < n && x !in q && forall i :: 0 <= i < |q| ==> q[i] < n
    ensures |q| < n
  {
    SubsetSize(Elements(q), Below(n) - {x});
  }

  /** An injective image has as many elements as its source. */
  lemma {:induction false} ImageSize<A, B>(s: set<A>, f: map<A, B>, t: set<B>)
    requires s <= f.Keys && forall a, b :: a in s && b in s && a != b ==> f[a] != f[b]
    requires forall a :: a in s ==> f[a] in t
    requires forall y :: y in t ==> exists a :: a in s && f[a] == y
    ensures |t| == |s|
  {
    if s == {} {
      assert t == {};
    } else {
      var a :| a in s;
      forall y | y in t - {f[a]} ensures exists b :: b in s - {a} && f[b] == y {
        var b :| b in s && f[b] == y;
        assert b in s - {a};
      }
      ImageSize(s - {a}, f, t - {f[a]});
    }
  }
}
