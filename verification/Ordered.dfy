/** Finite sets of numbers listed in ascending order, as `ORDER BY` lists them. */
module Ordered {

  predicate IsLeast(s: set<nat>, m: nat) {
    m in s && forall x :: x in s ==> m <= x
  }

  lemma {:induction false} MinExists(s: set<nat>)
    requires s != {}
    ensures exists m :: IsLeast(s, m)
    decreases |s|
  {
    var a :| a in s;
    var rest := s - {a};
    assert s == rest + {a};
    if rest == {} {
      assert IsLeast(s, a);
    } else {
      MinExists(rest);
      var m :| IsLeast(rest, m);
      assert IsLeast(s, if a <= m then a else m);
    }
  }

  function Min(s: set<nat>): (m: nat)
    requires s != {}
    ensures m in s && forall x :: x in s ==> m <= x
  {
    MinExists(s);
    var m :| IsLeast(s, m);
    m
  }

  ghost predicate Ascending(q: seq<nat>) {
    forall i, j :: 0 <= i < j < |q| ==> q[i] < q[j]
  }

  function Sorted(s: set<nat>): (q: seq<nat>)
    ensures |q| == |s|
    ensures forall x :: x in q <==> x in s
    ensures Ascending(q)
    decreases |s|
  {
    if s == {} then []
    else
      var m := Min(s);
      var rest := Sorted(s - {m});
      assert forall x :: x in rest ==> m < x;
      [m] + rest
  }

  /** An ascending listing is determined by its elements. */
  lemma {:induction false} AscendingUnique(p: seq<nat>, q: seq<nat>)
    requires Ascending(p) && Ascending(q)
    requires forall x :: x in p <==> x in q
    ensures p == q
    decreases |p|
  {
    assert q == [] || q[0] in q;
    if p != [] {
      assert p[0] in q && (q != [] ==> q[0] in p);
      assert p[0] == q[0];
      assert forall x :: x in p[1..] <==> x in p && x != p[0] by {
        forall x | x in p && x != p[0]
          ensures x in p[1..]
        {
          var i :| 0 <= i < |p| && p[i] == x;
          assert p[1..][i - 1] == x;
        }
      }
      assert forall x :: x in q[1..] <==> x in q && x != q[0] by {
        forall x | x in q && x != q[0]
          ensures x in q[1..]
        {
          var i :| 0 <= i < |q| && q[i] == x;
          assert q[1..][i - 1] == x;
        }
      }
      AscendingUnique(p[1..], q[1..]);
    }
  }

  /** Elements beyond all the others are listed after them. */
  lemma SortedUnion(a: set<nat>, b: set<nat>)
    requires forall x, y :: x in a && y in b ==> x < y
    ensures Sorted(a + b) == Sorted(a) + Sorted(b)
  {
    var p, r := Sorted(a), Sorted(b);
    AscendingJoin(p, r);
    JoinElements(p, r, Sorted(a + b), a, b);
    AscendingUnique(Sorted(a + b), p + r);
  }

  lemma AscendingJoin(p: seq<nat>, r: seq<nat>)
    requires Ascending(p) && Ascending(r)
    requires forall x, y :: x in p && y in r ==> x < y
    ensures Ascending(p + r)
  {
    forall i, j | 0 <= i < j < |p + r|
      ensures (p + r)[i] < (p + r)[j]
    {
      if i < |p| <= j {
        assert p[i] in p && r[j - |p|] in r;
      }
    }
  }

  lemma JoinElements(p: seq<nat>, r: seq<nat>, q: seq<nat>, a: set<nat>, b: set<nat>)
    requires forall x :: x in p <==> x in a
    requires forall x :: x in r <==> x in b
    requires forall x :: x in q <==> x in a + b
    ensures forall x :: x in q <==> x in p + r
  {
  }

  function Below(s: set<nat>, x: nat): set<nat> {
    set y | y in s && y < x
  }

  /** The number of elements before `x`. */
  function Rank(s: set<nat>, x: nat): nat {
    |Below(s, x)|
  }

  lemma SortedRank(s: set<nat>, k: nat)
    requires k < |Sorted(s)|
    ensures Sorted(s)[k] in s && Rank(s, Sorted(s)[k]) == k
  {
    var q := Sorted(s);
    AscendingMembers(q, k);
    assert q[k] in q;
    ListedBelow(q[..k], Below(s, q[k]));
  }

  lemma ListedBelow(q: seq<nat>, s: set<nat>)
    requires Ascending(q) && forall y :: y in q <==> y in s
    ensures |s| == |q|
  {
    AscendingUnique(q, Sorted(s));
  }

  /** What an ascending listing shows before position `k` is what is less than its `k`-th element. */
  lemma AscendingMembers(q: seq<nat>, k: nat)
    requires Ascending(q) && k < |q|
    ensures Ascending(q[..k]) && forall y :: y in q[..k] <==> y in q && y < q[k]
  {
  }

  /** A run of consecutive numbers lists as itself. */
  lemma SortedInterval(s: set<nat>, lo: nat, hi: nat)
    requires lo <= hi && forall x :: x in s <==> lo < x <= hi
    ensures |Sorted(s)| == hi - lo && forall i :: 0 <= i < hi - lo ==> Sorted(s)[i] == lo + 1 + i
  {
    var q := seq(hi - lo, i requires 0 <= i < hi - lo => lo + 1 + i);
    forall x | x in s
      ensures x in q
    {
      assert q[x - lo - 1] == x;
    }
    AscendingUnique(Sorted(s), q);
  }
}
