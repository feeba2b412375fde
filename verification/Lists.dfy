/** Facts about sequences of identifiers. */
module Lists {

  ghost predicate Distinct(q: seq<int>) {
    forall i, j :: 0 <= i < j < |q| ==> q[i] != q[j]
  }

  /** The elements of q that are not dropped, in their order. */
  function Keep(q: seq<int>, drop: set<int>): (r: seq<int>)
    ensures forall x :: x in r <==> x in q && x !in drop
  {
    if q == [] then []
    else if q[0] in drop then Keep(q[1..], drop)
    else [q[0]] + Keep(q[1..], drop)
  }

  lemma {:induction false} KeepDistinct(q: seq<int>, drop: set<int>)
    requires Distinct(q)
    ensures Distinct(Keep(q, drop))
  {
    if q == [] {
    } else {
      KeepDistinct(q[1..], drop);
      assert q[0] !in q[1..];
    }
  }

  lemma {:induction false} KeepAll(q: seq<int>, drop: set<int>)
    requires forall x :: x in q ==> x !in drop
    ensures Keep(q, drop) == q
  {
    if q == [] {
    } else {
      var first := q[0];
      assert first in q;
      KeepAll(q[1..], drop);
    }
  }

  lemma {:induction false} KeepKeep(q: seq<int>, a: set<int>, b: set<int>)
    ensures Keep(Keep(q, a), b) == Keep(q, a + b)
  {
    if q == [] {
    } else {
      KeepKeep(q[1..], a, b);
      if q[0] !in a {
        assert Keep(q, a)[1..] == Keep(q[1..], a);
      }
    }
  }

  /** Only the dropped elements that occur in q matter. */
  lemma {:induction false} KeepAgree(q: seq<int>, a: set<int>, b: set<int>)
    requires forall x :: x in q ==> (x in a <==> x in b)
    ensures Keep(q, a) == Keep(q, b)
  {
    if q == [] {
    } else {
      var first := q[0];
      assert first in q;
      KeepAgree(q[1..], a, b);
    }
  }

  lemma {:induction false} KeepConcat(p: seq<int>, q: seq<int>, drop: set<int>)
    ensures Keep(p + q, drop) == Keep(p, drop) + Keep(q, drop)
  {
    if p == [] {
      assert p + q == q;
    } else {
      assert (p + q)[1..] == p[1..] + q;
      KeepConcat(p[1..], q, drop);
    }
  }

  /** q without the first occurrence of x. */
  function Without(q: seq<int>, x: int): (r: seq<int>)
    ensures x !in q ==> r == q
    ensures x in q ==> |r| == |q| - 1
  {
    if q == [] then []
    else if q[0] == x then q[1..]
    else [q[0]] + Without(q[1..], x)
  }

  lemma {:induction false} WithoutKeeps(q: seq<int>, x: int)
    requires Distinct(q)
    ensures Without(q, x) == Keep(q, {x})
  {
    if q == [] {
    } else {
      if q[0] == x {
        KeepAll(q[1..], {x});
      } else {
        WithoutKeeps(q[1..], x);
      }
    }
  }

  /** The position of x in q, or |q| when it does not occur. */
  function Position(q: seq<int>, x: int): (p: nat)
    ensures p <= |q|
    ensures p < |q| ==> q[p] == x
    ensures p == |q| <==> x !in q
    ensures forall i :: 0 <= i < p ==> q[i] != x
  {
    if q == [] then 0
    else if q[0] == x then 0
    else 1 + Position(q[1..], x)
  }

  lemma {:induction false} KeepOthers(q: seq<int>, x: int)
    requires Distinct(q) && x in q
    ensures Keep(q, {x}) == q[..Position(q, x)] + q[Position(q, x) + 1..]
  {
    if q[0] == x {
      KeepAll(q[1..], {x});
    } else {
      KeepOthers(q[1..], x);
    }
  }

  /** Removing elements moves nobody backwards and swaps nobody. */
  lemma {:induction false} KeepOrder(q: seq<int>, drop: set<int>, x: int, y: int)
    requires x in q && x !in drop && y !in drop
    ensures Position(Keep(q, drop), x) <= Position(q, x)
    ensures Position(q, x) < Position(q, y) ==> Position(Keep(q, drop), x) < Position(Keep(q, drop), y)
  {
    var r := Keep(q, drop);
    if q[0] in drop {
      KeepOrder(q[1..], drop, x, y);
    } else {
      assert r[1..] == Keep(q[1..], drop);
      if q[0] != x {
        KeepOrder(q[1..], drop, x, y);
      }
    }
  }

  /** Distinct numbers below n that avoid one number below n are fewer than n. */
  lemma {:induction false} Pigeonhole(q: seq<int>, n: nat, hole: nat)
    requires Distinct(q)
    requires forall x :: x in q ==> 0 <= x < n && x != hole
    requires hole < n
    ensures |q| < n
  {
    var members := set x | x in q;
    Members(q);
    var others := Below(n) - {hole};
    assert members <= others;
    assert members + others == others && members - others == {};
  }

  ghost function Below(n: nat): (s: set<int>)
    ensures |s| == n
    ensures forall x :: x in s <==> 0 <= x < n
  {
    if n == 0 then {} else Below(n - 1) + {n - 1}
  }

  lemma {:induction false} Members(q: seq<int>)
    requires Distinct(q)
    ensures |set x | x in q| == |q|
  {
    if q == [] {
    } else {
      Members(q[1..]);
      assert (set x | x in q) == (set x | x in q[1..]) + {q[0]};
      assert q[0] !in q[1..];
    }
  }
}
