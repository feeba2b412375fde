/** The circular wait queue of a semaphore, on values: a window of n slots that
    starts at slot h and wraps around the end of the array. */
module Rings {

  /** The slot i places after h. */
  function Slot(h: nat, i: nat, size: nat): (p: nat)
    requires h < size && i <= size
    ensures p == if h + i < size then h + i else h + i - size
  {
    Wraps(h + i, size);
    (h + i) % size
  }

  lemma Wraps(x: nat, size: nat)
    requires 0 < size && x < 2 * size
    ensures x % size == if x < size then x else x - size
  {
  }

  /** The n elements that start at slot h. */
  function Window(s: seq<int>, h: nat, n: nat): (w: seq<int>)
    requires h < |s| && n <= |s|
    ensures |w| == n
    ensures forall i :: 0 <= i < n ==> w[i] == s[Slot(h, i, |s|)]
  {
    seq(n, i requires 0 <= i < n => s[Slot(h, i, |s|)])
  }

  /** Everything outside the window is 0. */
  ghost predicate Blank(s: seq<int>, h: nat, n: nat)
    requires h < |s| && n <= |s|
  {
    forall i :: n <= i < |s| ==> s[Slot(h, i, |s|)] == 0
  }

  /** Storing behind the window appends. */
  lemma WindowPush(s: seq<int>, h: nat, n: nat, x: int)
    requires h < |s| && n < |s|
    ensures Window(s[Slot(h, n, |s|) := x], h, n + 1) == Window(s, h, n) + [x]
    ensures Blank(s, h, n) ==> Blank(s[Slot(h, n, |s|) := x], h, n + 1)
  {
  }

  /** Clearing the first slot and stepping over it drops the first element. */
  lemma WindowPop(s: seq<int>, h: nat, n: nat)
    requires h < |s| && 0 < n <= |s|
    ensures Window(s[h := 0], Slot(h, 1, |s|), n - 1) == Window(s, h, n)[1..]
    ensures Blank(s, h, n) ==> Blank(s[h := 0], Slot(h, 1, |s|), n - 1)
  {
    var s', h' := s[h := 0], Slot(h, 1, |s|);
    assert forall i :: 0 <= i < |s| - 1 ==> Slot(h', i, |s|) == Slot(h, i + 1, |s|);
    assert Slot(h', |s| - 1, |s|) == h;
  }
}
