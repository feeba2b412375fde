/** What ageing does to the delay queue. */
module Delays {
  import opened KernelTypes
  import opened Lists
  import opened KernelSpec

  /** Whether an entry is due does not depend on later entries of other tasks. */
  lemma DueFront(d: seq<Entry>, n: nat)
    requires d != [] && Distinct(Ids(d))
    ensures Distinct(Ids(d[..|d| - 1]))
    ensures forall x :: x in Ids(d[..|d| - 1]) ==> (x in Due(d[..|d| - 1], n) <==> x in Due(d, n))
    ensures d[|d| - 1].id in Due(d, n) <==> d[|d| - 1].remaining <= n
  {
  }

  /** Ageing drops exactly the entries that are due and keeps the others in order. */
  lemma {:induction false} AgedIds(d: seq<Entry>, n: nat)
    requires Distinct(Ids(d))
    ensures Ids(Aged(d, n)) == Keep(Ids(d), Due(d, n))
  {
    if d == [] {
    } else {
      var front, last := d[..|d| - 1], d[|d| - 1];
      var drop := Due(d, n);
      DueFront(d, n);
      AgedIds(front, n);
      KeepAgree(Ids(front), Due(front, n), drop);
      assert Ids(d) == Ids(front) + [last.id];
      KeepConcat(Ids(front), [last.id], drop);
      assert Keep([last.id], drop) == if last.id in drop then [] else [last.id];
    }
  }

  /** A surviving entry has aged by exactly n. */
  lemma {:induction false} AgedFrom(d: seq<Entry>, n: nat, e: Entry)
    requires e in Aged(d, n)
    ensures e.remaining > 0 && Entry(e.id, e.remaining + n) in d
  {
    var front, last := d[..|d| - 1], d[|d| - 1];
    if e in Aged(front, n) {
      AgedFrom(front, n, e);
    } else {
      assert e == Entry(last.id, last.remaining - n);
    }
  }

  /** Ageing twice is ageing once by the sum. */
  lemma {:induction false} AgedTwice(d: seq<Entry>, m: nat, n: nat)
    ensures Aged(Aged(d, m), n) == Aged(d, m + n)
  {
    if d == [] {
    } else {
      var front, last := d[..|d| - 1], d[|d| - 1];
      var a := Aged(front, m);
      AgedTwice(front, m, n);
      if last.remaining > m {
        var e := Entry(last.id, last.remaining - m);
        assert Aged(d, m) == a + [e];
        assert (a + [e])[..|a|] == a;
      }
    }
  }

  /** Who is due within m + n ticks is due within m, or within n more after that. */
  lemma DueTwice(d: seq<Entry>, m: nat, n: nat)
    ensures Due(d, m) + Due(Aged(d, m), n) == Due(d, m + n)
  {
    var a := Aged(d, m);
    forall x | x in Due(a, n)
      ensures x in Due(d, m + n)
    {
      var j :| 0 <= j < |a| && a[j].remaining <= n && a[j].id == x;
      AgedFrom(d, m, a[j]);
    }
    forall x | x in Due(d, m + n)
      ensures x in Due(d, m) || x in Due(a, n)
    {
      var j :| 0 <= j < |d| && d[j].remaining <= m + n && d[j].id == x;
      if d[j].remaining > m {
        AgedKeeps(d, m, d[j]);
      }
    }
  }

  lemma {:induction false} AgedKeeps(d: seq<Entry>, n: nat, e: Entry)
    requires e in d && e.remaining > n
    ensures Entry(e.id, e.remaining - n) in Aged(d, n)
  {
    var front, last := d[..|d| - 1], d[|d| - 1];
    var rest := Aged(front, n);
    if e in front {
      AgedKeeps(front, n, e);
    } else {
      assert e == last;
    }
  }

  /** Taking out one entry by id. */
  lemma WithoutEntryIds(d: seq<Entry>, id: int)
    requires Distinct(Ids(d))
    ensures Ids(WithoutEntry(d, id)) == Keep(Ids(d), {id})
    ensures forall e :: e in WithoutEntry(d, id) ==> e in d
  {
    var ids := Ids(d);
    if id in ids {
      KeepOthers(ids, id);
      var p := Position(ids, id);
      assert Ids(WithoutEntry(d, id)) == ids[..p] + ids[p + 1..];
    } else {
      KeepAll(ids, {id});
    }
  }

  /** As many entries go as tasks are due. */
  lemma {:induction false} DueCount(d: seq<Entry>, n: nat)
    requires Distinct(Ids(d))
    ensures |Due(d, n)| == |d| - |Aged(d, n)|
  {
    if d == [] {
    } else {
      var front, last := d[..|d| - 1], d[|d| - 1];
      DueFront(d, n);
      DueCount(front, n);
      DueSplits(d, n);
      assert forall j :: 0 <= j < |front| ==> front[j].id == Ids(d)[j] != Ids(d)[|d| - 1];
    }
  }

  lemma DueSplits(d: seq<Entry>, n: nat)
    requires d != []
    ensures Due(d, n) ==
      Due(d[..|d| - 1], n) + (if d[|d| - 1].remaining <= n then {d[|d| - 1].id} else {})
  {
  }
}
