/**
 * The sort the planner applies to entry lists, with the comparator
 * `a.bay - b.bay || a.row - b.row || a.stack - b.stack`. The host's sort is
 * stable, so it is modelled by an insertion sort, proved stable: entries that
 * share a position keep their input order. A stable sort by a total preorder
 * has exactly one possible result.
 */
module Sorting {
  import opened Yard

  /** The comparator's "not after": lexicographic on (bay, row, stack). */
  predicate Le(a: Entry, b: Entry) {
    a.bay < b.bay || (a.bay == b.bay && (a.row < b.row || (a.row == b.row && a.stack <= b.stack)))
  }

  /** Strictly before, lexicographic on (bay, row, stack). */
  predicate Lt(a: Entry, b: Entry) {
    a.bay < b.bay || (a.bay == b.bay && (a.row < b.row || (a.row == b.row && a.stack < b.stack)))
  }

  predicate Sorted(s: seq<Entry>) {
    forall i, j :: 0 <= i < j < |s| ==> Le(s[i], s[j])
  }

  /** Insert `x` into `s` after every entry that is not after `x`. */
  function Insert(s: seq<Entry>, x: Entry): seq<Entry> {
    if s == [] || Le(s[|s| - 1], x) then s + [x]
    else Insert(s[..|s| - 1], x) + [s[|s| - 1]]
  }

  function SortByPosition(s: seq<Entry>): seq<Entry> {
    if s == [] then [] else Insert(SortByPosition(s[..|s| - 1]), s[|s| - 1])
  }

  /** Dropping the last entry of an ordered list keeps it ordered. */
  lemma SortedInit(s: seq<Entry>)
    requires Sorted(s) && s != []
    ensures Sorted(s[..|s| - 1])
  {
    var init := s[..|s| - 1];
    forall i, j | 0 <= i < j < |init| ensures Le(init[i], init[j]) {
      assert init[i] == s[i] && init[j] == s[j];
    }
  }

  lemma {:induction false} InsertSpec(s: seq<Entry>, x: Entry)
    ensures multiset(Insert(s, x)) == multiset(s) + multiset{x}
    ensures multiset(Boxes(Insert(s, x))) == multiset(Boxes(s)) + multiset{x.box}
  {
    if s == [] || Le(s[|s| - 1], x) {
      assert Insert(s, x) == s + [x];
      assert Boxes(s + [x]) == Boxes(s) + [x.box] by {
        BoxesAppend(s, [x]);
      }
    } else {
      var init, last := s[..|s| - 1], s[|s| - 1];
      var r := Insert(init, x);
      assert s == init + [last];
      assert Insert(s, x) == r + [last];
      InsertSpec(init, x);
      assert multiset(r + [last]) == multiset(r) + multiset{last};
      assert multiset(s) == multiset(init) + multiset{last};
      assert Boxes(r + [last]) == Boxes(r) + [last.box] && Boxes(s) == Boxes(init) + [last.box] by {
        BoxesAppend(r, [last]);
        BoxesAppend(init, [last]);
      }
      assert multiset(Boxes(r + [last])) == multiset(Boxes(r)) + multiset{last.box};
      assert multiset(Boxes(s)) == multiset(Boxes(init)) + multiset{last.box};
    }
  }

  lemma {:induction false} InsertSorted(s: seq<Entry>, x: Entry)
    requires Sorted(s)
    ensures Sorted(Insert(s, x))
  {
    if s == [] || Le(s[|s| - 1], x) {
      assert Insert(s, x) == s + [x];
    } else {
      var init, last := s[..|s| - 1], s[|s| - 1];
      assert s == init + [last];
      SortedInit(s);
      InsertSorted(init, x);
      InsertSpec(init, x);
      var r := Insert(init, x);
      assert Insert(s, x) == r + [last];
      forall i | 0 <= i < |r|
        ensures Le(r[i], last)
      {
        assert r[i] in multiset(r);
        if r[i] != x {
          assert r[i] in multiset(init);
          var k :| 0 <= k < |init| && init[k] == r[i];
          assert s[k] == r[i];
        }
      }
      forall i, j | 0 <= i < j < |r + [last]|
        ensures Le((r + [last])[i], (r + [last])[j])
      {
        if j == |r| {
          assert (r + [last])[i] == r[i];
        } else {
          assert (r + [last])[i] == r[i] && (r + [last])[j] == r[j];
        }
      }
    }
  }

  /** The sort yields the same entries, in (bay, row, stack) order. */
  lemma {:induction false} SortSpec(s: seq<Entry>)
    ensures Sorted(SortByPosition(s))
    ensures multiset(SortByPosition(s)) == multiset(s)
    ensures multiset(Boxes(SortByPosition(s))) == multiset(Boxes(s))
  {
    if s != [] {
      var init, last := s[..|s| - 1], s[|s| - 1];
      var r := SortByPosition(init);
      assert s == init + [last];
      assert SortByPosition(s) == Insert(r, last);
      SortSpec(init);
      assert Sorted(Insert(r, last)) by {
        InsertSorted(r, last);
      }
      assert multiset(Insert(r, last)) == multiset(s) by {
        InsertSpec(r, last);
      }
      assert multiset(Boxes(Insert(r, last))) == multiset(Boxes(s)) by {
        InsertSpec(r, last);
        BoxesAppend(init, [last]);
        assert Boxes(s) == Boxes(init) + [last.box];
      }
    }
  }

  /** The entries of `s` at position (bay, row, stack) `k`, in the order of `s`. */
  function AtSpot(s: seq<Entry>, k: (int, int, int)): seq<Entry> {
    if s == [] then []
    else
      var x := s[|s| - 1];
      AtSpot(s[..|s| - 1], k) + (if (x.bay, x.row, x.stack) == k then [x] else [])
  }

  lemma AtSpotAppend(s: seq<Entry>, x: Entry, k: (int, int, int))
    ensures AtSpot(s + [x], k) == AtSpot(s, k) + (if (x.bay, x.row, x.stack) == k then [x] else [])
  {
    assert (s + [x])[..|s|] == s;
  }

  /** Inserting `x` puts it after every entry at its own position. */
  lemma {:induction false} InsertStable(s: seq<Entry>, x: Entry, k: (int, int, int))
    ensures AtSpot(Insert(s, x), k) == AtSpot(s, k) + (if (x.bay, x.row, x.stack) == k then [x] else [])
  {
    if s == [] || Le(s[|s| - 1], x) {
      AtSpotAppend(s, x, k);
    } else {
      var init, last := s[..|s| - 1], s[|s| - 1];
      assert s == init + [last];
      InsertStable(init, x, k);
      AtSpotAppend(Insert(init, x), last, k);
      AtSpotAppend(init, last, k);
    }
  }

  /** The sort is stable: the entries at any one position come out in the
      order they went in. */
  lemma {:induction false} SortStable(s: seq<Entry>, k: (int, int, int))
    ensures AtSpot(SortByPosition(s), k) == AtSpot(s, k)
  {
    if s != [] {
      var init, last := s[..|s| - 1], s[|s| - 1];
      assert s == init + [last];
      SortStable(init, k);
      InsertStable(SortByPosition(init), last, k);
      AtSpotAppend(init, last, k);
    }
  }

  /** Sorting a list that is already in order leaves it as it is. */
  lemma {:induction false} SortOfSorted(s: seq<Entry>)
    requires Sorted(s)
    ensures SortByPosition(s) == s
  {
    if s != [] {
      var init, last := s[..|s| - 1], s[|s| - 1];
      SortedInit(s);
      SortOfSorted(init);
      assert SortByPosition(s) == Insert(init, last);
      if init != [] {
        assert Le(s[|init| - 1], last);
      }
      assert s == init + [last];
    }
  }
}
