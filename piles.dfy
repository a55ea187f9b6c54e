/**
 * The yard as a map from (bay, row) to the pile stored there (`buildPiles`),
 * and the free-slot sums the planner uses to judge buffer capacity
 * (`totalFreeCapacity` and the inline sum of `chooseTarget`).
 */
module Piles {
  import opened Yard
  import opened Sorting

  /** A pile is listed bottom to top (ascending tier). */
  type Piles = map<Loc, seq<Entry>>

  /** Every location of the yard has a pile. */
  ghost predicate Covers(p: Patio, piles: Piles) {
    forall l :: InGrid(l, p.bays, p.rows) ==> l in piles
  }

  /** Every entry of the snapshot names a location of the yard. */
  predicate InYard(p: Patio) {
    forall e :: e in p.data ==> InGrid(LocOf(e), p.bays, p.rows)
  }

  /** The entries of `s` at location `l`, in the order of `s`. */
  function Filter(s: seq<Entry>, l: Loc): seq<Entry> {
    if s == [] then []
    else Filter(s[..|s| - 1], l) + (if LocOf(s[|s| - 1]) == l then [s[|s| - 1]] else [])
  }

  /** One pile per location of `locs`, holding the entries of `s` found there. */
  function Bucket(s: seq<Entry>, locs: seq<Loc>): Piles {
    map l | l in locs :: Filter(s, l)
  }

  /** The piles `buildPiles` makes of a snapshot. */
  function PilesOf(p: Patio): Piles {
    Bucket(SortByPosition(p.data), Grid(p.bays, p.rows))
  }

  lemma FilterAppend(s: seq<Entry>, x: Entry, l: Loc)
    ensures Filter(s + [x], l) == Filter(s, l) + (if LocOf(x) == l then [x] else [])
  {
    assert (s + [x])[..|s|] == s;
  }

  /** A pile holds each entry of `s` at its location as often as `s` does,
      and nothing else. */
  lemma {:induction false} FilterCount(s: seq<Entry>, l: Loc)
    ensures forall x :: multiset(Filter(s, l))[x] == if LocOf(x) == l then multiset(s)[x] else 0
  {
    if s != [] {
      var init, last := s[..|s| - 1], s[|s| - 1];
      assert s == init + [last];
      FilterCount(init, l);
      FilterAppend(init, last, l);
    }
  }

  /** Taking the entries of one location keeps the list's order. */
  lemma {:induction false} FilterSorted(s: seq<Entry>, l: Loc)
    requires Sorted(s)
    ensures Sorted(Filter(s, l))
  {
    if s != [] {
      var init, last := s[..|s| - 1], s[|s| - 1];
      var f := Filter(init, l);
      assert s == init + [last];
      SortedInit(s);
      FilterSorted(init, l);
      FilterAppend(init, last, l);
      if LocOf(last) == l {
        assert forall x :: x in f ==> Le(x, last) by {
          FilterCount(init, l);
          forall x | x in f
            ensures Le(x, last)
          {
            assert multiset(f)[x] > 0;
            assert x in multiset(init);
            var k :| 0 <= k < |init| && init[k] == x;
            assert s[k] == x;
          }
        }
        forall i, j | 0 <= i < j < |f + [last]|
          ensures Le((f + [last])[i], (f + [last])[j])
        {
          if j == |f| {
            assert f[i] in f;
          } else {
            assert (f + [last])[i] == f[i] && (f + [last])[j] == f[j];
          }
        }
      }
    }
  }

  /** `buildPiles` makes exactly one pile for every (bay, row) of the yard;
      the pile holds exactly the snapshot's entries at that location, in
      ascending tier order. */
  lemma PilesShape(p: Patio)
    ensures forall l :: l in PilesOf(p) <==> InGrid(l, p.bays, p.rows)
    ensures forall l, x :: l in PilesOf(p) ==>
      multiset(PilesOf(p)[l])[x] == if LocOf(x) == l then multiset(p.data)[x] else 0
    ensures forall l, i, j :: l in PilesOf(p) && 0 <= i < j < |PilesOf(p)[l]| ==>
      LocOf(PilesOf(p)[l][i]) == l && PilesOf(p)[l][i].stack <= PilesOf(p)[l][j].stack
  {
    GridShape(p.bays, p.rows);
    var sorted := SortByPosition(p.data);
    SortSpec(p.data);
    forall l | l in PilesOf(p)
      ensures forall x :: multiset(PilesOf(p)[l])[x] == if LocOf(x) == l then multiset(p.data)[x] else 0
      ensures forall i, j :: 0 <= i < j < |PilesOf(p)[l]| ==>
        LocOf(PilesOf(p)[l][i]) == l && PilesOf(p)[l][i].stack <= PilesOf(p)[l][j].stack
    {
      var pile := Filter(sorted, l);
      assert PilesOf(p)[l] == pile;
      FilterCount(sorted, l);
      FilterSorted(sorted, l);
      forall i, j | 0 <= i < j < |pile|
        ensures LocOf(pile[i]) == l && pile[i].stack <= pile[j].stack
      {
        assert pile[i] in multiset(pile) && pile[j] in multiset(pile);
        assert Le(pile[i], pile[j]);
      }
    }
  }

  lemma BucketEmptyAppend(locs: seq<Loc>, l: Loc)
    ensures Bucket([], locs + [l]) == Bucket([], locs)[l := []]
  {
  }

  lemma BucketAppend(s: seq<Entry>, x: Entry, locs: seq<Loc>)
    requires LocOf(x) in locs
    ensures Bucket(s + [x], locs) == Bucket(s, locs)[LocOf(x) := Bucket(s, locs)[LocOf(x)] + [x]]
  {
    var m1, m2 := Bucket(s + [x], locs), Bucket(s, locs)[LocOf(x) := Bucket(s, locs)[LocOf(x)] + [x]];
    assert m1.Keys == m2.Keys;
    forall l | l in m1
      ensures m1[l] == m2[l]
    {
      FilterAppend(s, x, l);
    }
  }

  /** Lines 117-122: one empty pile per location of the yard. */
  method EmptyPiles(p: Patio) returns (piles: Piles)
    ensures piles == Bucket([], Grid(p.bays, p.rows))
  {
    piles := map[];
    for b := 1 to p.bays + 1
      invariant piles == Bucket([], Visited(p.rows, b - 1, p.rows))
    {
      for r := 1 to p.rows + 1
        invariant piles == Bucket([], Visited(p.rows, b, r - 1))
      {
        BucketEmptyAppend(Visited(p.rows, b, r - 1), Loc(b, r));
        piles := piles[Loc(b, r) := []];
      }
    }
  }

  /** Lines 116-128: one empty pile per location, then the sorted entries
      appended, each onto the pile of its (bay, row). */
  method BuildPiles(p: Patio) returns (piles: Piles)
    requires InYard(p)
    ensures piles == PilesOf(p)
  {
    piles := EmptyPiles(p);
    var sorted := SortByPosition(p.data);
    assert sorted[..0] == [];
    for i := 0 to |sorted|
      invariant piles == Bucket(sorted[..i], Grid(p.bays, p.rows))
    {
      var c := sorted[i];
      assert LocOf(c) in Grid(p.bays, p.rows) by {
        SortSpec(p.data);
        GridShape(p.bays, p.rows);
        assert c in multiset(p.data);
      }
      assert sorted[..i + 1] == sorted[..i] + [c];
      BucketAppend(sorted[..i], c, Grid(p.bays, p.rows));
      piles := piles[LocOf(c) := piles[LocOf(c)] + [c]];
    }
    assert sorted[..|sorted|] == sorted;
  }

  /** The pile at `l`; a missing pile counts as empty (line 134). */
  function PileAt(piles: Piles, l: Loc): seq<Entry> {
    if l in piles then piles[l] else []
  }

  function Height(piles: Piles, l: Loc): nat {
    |PileAt(piles, l)|
  }

  /** Free slots of the pile at `l`: `Math.max(0, stacks - pile.length)`. */
  function FreeAt(stacks: int, piles: Piles, l: Loc): nat {
    if stacks - Height(piles, l) > 0 then stacks - Height(piles, l) else 0
  }

  /** Free slots summed over `locs`. */
  function FreeIn(locs: seq<Loc>, stacks: int, piles: Piles): nat {
    if locs == [] then 0
    else FreeIn(locs[..|locs| - 1], stacks, piles) + FreeAt(stacks, piles, locs[|locs| - 1])
  }

  /** Free slots summed over `locs`, leaving out location `t`. */
  function FreeExcept(locs: seq<Loc>, stacks: int, piles: Piles, t: Loc): nat {
    if locs == [] then 0
    else
      var l := locs[|locs| - 1];
      FreeExcept(locs[..|locs| - 1], stacks, piles, t) + (if l == t then 0 else FreeAt(stacks, piles, l))
  }

  /** `FreeIn` over the locations visited up to row `r` of bay `b`, counted
      the way the nested loops count it. */
  function FreeInUpto(rows: nat, stacks: int, piles: Piles, b: nat, r: nat): nat
    decreases b, r
  {
    if b == 0 then 0
    else if r == 0 then FreeInUpto(rows, stacks, piles, b - 1, rows)
    else FreeInUpto(rows, stacks, piles, b, r - 1) + FreeAt(stacks, piles, Loc(b, r))
  }

  /** `FreeExcept` over the locations visited up to row `r` of bay `b`. */
  function FreeExceptUpto(rows: nat, stacks: int, piles: Piles, t: Loc, b: nat, r: nat): nat
    decreases b, r
  {
    if b == 0 then 0
    else if r == 0 then FreeExceptUpto(rows, stacks, piles, t, b - 1, rows)
    else FreeExceptUpto(rows, stacks, piles, t, b, r - 1) + (if Loc(b, r) == t then 0 else FreeAt(stacks, piles, Loc(b, r)))
  }

  lemma {:induction false} FreeInUptoSpec(rows: nat, stacks: int, piles: Piles, b: nat, r: nat)
    ensures FreeInUpto(rows, stacks, piles, b, r) == FreeIn(Visited(rows, b, r), stacks, piles)
    decreases b, r
  {
    if b > 0 && r == 0 {
      FreeInUptoSpec(rows, stacks, piles, b - 1, rows);
    } else if b > 0 {
      FreeInUptoSpec(rows, stacks, piles, b, r - 1);
      FreeInAppend(Visited(rows, b, r - 1), Loc(b, r), stacks, piles);
    }
  }

  lemma {:induction false} FreeExceptUptoSpec(rows: nat, stacks: int, piles: Piles, t: Loc, b: nat, r: nat)
    ensures FreeExceptUpto(rows, stacks, piles, t, b, r) == FreeExcept(Visited(rows, b, r), stacks, piles, t)
    decreases b, r
  {
    if b > 0 && r == 0 {
      FreeExceptUptoSpec(rows, stacks, piles, t, b - 1, rows);
    } else if b > 0 {
      FreeExceptUptoSpec(rows, stacks, piles, t, b, r - 1);
      FreeExceptAppend(Visited(rows, b, r - 1), Loc(b, r), stacks, piles, t);
    }
  }

  lemma FreeInAppend(locs: seq<Loc>, l: Loc, stacks: int, piles: Piles)
    ensures FreeIn(locs + [l], stacks, piles) == FreeIn(locs, stacks, piles) + FreeAt(stacks, piles, l)
  {
    assert (locs + [l])[..|locs|] == locs;
  }

  lemma FreeExceptAppend(locs: seq<Loc>, l: Loc, stacks: int, piles: Piles, t: Loc)
    ensures FreeExcept(locs + [l], stacks, piles, t)
      == FreeExcept(locs, stacks, piles, t) + (if l == t then 0 else FreeAt(stacks, piles, l))
  {
    assert (locs + [l])[..|locs|] == locs;
  }

  lemma IncreasingInit(locs: seq<Loc>)
    requires Increasing(locs) && locs != []
    ensures Increasing(locs[..|locs| - 1])
    ensures locs[|locs| - 1] !in locs[..|locs| - 1]
  {
    var init := locs[..|locs| - 1];
    forall i, j | 0 <= i < j < |init| ensures Before(init[i], init[j]) {
      assert init[i] == locs[i] && init[j] == locs[j];
    }
  }

  /** The yard's free slots are the target's plus those of every other pile. */
  lemma {:induction false} FreeSplit(locs: seq<Loc>, stacks: int, piles: Piles, t: Loc)
    requires Increasing(locs)
    ensures FreeIn(locs, stacks, piles)
      == FreeExcept(locs, stacks, piles, t) + (if t in locs then FreeAt(stacks, piles, t) else 0)
  {
    if locs != [] {
      var init := locs[..|locs| - 1];
      assert locs == init + [locs[|locs| - 1]];
      IncreasingInit(locs);
      FreeSplit(init, stacks, piles, t);
    }
  }

  /** Changing one pile `m` other than `t` changes the free slots outside `t`
      by the change of `m`'s own free slots; other changes leave them alone. */
  lemma {:induction false} FreeExceptChange(locs: seq<Loc>, stacks: int, p1: Piles, p2: Piles, t: Loc, m: Loc)
    requires Increasing(locs)
    requires forall l :: l in locs && l != m ==> Height(p1, l) == Height(p2, l)
    ensures FreeExcept(locs, stacks, p2, t) + (if m in locs && m != t then FreeAt(stacks, p1, m) else 0)
      == FreeExcept(locs, stacks, p1, t) + (if m in locs && m != t then FreeAt(stacks, p2, m) else 0)
  {
    if locs != [] {
      var init, last := locs[..|locs| - 1], locs[|locs| - 1];
      assert locs == init + [last];
      assert m in locs <==> m in init || m == last;
      IncreasingInit(locs);
      FreeExceptChange(init, stacks, p1, p2, t, m);
      if last != m {
        assert FreeAt(stacks, p1, last) == FreeAt(stacks, p2, last);
      }
    }
  }

  /** No free slot outside `t` exactly when every other pile is full. */
  lemma {:induction false} NoFreeExcept(locs: seq<Loc>, stacks: int, piles: Piles, t: Loc)
    ensures FreeExcept(locs, stacks, piles, t) == 0
      <==> forall l :: l in locs && l != t ==> Height(piles, l) >= stacks
  {
    if locs != [] {
      var init := locs[..|locs| - 1];
      assert locs == init + [locs[|locs| - 1]];
      NoFreeExcept(init, stacks, piles, t);
    }
  }

  /** Lines 130-139: the free slots of the whole yard. */
  method TotalFreeCapacity(p: Patio, piles: Piles) returns (free: nat)
    ensures free == FreeIn(Grid(p.bays, p.rows), p.stacks, piles)
  {
    free := 0;
    for b := 1 to p.bays + 1
      invariant free == FreeInUpto(p.rows, p.stacks, piles, b - 1, p.rows)
    {
      for r := 1 to p.rows + 1
        invariant free == FreeInUpto(p.rows, p.stacks, piles, b, r - 1)
      {
        var pile := if Loc(b, r) in piles then piles[Loc(b, r)] else [];
        free := free + if p.stacks - |pile| > 0 then p.stacks - |pile| else 0;
      }
    }
    FreeInUptoSpec(p.rows, p.stacks, piles, p.bays, p.rows);
  }

  /** Lines 169-175: the free slots of every pile other than (tb, tr). */
  method FreeElsewhere(p: Patio, piles: Piles, t: Loc) returns (free: nat)
    requires Covers(p, piles)
    ensures free == FreeExcept(Grid(p.bays, p.rows), p.stacks, piles, t)
  {
    free := 0;
    for b := 1 to p.bays + 1
      invariant free == FreeExceptUpto(p.rows, p.stacks, piles, t, b - 1, p.rows)
    {
      for r := 1 to p.rows + 1
        invariant free == FreeExceptUpto(p.rows, p.stacks, piles, t, b, r - 1)
      {
        if Loc(b, r) != t {
          assert InGrid(Loc(b, r), p.bays, p.rows);
          var h := |piles[Loc(b, r)]|;
          free := free + if p.stacks - h > 0 then p.stacks - h else 0;
        }
      }
    }
    FreeExceptUptoSpec(p.rows, p.stacks, piles, t, p.bays, p.rows);
  }
}
