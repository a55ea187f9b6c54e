/**
 * The flat entry list the planner rebuilds from its piles (lines 242-253):
 * every pile in bay-then-row order, each container renumbered to the tier
 * of its place in the pile, and the stock of containers the piles hold.
 */
module Rebuilding {
  import opened Yard
  import opened Sorting
  import opened Piles

  /** The entries of `pile` as they are rebuilt at `l`: tier `s + 1` for the
      container at index `s`. */
  function Tiers(l: Loc, pile: seq<Entry>): seq<Entry> {
    seq(|pile|, s requires 0 <= s < |pile| => Entry(l.bay, l.row, s + 1, pile[s].box))
  }

  /** The rebuilt list of the piles at `locs`, visited in order. */
  function Layout(locs: seq<Loc>, piles: Piles): seq<Entry> {
    if locs == [] then []
    else Layout(locs[..|locs| - 1], piles) + Tiers(locs[|locs| - 1], PileAt(piles, locs[|locs| - 1]))
  }

  /** `Layout` over the locations visited up to row `r` of bay `b`, built the
      way the nested loops build it. */
  function LayoutUpto(rows: nat, piles: Piles, b: nat, r: nat): seq<Entry>
    decreases b, r
  {
    if b == 0 then []
    else if r == 0 then LayoutUpto(rows, piles, b - 1, rows)
    else LayoutUpto(rows, piles, b, r - 1) + Tiers(Loc(b, r), PileAt(piles, Loc(b, r)))
  }

  lemma LayoutAppend(locs: seq<Loc>, l: Loc, piles: Piles)
    ensures Layout(locs + [l], piles) == Layout(locs, piles) + Tiers(l, PileAt(piles, l))
  {
    assert (locs + [l])[..|locs|] == locs;
  }

  lemma {:induction false} LayoutUptoRow(rows: nat, piles: Piles, b: nat, r: nat)
    requires b > 0
    requires LayoutUpto(rows, piles, b, 0) == Layout(Visited(rows, b, 0), piles)
    ensures LayoutUpto(rows, piles, b, r) == Layout(Visited(rows, b, r), piles)
    decreases r
  {
    if r > 0 {
      LayoutUptoRow(rows, piles, b, r - 1);
      LayoutAppend(Visited(rows, b, r - 1), Loc(b, r), piles);
    }
  }

  /** The loops' list agrees with `Layout` over the visited locations. */
  lemma {:induction false} LayoutUptoSpec(rows: nat, piles: Piles, b: nat)
    ensures LayoutUpto(rows, piles, b, rows) == Layout(Visited(rows, b, rows), piles)
    decreases b
  {
    if b > 0 {
      LayoutUptoSpec(rows, piles, b - 1);
      LayoutUptoRow(rows, piles, b, rows);
    }
  }

  /** No two entries at the same position, in ascending (bay, row, tier). */
  predicate StrictlySorted(s: seq<Entry>) {
    forall i, j :: 0 <= i < j < |s| ==> Lt(s[i], s[j])
  }

  /** The rebuilt list is strictly ascending in (bay, row, tier) when the
      locations are visited in bay-then-row order, and each entry sits at
      one of the visited locations. */
  lemma {:induction false} LayoutSorted(locs: seq<Loc>, piles: Piles)
    requires Increasing(locs)
    ensures StrictlySorted(Layout(locs, piles))
    ensures forall e :: e in Layout(locs, piles) ==> LocOf(e) in locs && e.stack >= 1
  {
    if locs != [] {
      var init, last := locs[..|locs| - 1], locs[|locs| - 1];
      IncreasingInit(locs);
      LayoutSorted(init, piles);
      var a, b := Layout(init, piles), Tiers(last, PileAt(piles, last));
      assert Layout(locs, piles) == a + b;
      forall i | 0 <= i < |a|
        ensures Before(LocOf(a[i]), last)
      {
        assert a[i] in a;
        var k :| 0 <= k < |init| && init[k] == LocOf(a[i]);
        assert locs[k] == init[k];
      }
      forall i, j | 0 <= i < j < |a + b|
        ensures Lt((a + b)[i], (a + b)[j])
      {
        if j < |a| {
          assert (a + b)[i] == a[i] && (a + b)[j] == a[j];
        } else if i < |a| {
          assert (a + b)[i] == a[i] && (a + b)[j] == b[j - |a|];
        } else {
          assert (a + b)[i] == b[i - |a|] && (a + b)[j] == b[j - |a|];
        }
      }
      forall e | e in a + b
        ensures LocOf(e) in locs && e.stack >= 1
      {
        if e in a {
          assert LocOf(e) in init;
          var k :| 0 <= k < |init| && init[k] == LocOf(e);
          assert locs[k] == init[k];
        } else {
          assert e in b;
          assert locs[|locs| - 1] == last;
        }
      }
    }
  }

  /** Lines 242-253: walk every pile in bay-then-row order and list its
      containers with their tiers renumbered from 1, then sort by position.
      The result is the layout itself: the loops already produce it in
      order. */
  method Rebuild(p: Patio, piles: Piles) returns (data: seq<Entry>)
    requires Covers(p, piles)
    ensures data == Layout(Grid(p.bays, p.rows), piles)
  {
    var newData: seq<Entry> := [];
    for b := 1 to p.bays + 1
      invariant newData == LayoutUpto(p.rows, piles, b - 1, p.rows)
    {
      for r := 1 to p.rows + 1
        invariant newData == LayoutUpto(p.rows, piles, b, r - 1)
      {
        assert InGrid(Loc(b, r), p.bays, p.rows);
        var pile := piles[Loc(b, r)];
        ghost var before := newData;
        for s := 0 to |pile|
          invariant newData == before + Tiers(Loc(b, r), pile[..s])
        {
          assert Tiers(Loc(b, r), pile[..s + 1]) == Tiers(Loc(b, r), pile[..s]) + [Entry(b, r, s + 1, pile[s].box)];
          newData := newData + [Entry(b, r, s + 1, pile[s].box)];
        }
        assert pile[..|pile|] == pile;
      }
    }
    LayoutUptoSpec(p.rows, piles, p.bays);
    GridShape(p.bays, p.rows);
    LayoutSorted(Grid(p.bays, p.rows), piles);
    SortOfSorted(newData);
    data := SortByPosition(newData);
  }

  // ---------------------------------------------------------------------
  // Reading the rebuilt list back into piles
  // ---------------------------------------------------------------------

  lemma {:induction false} FilterConcat(a: seq<Entry>, b: seq<Entry>, l: Loc)
    ensures Filter(a + b, l) == Filter(a, l) + Filter(b, l)
    decreases |b|
  {
    if b != [] {
      var init, last := b[..|b| - 1], b[|b| - 1];
      assert a + b == (a + init) + [last];
      assert b == init + [last];
      FilterConcat(a, init, l);
      FilterAppend(a + init, last, l);
      FilterAppend(init, last, l);
    } else {
      assert a + b == a;
    }
  }

  lemma {:induction false} FilterTiers(m: Loc, pile: seq<Entry>, l: Loc)
    ensures Filter(Tiers(m, pile), l) == if m == l then Tiers(m, pile) else []
    decreases |pile|
  {
    if pile != [] {
      var init := pile[..|pile| - 1];
      assert Tiers(m, pile) == Tiers(m, init) + [Entry(m.bay, m.row, |pile|, pile[|pile| - 1].box)];
      FilterTiers(m, init, l);
      FilterAppend(Tiers(m, init), Entry(m.bay, m.row, |pile|, pile[|pile| - 1].box), l);
    }
  }

  /** The entries of the rebuilt list at `l` are the pile at `l`, renumbered. */
  lemma {:induction false} FilterLayout(locs: seq<Loc>, piles: Piles, l: Loc)
    requires Increasing(locs)
    ensures Filter(Layout(locs, piles), l) == if l in locs then Tiers(l, PileAt(piles, l)) else []
  {
    if locs != [] {
      var init, last := locs[..|locs| - 1], locs[|locs| - 1];
      var before, here := Layout(init, piles), Tiers(last, PileAt(piles, last));
      assert Layout(locs, piles) == before + here;
      assert locs == init + [last];
      assert l in locs <==> l in init || l == last;
      IncreasingInit(locs);
      FilterLayout(init, piles, l);
      FilterConcat(before, here, l);
      FilterTiers(last, PileAt(piles, last), l);
    }
  }

  /** Round trip: building the piles of the rebuilt list gives back every
      pile of the yard, with its tiers renumbered from 1. */
  lemma Reload(p: Patio, piles: Piles)
    ensures var q := Patio(p.bays, p.rows, p.stacks, Layout(Grid(p.bays, p.rows), piles));
      && (forall l :: l in PilesOf(q) <==> InGrid(l, p.bays, p.rows))
      && (forall l :: l in PilesOf(q) ==> PilesOf(q)[l] == Tiers(l, PileAt(piles, l)))
  {
    var grid := Grid(p.bays, p.rows);
    GridShape(p.bays, p.rows);
    LayoutSorted(grid, piles);
    SortOfSorted(Layout(grid, piles));
    forall l | l in grid
      ensures Filter(Layout(grid, piles), l) == Tiers(l, PileAt(piles, l))
    {
      FilterLayout(grid, piles, l);
    }
  }

  // ---------------------------------------------------------------------
  // The stock of containers
  // ---------------------------------------------------------------------

  /** The containers held by the piles at `locs`. */
  ghost function Stock(locs: seq<Loc>, piles: Piles): multiset<Container> {
    if locs == [] then multiset{}
    else Stock(locs[..|locs| - 1], piles) + multiset(Boxes(PileAt(piles, locs[|locs| - 1])))
  }

  lemma TiersBoxes(l: Loc, pile: seq<Entry>)
    ensures Boxes(Tiers(l, pile)) == Boxes(pile)
  {
  }

  /** The rebuilt list holds exactly the containers of the piles. */
  lemma {:induction false} LayoutStock(locs: seq<Loc>, piles: Piles)
    ensures multiset(Boxes(Layout(locs, piles))) == Stock(locs, piles)
  {
    if locs != [] {
      var init, last := locs[..|locs| - 1], locs[|locs| - 1];
      LayoutStock(init, piles);
      BoxesAppend(Layout(init, piles), Tiers(last, PileAt(piles, last)));
      TiersBoxes(last, PileAt(piles, last));
    }
  }

  /** Replacing a pile outside `locs` leaves their stock as it is. */
  lemma {:induction false} StockElsewhere(locs: seq<Loc>, piles: Piles, t: Loc, x: seq<Entry>)
    requires t !in locs
    ensures Stock(locs, piles[t := x]) == Stock(locs, piles)
  {
    if locs != [] {
      var init := locs[..|locs| - 1];
      assert t !in init by {
        assert forall k :: 0 <= k < |init| ==> init[k] == locs[k];
      }
      StockElsewhere(init, piles, t, x);
      assert locs[|locs| - 1] in locs;
    }
  }

  /** Replacing the last pile of `locs`. */
  lemma StockUpdateLast(locs: seq<Loc>, piles: Piles, x: seq<Entry>)
    requires Increasing(locs) && locs != []
    ensures var t := locs[|locs| - 1];
      Stock(locs, piles[t := x]) + multiset(Boxes(PileAt(piles, t)))
        == Stock(locs, piles) + multiset(Boxes(x))
  {
    var init, t := locs[..|locs| - 1], locs[|locs| - 1];
    IncreasingInit(locs);
    StockElsewhere(init, piles, t, x);
    var lost, gained := multiset(Boxes(PileAt(piles, t))), multiset(Boxes(x));
    calc {
      Stock(locs, piles[t := x]) + lost;
      Stock(init, piles[t := x]) + gained + lost;
      Stock(init, piles) + lost + gained;
      Stock(locs, piles) + gained;
    }
  }

  /** Replacing one pile changes the stock by exactly the containers that
      pile loses and gains. */
  lemma {:induction false} StockUpdate(locs: seq<Loc>, piles: Piles, t: Loc, x: seq<Entry>)
    requires Increasing(locs) && t in locs
    ensures Stock(locs, piles[t := x]) + multiset(Boxes(PileAt(piles, t)))
         == Stock(locs, piles) + multiset(Boxes(x))
  {
    var init, last := locs[..|locs| - 1], locs[|locs| - 1];
    if t == last {
      StockUpdateLast(locs, piles, x);
    } else {
      assert locs == init + [last];
      assert t in init;
      IncreasingInit(locs);
      StockUpdate(init, piles, t, x);
      var lost, gained := multiset(Boxes(PileAt(piles, t))), multiset(Boxes(x));
      var kept := multiset(Boxes(PileAt(piles, last)));
      assert PileAt(piles[t := x], last) == PileAt(piles, last);
      calc {
        Stock(locs, piles[t := x]) + lost;
        Stock(init, piles[t := x]) + lost + kept;
        Stock(init, piles) + gained + kept;
        Stock(locs, piles) + gained;
      }
    }
  }

  lemma {:induction false} StockEmpty(locs: seq<Loc>, piles: Piles)
    requires forall l :: l in locs ==> PileAt(piles, l) == []
    ensures Stock(locs, piles) == multiset{}
  {
    if locs != [] {
      StockEmpty(locs[..|locs| - 1], piles);
      assert locs[|locs| - 1] in locs;
    }
  }

  /** Sorting entries into the piles of their locations loses and adds no
      container. */
  lemma Cancel(a: multiset<Container>, b: multiset<Container>, c: multiset<Container>)
    requires a + c == b + c
    ensures a == b
  {
    forall x
      ensures a[x] == b[x]
    {
      assert (a + c)[x] == (b + c)[x];
    }
  }

  /** Appending one entry to the piles adds its container to the stock. */
  lemma StockOfBucketStep(init: seq<Entry>, last: Entry, locs: seq<Loc>)
    requires Increasing(locs) && LocOf(last) in locs
    requires Stock(locs, Bucket(init, locs)) == multiset(Boxes(init))
    ensures Stock(locs, Bucket(init + [last], locs)) == multiset(Boxes(init + [last]))
  {
    var l := LocOf(last);
    var m := Bucket(init, locs);
    var pile := m[l];
    BucketAppend(init, last, locs);
    StockUpdate(locs, m, l, pile + [last]);
    BoxesAppend(pile, [last]);
    BoxesAppend(init, [last]);
    var before := multiset(Boxes(pile));
    assert Boxes([last]) == [last.box];
    assert Stock(locs, Bucket(init + [last], locs)) + before == multiset(Boxes(init)) + multiset{last.box} + before;
    Cancel(Stock(locs, Bucket(init + [last], locs)), multiset(Boxes(init)) + multiset{last.box}, before);
  }

  /** Sorting entries into the piles of their locations loses and adds no
      container. */
  lemma {:induction false} StockOfBucket(s: seq<Entry>, locs: seq<Loc>)
    requires Increasing(locs)
    requires forall e :: e in s ==> LocOf(e) in locs
    ensures Stock(locs, Bucket(s, locs)) == multiset(Boxes(s))
  {
    if s == [] {
      StockEmpty(locs, Bucket(s, locs));
    } else {
      var init, last := s[..|s| - 1], s[|s| - 1];
      assert s == init + [last];
      assert forall e :: e in init ==> e in s;
      StockOfBucket(init, locs);
      StockOfBucketStep(init, last, locs);
    }
  }

  /** `buildPiles` keeps every container of the snapshot, and only those. */
  lemma StockOfPiles(p: Patio)
    requires InYard(p)
    ensures Stock(Grid(p.bays, p.rows), PilesOf(p)) == multiset(Boxes(p.data))
  {
    var sorted := SortByPosition(p.data);
    SortSpec(p.data);
    GridShape(p.bays, p.rows);
    forall e | e in sorted
      ensures LocOf(e) in Grid(p.bays, p.rows)
    {
      assert e in multiset(p.data);
    }
    StockOfBucket(sorted, Grid(p.bays, p.rows));
  }
}
