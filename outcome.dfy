/**
 * What an insertion plan does to the yard: the piles it leaves, the length
 * of its log, the containers the rebuilt list holds, and where the new
 * container ends up relative to the departures around it.
 */
module Outcome {
  import opened Yard
  import opened Piles
  import opened Target
  import opened Rebuilding
  import opened Planner

  /** Lines 199-240: only the pile at `t` changes. It keeps its bottom
      `h - k` containers, then holds the new container at tier `h - k + 1`,
      then the `k` lifted ones in their original order; it grows by one. */
  lemma FinalShape(piles: Piles, t: Loc, k: nat, newC: Container)
    requires t in piles && k <= |piles[t]|
    ensures var T, h, F := piles[t], |piles[t]|, Final(piles, t, k, newC);
      && F.Keys == piles.Keys
      && (forall l :: l in piles && l != t ==> F[l] == piles[l])
      && |F[t]| == h + 1
      && F[t][..h - k] == T[..h - k]
      && F[t][h - k] == Entry(t.bay, t.row, h - k + 1, newC)
      && Boxes(F[t][h - k + 1..]) == Boxes(T[h - k..])
  {
    var T, h, F := piles[t], |piles[t]|, Final(piles, t, k, newC);
    assert F[t][h - k + 1..] == Onto(t, h - k + 1, Boxes(T[h - k..]));
  }

  /** Lines 199-240: the log lifts the `k` top containers top first, places
      the new one, and returns the `k` in the reverse order of their lifting;
      it has `2k + 1` lines. */
  lemma LogShape(piles: Piles, t: Loc, k: nat, newC: Container)
    requires t in piles && k <= |piles[t]|
    ensures var T, h, L := piles[t], |piles[t]|, Log(piles, t, k, newC);
      && |L| == 2 * k + 1
      && (forall i :: 0 <= i < k ==> L[i] == Lift(T[h - 1 - i].box.code, PosOf(T[h - 1 - i])))
      && L[k] == Place(newC.code, Pos(t.bay, t.row, h - k + 1))
      && (forall i :: k < i <= 2 * k ==> L[i] == Restore(T[h - 2 * k - 1 + i].box.code, Pos(t.bay, t.row, h - 2 * k + 1 + i)))
  {
  }

  /** The boxes of the final pile are those of the original plus `newC`. */
  lemma FinalPileBoxes(pile: seq<Entry>, t: Loc, k: nat, newC: Container)
    requires k <= |pile|
    ensures multiset(Boxes(FinalPile(pile, t, k, newC))) == multiset(Boxes(pile)) + multiset{newC}
  {
    var h := |pile|;
    var low, top := pile[..h - k], pile[h - k..];
    var e := Entry(t.bay, t.row, h - k + 1, newC);
    var back := Onto(t, h - k + 1, Boxes(top));
    assert Boxes(back) == Boxes(top);
    BoxesAppend(low + [e], back);
    BoxesAppend(low, [e]);
    BoxesAppend(low, top);
    assert low + top == pile;
    assert Boxes([e]) == [newC];
  }

  /** Lines 242-253 with lines 116-128: the rebuilt list holds the
      snapshot's containers and the new one, and nothing else; so it has one
      entry more than the snapshot. */
  lemma PlanStock(p: Patio, t: Loc, k: nat, newC: Container)
    requires InYard(p) && InGrid(t, p.bays, p.rows)
    requires t in PilesOf(p) && k <= |PilesOf(p)[t]|
    ensures var data := Layout(Grid(p.bays, p.rows), Final(PilesOf(p), t, k, newC));
      && multiset(Boxes(data)) == multiset(Boxes(p.data)) + multiset{newC}
      && |data| == |p.data| + 1
  {
    var grid, piles := Grid(p.bays, p.rows), PilesOf(p);
    var F := Final(piles, t, k, newC);
    GridShape(p.bays, p.rows);
    LayoutStock(grid, F);
    StockUpdate(grid, piles, t, F[t]);
    StockOfPiles(p);
    FinalPileBoxes(piles[t], t, k, newC);
    var old_ := multiset(Boxes(piles[t]));
    assert Stock(grid, F) + old_ == multiset(Boxes(p.data)) + multiset{newC} + old_;
    Cancel(Stock(grid, F), multiset(Boxes(p.data)) + multiset{newC}, old_);
    var data := Layout(grid, F);
    assert |multiset(Boxes(data))| == |Boxes(data)| == |data|;
    assert |multiset(Boxes(p.data))| == |Boxes(p.data)| == |p.data|;
  }

  /** Lines 242-253: the rebuilt list is strictly ascending by (bay, row,
      tier), every entry is inside the grid, and reading it back into piles
      gives every pile with its tiers numbered 1, 2, ... in order. */
  lemma PlanLayout(p: Patio, piles: Piles)
    ensures var data := Layout(Grid(p.bays, p.rows), piles);
      var back := PilesOf(Patio(p.bays, p.rows, p.stacks, data));
      && StrictlySorted(data)
      && (forall e :: e in data ==> InGrid(LocOf(e), p.bays, p.rows) && e.stack >= 1)
      && (forall l :: l in back <==> InGrid(l, p.bays, p.rows))
      && (forall l :: l in back ==>
            |back[l]| == Height(piles, l) && Boxes(back[l]) == Boxes(PileAt(piles, l))
            && forall s :: 0 <= s < |back[l]| ==> back[l][s].stack == s + 1)
  {
    GridShape(p.bays, p.rows);
    LayoutSorted(Grid(p.bays, p.rows), piles);
    Reload(p, piles);
    forall l | InGrid(l, p.bays, p.rows)
      ensures Boxes(Tiers(l, PileAt(piles, l))) == Boxes(PileAt(piles, l))
    {
      TiersBoxes(l, PileAt(piles, l));
    }
  }

  /** Departures never increase from the bottom of a pile to its top: every
      container can leave without lifting one that leaves later. */
  predicate WellOrdered(pile: seq<Entry>) {
    forall i, j :: 0 <= i < j < |pile| ==> pile[i].box.departure >= pile[j].box.departure
  }

  /** The container at index `i` of the final pile. */
  lemma FinalPileAt(pile: seq<Entry>, t: Loc, k: nat, newC: Container, i: nat)
    requires k <= |pile| && i <= |pile|
    ensures FinalPile(pile, t, k, newC)[i].box ==
      if i < |pile| - k then pile[i].box else if i == |pile| - k then newC else pile[i - 1].box
  {
  }

  /** When the lifted containers are exactly the blocking ones, the new
      container sits right under every container that leaves no later than
      it and right above the first that leaves later; a well-ordered pile
      stays well-ordered. */
  lemma InsertKeepsOrder(pile: seq<Entry>, t: Loc, newC: Container)
    requires WellOrdered(pile)
    ensures WellOrdered(FinalPile(pile, t, Blocking(pile, newC.departure), newC))
  {
    var k := Blocking(pile, newC.departure);
    var h := |pile|;
    var F := FinalPile(pile, t, k, newC);
    forall i, j | 0 <= i < j < |F|
      ensures F[i].box.departure >= F[j].box.departure
    {
      FinalPileAt(pile, t, k, newC, i);
      FinalPileAt(pile, t, k, newC, j);
      if j == h - k && i < j {
        assert pile[i].box.departure >= pile[h - k - 1].box.departure;
      }
    }
  }

  /** Lines 186-256: the plan for the chosen location. The pile has the
      containers to lift, the other piles have room for them, the target
      ends one higher, and the log has `moves + (needRemove - block)` lines:
      one return per lifted container, where the estimate counts only
      `block` returns. */
  lemma ChosenPlan(p: Patio, newC: Container)
    requires InYard(p)
    requires Best(p, PilesOf(p), newC.departure).Some?
    ensures var c := Best(p, PilesOf(p), newC.departure).value;
      var piles, t := PilesOf(p), LocOfChoice(c);
      && InGrid(t, p.bays, p.rows) && t in piles
      && c.block <= c.needRemove <= |piles[t]|
      && FreeExcept(Grid(p.bays, p.rows), p.stacks, piles, t) >= c.needRemove
      && |Final(piles, t, c.needRemove, newC)[t]| == |piles[t]| + 1
      && |Log(piles, t, c.needRemove, newC)| == c.moves + (c.needRemove - c.block)
  {
    var d := newC.departure;
    var c := Best(p, PilesOf(p), d).value;
    PilesShape(p);
    BestSpec(p, PilesOf(p), d);
    ChoiceBounds(p, PilesOf(p), LocOfChoice(c), d, false);
    LogShape(PilesOf(p), LocOfChoice(c), c.needRemove, newC);
  }
}
