/**
 * Choosing where the new container goes: the blocking count of a pile
 * (`blockingTopCount`) and the scan over every location that keeps the
 * cheapest feasible one (`chooseTarget`).
 */
module Target {
  import opened Yard
  import opened Piles

  /** How many containers at the top of `pile` leave no later than day `d`:
      the top run that has to be lifted so that the new container can go
      beneath it. */
  function Blocking(pile: seq<Entry>, d: int): (c: nat)
    ensures c <= |pile|
    ensures forall k :: |pile| - c <= k < |pile| ==> pile[k].box.departure <= d
    ensures c < |pile| ==> pile[|pile| - 1 - c].box.departure > d
  {
    if pile == [] || pile[|pile| - 1].box.departure > d then 0
    else 1 + Blocking(pile[..|pile| - 1], d)
  }

  /** Lines 142-149: scan down from the top while the departure is not later
      than the new container's. */
  method BlockingTopCount(pile: seq<Entry>, newC: Container) returns (c: nat)
    ensures c == Blocking(pile, newC.departure)
  {
    c := 0;
    var i := |pile| - 1;
    while i >= 0
      invariant -1 <= i < |pile|
      invariant c == |pile| - 1 - i
      invariant Blocking(pile, newC.departure) == c + Blocking(pile[..i + 1], newC.departure)
    {
      assert pile[..i + 1][i] == pile[i];
      if pile[i].box.departure <= newC.departure {
        assert pile[..i + 1][..i] == pile[..i];
        c := c + 1;
      } else {
        break;
      }
      i := i - 1;
    }
    assert i >= 0 || pile[..i + 1] == [];
  }

  function Max(a: int, b: int): int {
    if a >= b then a else b
  }

  /** The record `{ b, r, moves, block, needRemove }` of line 178. */
  datatype Choice = Choice(bay: int, row: int, moves: int, block: nat, needRemove: nat)

  function LocOfChoice(c: Choice): Loc {
    Loc(c.bay, c.row)
  }

  /** Lines 158-167: the cost of putting the new container (departing on day
      `d`) on the pile at `l`. */
  function Evaluate(p: Patio, piles: Piles, l: Loc, d: int): Choice {
    var h := Height(piles, l);
    var block := Blocking(PileAt(piles, l), d);
    var needRemove := Max(block, Max(0, h - (p.stacks - 1)));
    Choice(l.bay, l.row, needRemove + 1 + block, block, needRemove)
  }

  /** Lines 169-176: the other piles have room for every container lifted
      off `l`. When `skipFull` holds, a full pile is not a candidate either. */
  predicate Eligible(p: Patio, piles: Piles, l: Loc, d: int, skipFull: bool) {
    && FreeExcept(Grid(p.bays, p.rows), p.stacks, piles, l) >= Evaluate(p, piles, l, d).needRemove
    && (skipFull ==> Height(piles, l) < p.stacks)
  }

  /** Lines 169-180 for one location: `l` replaces the current best only when
      it is eligible and costs strictly less. */
  function Step(p: Patio, piles: Piles, d: int, best: Option<Choice>, l: Loc, skipFull: bool): Option<Choice> {
    if !Eligible(p, piles, l, d, skipFull) then best
    else if best.None? || Evaluate(p, piles, l, d).moves < best.value.moves then Some(Evaluate(p, piles, l, d))
    else best
  }

  /** `best` once the scan has visited `locs`. */
  function Scan(p: Patio, piles: Piles, d: int, locs: seq<Loc>, skipFull: bool): Option<Choice> {
    if locs == [] then None
    else Step(p, piles, d, Scan(p, piles, d, locs[..|locs| - 1], skipFull), locs[|locs| - 1], skipFull)
  }

  /** What `chooseTarget` returns. */
  function Best(p: Patio, piles: Piles, d: int): Option<Choice> {
    Scan(p, piles, d, Grid(p.bays, p.rows), false)
  }

  /** The scan with full piles passed over. */
  function BestFixed(p: Patio, piles: Piles, d: int): Option<Choice> {
    Scan(p, piles, d, Grid(p.bays, p.rows), true)
  }

  lemma ScanAppend(p: Patio, piles: Piles, d: int, locs: seq<Loc>, l: Loc, skipFull: bool)
    ensures Scan(p, piles, d, locs + [l], skipFull) == Step(p, piles, d, Scan(p, piles, d, locs, skipFull), l, skipFull)
  {
    assert (locs + [l])[..|locs|] == locs;
  }

  /** One step of the scan, in the terms `chooseTarget` computes: the pile's
      height `h`, its record `c` and the free slots `free` of the others. */
  lemma ScanStep(p: Patio, piles: Piles, d: int, best: Option<Choice>, l: Loc, skipFull: bool, h: nat, c: Choice, free: nat)
    requires h == Height(piles, l) && c == Evaluate(p, piles, l, d)
    requires free == FreeExcept(Grid(p.bays, p.rows), p.stacks, piles, l)
    ensures Step(p, piles, d, best, l, skipFull) ==
      if (!skipFull || h < p.stacks) && free >= c.needRemove && (best.None? || c.moves < best.value.moves)
      then Some(c) else best
  {
  }

  /** The scan keeps the first cheapest eligible location, and finds none
      only when no location is eligible. */
  lemma {:induction false} ScanSpec(p: Patio, piles: Piles, d: int, locs: seq<Loc>, skipFull: bool)
    requires Increasing(locs)
    ensures Scan(p, piles, d, locs, skipFull).None?
      <==> forall l :: l in locs ==> !Eligible(p, piles, l, d, skipFull)
    ensures Scan(p, piles, d, locs, skipFull).Some? ==>
      var c := Scan(p, piles, d, locs, skipFull).value;
      && LocOfChoice(c) in locs
      && Eligible(p, piles, LocOfChoice(c), d, skipFull)
      && c == Evaluate(p, piles, LocOfChoice(c), d)
      && (forall l :: l in locs && Eligible(p, piles, l, d, skipFull) ==> c.moves <= Evaluate(p, piles, l, d).moves)
      && (forall l :: l in locs && Eligible(p, piles, l, d, skipFull) && Before(l, LocOfChoice(c)) ==>
            c.moves < Evaluate(p, piles, l, d).moves)
  {
    if locs != [] {
      var init, last := locs[..|locs| - 1], locs[|locs| - 1];
      assert locs == init + [last];
      IncreasingInit(locs);
      ScanSpec(p, piles, d, init, skipFull);
      forall l | l in init
        ensures Before(l, last)
      {
        var k :| 0 <= k < |init| && init[k] == l;
        assert locs[k] == l;
      }
      var prev := Scan(p, piles, d, init, skipFull);
      var e := Evaluate(p, piles, last, d);
      ScanAppend(p, piles, d, init, last, skipFull);
      if !Eligible(p, piles, last, d, skipFull) {
        assert Scan(p, piles, d, locs, skipFull) == prev;
      } else if prev.None? || e.moves < prev.value.moves {
        assert Scan(p, piles, d, locs, skipFull) == Some(e);
        forall l | l in locs && Eligible(p, piles, l, d, skipFull)
          ensures e.moves <= Evaluate(p, piles, l, d).moves
          ensures Before(l, last) ==> e.moves < Evaluate(p, piles, l, d).moves
        {
          if l != last {
            assert l in init;
          }
        }
      } else {
        assert Scan(p, piles, d, locs, skipFull) == prev;
        var c := prev.value;
        assert Before(LocOfChoice(c), last);
        forall l | l in locs && Eligible(p, piles, l, d, skipFull) && Before(l, LocOfChoice(c))
          ensures c.moves < Evaluate(p, piles, l, d).moves
        {
          if l == last {
            assert false;
          }
          assert l in init;
        }
      }
    }
  }

  /** `chooseTarget` returns null exactly when no location is feasible;
      otherwise it returns the record of a feasible location whose move count
      is the least over all feasible locations, and no feasible location
      earlier in bay-then-row order has that move count. */
  lemma BestSpec(p: Patio, piles: Piles, d: int)
    ensures Best(p, piles, d).None?
      <==> forall l :: InGrid(l, p.bays, p.rows) ==> !Eligible(p, piles, l, d, false)
    ensures Best(p, piles, d).Some? ==>
      var c := Best(p, piles, d).value;
      && InGrid(LocOfChoice(c), p.bays, p.rows)
      && Eligible(p, piles, LocOfChoice(c), d, false)
      && c == Evaluate(p, piles, LocOfChoice(c), d)
      && (forall l :: InGrid(l, p.bays, p.rows) && Eligible(p, piles, l, d, false) ==>
            c.moves <= Evaluate(p, piles, l, d).moves)
      && (forall l :: InGrid(l, p.bays, p.rows) && Eligible(p, piles, l, d, false) && Before(l, LocOfChoice(c)) ==>
            c.moves < Evaluate(p, piles, l, d).moves)
  {
    GridShape(p.bays, p.rows);
    ScanSpec(p, piles, d, Grid(p.bays, p.rows), false);
  }

  /** With no capacity at all (tiers of zero or fewer) nothing is free. */
  lemma NoTiersNoFree(locs: seq<Loc>, stacks: int, piles: Piles, t: Loc)
    requires stacks <= 0
    ensures FreeExcept(locs, stacks, piles, t) == 0
  {
    NoFreeExcept(locs, stacks, piles, t);
  }

  /** The record of an eligible location: `block <= needRemove <= h`, so the
      pile always has the containers to lift (the `break` of line 201 is never
      taken), the other piles have `needRemove` free slots, and
      `moves = needRemove + 1 + block`. */
  lemma ChoiceBounds(p: Patio, piles: Piles, l: Loc, d: int, skipFull: bool)
    requires Eligible(p, piles, l, d, skipFull)
    ensures var c := Evaluate(p, piles, l, d);
      && c.block == Blocking(PileAt(piles, l), d)
      && c.block <= c.needRemove <= Height(piles, l)
      && c.moves == c.needRemove + 1 + c.block
      && FreeExcept(Grid(p.bays, p.rows), p.stacks, piles, l) >= c.needRemove
      && (c.needRemove > c.block ==> Height(piles, l) >= p.stacks)
  {
    if p.stacks <= 0 {
      NoTiersNoFree(Grid(p.bays, p.rows), p.stacks, piles, l);
    }
  }

  /** A yard with no free slot at all gets no target. */
  lemma NoFreeNoTarget(p: Patio, piles: Piles, d: int)
    requires FreeIn(Grid(p.bays, p.rows), p.stacks, piles) == 0
    ensures Best(p, piles, d) == None
  {
    GridShape(p.bays, p.rows);
    forall l | InGrid(l, p.bays, p.rows)
      ensures !Eligible(p, piles, l, d, false)
    {
      FreeSplit(Grid(p.bays, p.rows), p.stacks, piles, l);
      assert FreeAt(p.stacks, piles, l) == 0;
      assert Evaluate(p, piles, l, d).needRemove >= 1;
    }
    BestSpec(p, piles, d);
  }

  /** Lines 158-175: the cost record of the pile at `l` and the free slots
      of the other piles. */
  method EvaluateAt(p: Patio, piles: Piles, newC: Container, l: Loc) returns (c: Choice, free: nat)
    requires Covers(p, piles) && InGrid(l, p.bays, p.rows)
    ensures c == Evaluate(p, piles, l, newC.departure)
    ensures free == FreeExcept(Grid(p.bays, p.rows), p.stacks, piles, l)
  {
    var pile := piles[l];
    var h := |pile|;
    var block := BlockingTopCount(pile, newC);
    var extraToFreeSpace := Max(0, h - (p.stacks - 1));
    var needRemove := Max(block, extraToFreeSpace);
    var moves := needRemove + 1 + block;
    free := FreeElsewhere(p, piles, l);
    c := Choice(l.bay, l.row, moves, block, needRemove);
  }

  /** Lines 155-181, one location: evaluate the pile at `l` and keep it when
      it is feasible and strictly cheaper than the best so far. */
  method Consider(p: Patio, piles: Piles, newC: Container, skipFull: bool, l: Loc, best: Option<Choice>)
    returns (next: Option<Choice>)
    requires Covers(p, piles) && InGrid(l, p.bays, p.rows)
    ensures next == Step(p, piles, newC.departure, best, l, skipFull)
  {
    var c, free := EvaluateAt(p, piles, newC, l);
    var h := |piles[l]|;
    ScanStep(p, piles, newC.departure, best, l, skipFull, h, c, free);
    next := best;
    if (!skipFull || h < p.stacks) && free >= c.needRemove && (best.None? || c.moves < best.value.moves) {
      next := Some(c);
    }
  }

  /** Lines 152-183: visit every location bay by bay, row by row, and keep
      the first feasible one with the fewest moves. With `skipFull` a full
      pile is passed over, where the source's empty block of lines 159-162
      stands. */
  method ChooseTarget(p: Patio, piles: Piles, newC: Container, skipFull: bool) returns (best: Option<Choice>)
    requires Covers(p, piles)
    ensures best == Scan(p, piles, newC.departure, Grid(p.bays, p.rows), skipFull)
  {
    best := None;
    for b := 1 to p.bays + 1
      invariant best == Scan(p, piles, newC.departure, Visited(p.rows, b - 1, p.rows), skipFull)
    {
      for r := 1 to p.rows + 1
        invariant best == Scan(p, piles, newC.departure, Visited(p.rows, b, r - 1), skipFull)
      {
        ScanAppend(p, piles, newC.departure, Visited(p.rows, b, r - 1), Loc(b, r), skipFull);
        best := Consider(p, piles, newC, skipFull, Loc(b, r), best);
      }
    }
  }
}
