/**
 * Two defects of the planner as written, and the planner with them
 * corrected.
 *
 * A full pile stays a candidate (lines 159-162 only comment on it): its
 * score lifts one container "to create room", yet lines 229-239 put every
 * lifted container back, so the pile ends one tier over the limit, the
 * log is longer than the estimate of line 167, and a container leaving
 * later ends up above the new one.
 *
 * The correction modelled here is one choice among several: it passes full
 * piles over. Leaving the extra lifted container parked, as the estimate of
 * line 167 suggests, would not be enough on its own: a full pile with at
 * least one blocking container lifts only the blocking ones and gets them
 * all back, so it still ends one tier over the limit.
 */
module Findings {
  import opened Yard
  import opened Sorting
  import opened Piles
  import opened Target
  import opened Rebuilding
  import opened Planner
  import opened Outcome

  /** Every pile of the snapshot is within the tier limit. */
  ghost predicate WithinLimit(p: Patio, piles: Piles) {
    forall l :: l in piles ==> |piles[l]| <= p.stacks
  }

  // ---------------------------------------------------------------------
  // As written
  // ---------------------------------------------------------------------

  /** A chosen pile that is already full ends over the tier limit, and
      whenever the score lifts more than the blocking containers the log
      is longer than the estimate. */
  lemma FullTargetOverflows(p: Patio, newC: Container)
    requires InYard(p)
    requires Best(p, PilesOf(p), newC.departure).Some?
    ensures var c := Best(p, PilesOf(p), newC.departure).value;
      var piles, t := PilesOf(p), LocOfChoice(c);
      && t in piles && c.needRemove <= |piles[t]|
      && (|piles[t]| >= p.stacks ==> |Final(piles, t, c.needRemove, newC)[t]| > p.stacks)
      && (c.needRemove > c.block ==> |Log(piles, t, c.needRemove, newC)| > c.moves)
  {
    ChosenPlan(p, newC);
  }

  /** Two bays of one row, two tiers: bay 1 holds A (leaves day 20) under
      C (day 15), bay 2 holds D (day 5). */
  function Sample(): Patio {
    Patio(2, 1, 2, [
      Entry(1, 1, 1, Container("A", 0, 20)),
      Entry(1, 1, 2, Container("C", 0, 15)),
      Entry(2, 1, 1, Container("D", 0, 5))])
  }

  /** The new container B leaves on day 10. */
  function NewB(): Container {
    Container("B", 0, 10)
  }

  lemma SamplePiles()
    ensures PilesOf(Sample()) == map[
      Loc(1, 1) := Sample().data[..2],
      Loc(2, 1) := Sample().data[2..]]
  {
    var s := Sample().data;
    var e0, e1, e2 := s[0], s[1], s[2];
    assert Sorted(s);
    SortOfSorted(s);
    assert Grid(2, 1) == [Loc(1, 1), Loc(2, 1)];
    assert s == [e0] + [e1] + [e2];
    assert s[..2] == [e0] + [e1] && s[2..] == [e2];
    forall l | l == Loc(1, 1) || l == Loc(2, 1)
      ensures Filter(s, l) == if l == Loc(1, 1) then s[..2] else s[2..]
    {
      FilterAppend([], e0, l);
      assert [] + [e0] == [e0];
      FilterAppend([e0], e1, l);
      FilterAppend([e0] + [e1], e2, l);
    }
  }

  lemma SampleGrid()
    ensures Grid(2, 1) == [Loc(1, 1), Loc(2, 1)]
  {
    assert Visited(1, 1, 1) == [Loc(1, 1)];
  }

  /** The free slots of a two-location yard outside one location are the
      other location's. */
  lemma FreeOfTwo(stacks: int, piles: Piles, a: Loc, b: Loc)
    requires a != b
    ensures FreeExcept([a, b], stacks, piles, a) == FreeAt(stacks, piles, b)
    ensures FreeExcept([a, b], stacks, piles, b) == FreeAt(stacks, piles, a)
  {
    FreeExceptAppend([a], b, stacks, piles, a);
    FreeExceptAppend([a], b, stacks, piles, b);
    FreeExceptAppend([], a, stacks, piles, a);
    FreeExceptAppend([], a, stacks, piles, b);
    assert [a] + [b] == [a, b] && [] + [a] == [a];
  }

  /** A two-location scan in which only the first location is eligible
      picks the first one. */
  lemma ScanOfTwo(p: Patio, piles: Piles, d: int, a: Loc, b: Loc)
    requires Eligible(p, piles, a, d, false) && !Eligible(p, piles, b, d, false)
    ensures Scan(p, piles, d, [a, b], false) == Some(Evaluate(p, piles, a, d))
  {
    ScanAppend(p, piles, d, [], a, false);
    assert [] + [a] == [a];
    ScanAppend(p, piles, d, [a], b, false);
    assert [a] + [b] == [a, b];
  }

  /** A 2 x 1 yard of two tiers whose bay 1 is full with a container on top
      that leaves after day `d`, and whose bay 2 holds one container that
      leaves no later than `d`. Bay 1: nothing blocks, but the pile is full,
      so one container is lifted, and bay 2 has the one free slot: two
      moves. Bay 2: its container blocks, but bay 1 has no room. So the scan
      picks bay 1. */
  lemma FullPileWins(p: Patio, piles: Piles, d: int)
    requires p.bays == 2 && p.rows == 1 && p.stacks == 2
    requires Loc(1, 1) in piles && Loc(2, 1) in piles
    requires |piles[Loc(1, 1)]| == 2 && piles[Loc(1, 1)][1].box.departure > d
    requires |piles[Loc(2, 1)]| == 1 && piles[Loc(2, 1)][0].box.departure <= d
    ensures Evaluate(p, piles, Loc(1, 1), d) == Choice(1, 1, 2, 0, 1)
    ensures Evaluate(p, piles, Loc(2, 1), d) == Choice(2, 1, 3, 1, 1)
    ensures Best(p, piles, d) == Some(Choice(1, 1, 2, 0, 1))
  {
    var a, b := Loc(1, 1), Loc(2, 1);
    SampleGrid();
    FreeOfTwo(2, piles, a, b);
    assert Blocking(piles[a], d) == 0;
    assert piles[b][..0] == [];
    assert Blocking(piles[b], d) == 1;
    ScanOfTwo(p, piles, d, a, b);
  }

  /** In the yard of `FullPileWins`, the plan lifts the top container of
      bay 1, places the new one and puts the lifted one back: bay 1 ends
      with three containers over a limit of two, the log has three lines
      against an estimate of two, and the container put back leaves later
      than the new one beneath it. */
  lemma FullPileOverflows(p: Patio, piles: Piles, newC: Container)
    requires p.bays == 2 && p.rows == 1 && p.stacks == 2
    requires Loc(1, 1) in piles && Loc(2, 1) in piles
    requires |piles[Loc(1, 1)]| == 2 && piles[Loc(1, 1)][1].box.departure > newC.departure
    requires |piles[Loc(2, 1)]| == 1 && piles[Loc(2, 1)][0].box.departure <= newC.departure
    ensures Best(p, piles, newC.departure) == Some(Choice(1, 1, 2, 0, 1))
    ensures Loc(1, 1) in Final(piles, Loc(1, 1), 1, newC)
    ensures |Final(piles, Loc(1, 1), 1, newC)[Loc(1, 1)]| == 3 > p.stacks
    ensures |Log(piles, Loc(1, 1), 1, newC)| == 3
    ensures !WellOrdered(Final(piles, Loc(1, 1), 1, newC)[Loc(1, 1)])
  {
    var t := Loc(1, 1);
    FullPileWins(p, piles, newC.departure);
    FinalPileAt(piles[t], t, 1, newC, 1);
    FinalPileAt(piles[t], t, 1, newC, 2);
    LogShape(piles, t, 1, newC);
  }

  /** On the sample, bay 1 (full, C on top leaving after B) wins with two
      moves over bay 2 (three moves, and no room elsewhere for D). The plan
      lifts C, places B and puts C back: bay 1 ends with three containers
      over a limit of two, the log has three lines against an estimate of
      two, and C, leaving on day 15, sits above B, leaving on day 10. */
  lemma SampleOverflows()
    ensures var p, piles := Sample(), PilesOf(Sample());
      && Loc(1, 1) in piles && |piles[Loc(1, 1)]| == 2
      && Best(p, piles, NewB().departure) == Some(Choice(1, 1, 2, 0, 1))
      && Loc(1, 1) in Final(piles, Loc(1, 1), 1, NewB())
      && |Final(piles, Loc(1, 1), 1, NewB())[Loc(1, 1)]| == 3 > p.stacks
      && |Log(piles, Loc(1, 1), 1, NewB())| == 3
      && !WellOrdered(Final(piles, Loc(1, 1), 1, NewB())[Loc(1, 1)])
  {
    SamplePiles();
    FullPileOverflows(Sample(), PilesOf(Sample()), NewB());
  }

  // ---------------------------------------------------------------------
  // Corrected: full piles are not candidates
  // ---------------------------------------------------------------------

  /** With full piles passed over, the scan keeps the first cheapest
      eligible pile that has room, and finds none only when there is none. */
  lemma BestFixedSpec(p: Patio, piles: Piles, d: int)
    ensures BestFixed(p, piles, d).None?
      <==> forall l :: InGrid(l, p.bays, p.rows) ==> !Eligible(p, piles, l, d, true)
    ensures BestFixed(p, piles, d).Some? ==>
      var c := BestFixed(p, piles, d).value;
      && InGrid(LocOfChoice(c), p.bays, p.rows)
      && Eligible(p, piles, LocOfChoice(c), d, true)
      && c == Evaluate(p, piles, LocOfChoice(c), d)
      && (forall l :: InGrid(l, p.bays, p.rows) && Eligible(p, piles, l, d, true) ==>
            c.moves <= Evaluate(p, piles, l, d).moves)
  {
    GridShape(p.bays, p.rows);
    ScanSpec(p, piles, d, Grid(p.bays, p.rows), true);
  }

  /** The planner with full piles passed over. */
  method PlanInsertionFixed(p: Patio, newC: Container) returns (r: Result<Plan>)
    requires InYard(p)
    ensures r.Err? <==> BestFixed(p, PilesOf(p), newC.departure).None?
    ensures r.Err? ==> r.error == NoCapacity
    ensures r.Ok? ==>
      var c := BestFixed(p, PilesOf(p), newC.departure).value;
      var piles, t := PilesOf(p), LocOfChoice(c);
      && t in piles && c.block <= |piles[t]|
      && r.value == Plan(Log(piles, t, c.block, newC), Layout(Grid(p.bays, p.rows), Final(piles, t, c.block, newC)))
  {
    var piles := BuildPiles(p);
    PilesShape(p);
    var choice := ChooseTarget(p, piles, newC, true);
    if choice.None? {
      return Err(NoCapacity);
    }
    var c := choice.value;
    var t := Loc(c.bay, c.row);
    BestFixedSpec(p, piles, newC.departure);
    ChoiceBounds(p, piles, t, newC.departure, true);
    r := Carry(p, piles, t, c.needRemove, newC);
  }

  /** The corrected plan keeps every pile within the tier limit, its log has
      exactly the estimated number of lines, and a well-ordered target
      stays well-ordered. */
  lemma FixedPlan(p: Patio, newC: Container)
    requires InYard(p) && WithinLimit(p, PilesOf(p))
    requires BestFixed(p, PilesOf(p), newC.departure).Some?
    ensures var c := BestFixed(p, PilesOf(p), newC.departure).value;
      var piles, t := PilesOf(p), LocOfChoice(c);
      && t in piles && c.needRemove == c.block <= |piles[t]|
      && WithinLimit(p, Final(piles, t, c.block, newC))
      && |Log(piles, t, c.block, newC)| == c.moves
      && (WellOrdered(piles[t]) ==> WellOrdered(Final(piles, t, c.block, newC)[t]))
  {
    var d := newC.departure;
    var piles := PilesOf(p);
    var c := BestFixed(p, piles, d).value;
    var t := LocOfChoice(c);
    assert InGrid(t, p.bays, p.rows) && Eligible(p, piles, t, d, true) && c == Evaluate(p, piles, t, d) by {
      BestFixedSpec(p, piles, d);
    }
    assert t in piles by {
      PilesShape(p);
    }
    ChoiceBounds(p, piles, t, d, true);
    assert |piles[t]| < p.stacks && c.needRemove == c.block;
    assert WithinLimit(p, Final(piles, t, c.block, newC)) by {
      FinalShape(piles, t, c.block, newC);
    }
    assert |Log(piles, t, c.block, newC)| == c.moves by {
      LogShape(piles, t, c.block, newC);
    }
    if WellOrdered(piles[t]) {
      InsertKeepsOrder(piles[t], t, newC);
    }
  }
}
