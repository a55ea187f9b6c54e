/**
 * Planning the insertion of one container (`planInsertion`): lift the top
 * of the chosen pile onto the first piles with room, place the new
 * container, put the lifted ones back in reverse order, and rebuild the
 * yard's flat entry list.
 */
module Planner {
  import opened Yard
  import opened Sorting
  import opened Piles
  import opened Target
  import opened Rebuilding

  /** A bay / row / tier position as a log line shows it. */
  datatype Pos = Pos(bay: int, row: int, stack: int)

  /** One line of the moves log. */
  datatype Move =
    | Lift(code: string, from: Pos)    // "code → Bay b Row r (Tier s)", line 203
    | Place(code: string, at: Pos)     // "code ← Bay b Row r (Tier s)", line 227
    | Restore(code: string, at: Pos)   // "code ← Bay b Row r (Tier s)", line 238

  /** The two errors the planner throws. */
  datatype Error =
    | NoCapacity          // line 189, "Sem capacidade temporária para inserir."
    | AllocationFailure   // line 218, "Falha ao alocar temporários."

  datatype Result<T> = Ok(value: T) | Err(error: Error)

  /** What `planInsertion` returns: `{ moves, data }`. */
  datatype Plan = Plan(moves: seq<Move>, data: seq<Entry>)

  function PosOf(e: Entry): Pos {
    Pos(e.bay, e.row, e.stack)
  }

  function Min(a: int, b: int): int {
    if a <= b then a else b
  }

  // ---------------------------------------------------------------------
  // Parking (lines 195-219)
  // ---------------------------------------------------------------------

  /** `l` is the first pile in bay-then-row order, other than `t`, with room
      for one more container. */
  ghost predicate FirstFit(p: Patio, piles: Piles, t: Loc, l: Loc) {
    && InGrid(l, p.bays, p.rows) && l != t && Height(piles, l) < p.stacks
    && forall m :: InGrid(m, p.bays, p.rows) && m != t && Before(m, l) ==> Height(piles, m) >= p.stacks
  }

  /** Lines 205-216: the first pile other than the target that is not full. */
  method FindBuffer(p: Patio, piles: Piles, t: Loc) returns (found: Option<Loc>)
    requires Covers(p, piles)
    ensures found.None? <==> FreeExcept(Grid(p.bays, p.rows), p.stacks, piles, t) == 0
    ensures found.Some? ==> FirstFit(p, piles, t, found.value)
  {
    found := None;
    var b := 1;
    while b <= p.bays && found.None?
      invariant 1 <= b <= p.bays + 1
      invariant found.None? ==>
        forall m :: InGrid(m, p.bays, p.rows) && m.bay < b && m != t ==> Height(piles, m) >= p.stacks
      invariant found.Some? ==> FirstFit(p, piles, t, found.value)
    {
      var r := 1;
      while r <= p.rows && found.None?
        invariant 1 <= r <= p.rows + 1
        invariant found.None? ==>
          forall m :: InGrid(m, p.bays, p.rows) && (m.bay < b || (m.bay == b && m.row < r)) && m != t ==>
            Height(piles, m) >= p.stacks
        invariant found.Some? ==> FirstFit(p, piles, t, found.value)
      {
        if Loc(b, r) != t {
          assert InGrid(Loc(b, r), p.bays, p.rows);
          if |piles[Loc(b, r)]| < p.stacks {
            found := Some(Loc(b, r));
          }
        }
        r := r + 1;
      }
      b := b + 1;
    }
    GridShape(p.bays, p.rows);
    NoFreeExcept(Grid(p.bays, p.rows), p.stacks, piles, t);
  }

  /** `c` stacked on the pile at `l`, at the tier above its current top. */
  function Push(piles: Piles, l: Loc, c: Container): Piles {
    piles[l := PileAt(piles, l) + [Entry(l.bay, l.row, Height(piles, l) + 1, c)]]
  }

  /** The piles once `items[j]` has been parked on `dest[j]`, for each `j` in turn. */
  function Park(piles: Piles, dest: seq<Loc>, items: seq<Entry>): Piles
    requires |dest| == |items|
  {
    if dest == [] then piles
    else Push(Park(piles, dest[..|dest| - 1], items[..|items| - 1]), dest[|dest| - 1], items[|items| - 1].box)
  }

  /** The `n` top entries of `pile`, topmost first: the order of the pops. */
  function Top(pile: seq<Entry>, n: nat): seq<Entry>
    requires n <= |pile|
  {
    seq(n, i requires 0 <= i < n => pile[|pile| - 1 - i])
  }

  /** The log lines of lifting the `n` top entries of `pile`. */
  function Lifts(pile: seq<Entry>, n: nat): seq<Move>
    requires n <= |pile|
  {
    seq(n, i requires 0 <= i < n => Lift(pile[|pile| - 1 - i].box.code, PosOf(pile[|pile| - 1 - i])))
  }

  /** One more park, in terms of the parks before it. */
  lemma ParkStep(piles0: Piles, T: seq<Entry>, dest: seq<Loc>, i: nat, l: Loc)
    requires |dest| == i < |T|
    ensures Park(piles0, dest + [l], Top(T, i + 1)) == Push(Park(piles0, dest, Top(T, i)), l, T[|T| - 1 - i].box)
  {
    assert (dest + [l])[..i] == dest;
    assert Top(T, i + 1)[..i] == Top(T, i);
  }

  lemma LiftsStep(T: seq<Entry>, i: nat)
    requires i < |T|
    ensures Lifts(T, i + 1) == Lifts(T, i) + [Lift(T[|T| - 1 - i].box.code, PosOf(T[|T| - 1 - i]))]
  {
  }

  /** Parking one container on a pile with room, other than `t`, takes one
      free slot outside `t`. */
  lemma FreeAfterPush(locs: seq<Loc>, stacks: int, piles: Piles, t: Loc, l: Loc, c: Container)
    requires Increasing(locs) && l in locs && l != t && Height(piles, l) < stacks
    ensures FreeExcept(locs, stacks, Push(piles, l, c), t) + 1 == FreeExcept(locs, stacks, piles, t)
  {
    FreeExceptChange(locs, stacks, piles, Push(piles, l, c), t, l);
  }

  /** The state of the parking loop after `i` containers have been parked on
      `dest`: the other piles are the original ones with those pushes, every
      destination is a pile of the grid other than `t`, and each park used up
      one free slot outside `t`. */
  ghost predicate Parking(p: Patio, piles0: Piles, t: Loc, i: nat, piles: Piles, dest: seq<Loc>)
    requires t in piles0
  {
    && i <= |piles0[t]| && |dest| == i
    && (forall d :: d in dest ==> d != t && InGrid(d, p.bays, p.rows))
    && piles == Park(piles0, dest, Top(piles0[t], i))
    && Covers(p, piles)
    && FreeExcept(Grid(p.bays, p.rows), p.stacks, piles, t) + i == FreeExcept(Grid(p.bays, p.rows), p.stacks, piles0, t)
  }

  /** Every pile other than `t` that parking has grown is within the tier
      limit. */
  ghost predicate BuffersWithin(stacks: int, piles0: Piles, t: Loc, piles: Piles) {
    forall l :: l != t && Height(piles, l) != Height(piles0, l) ==> Height(piles, l) <= stacks
  }

  /** Parking the next container on the first pile with room keeps `Parking`. */
  lemma ParkingStep(p: Patio, piles0: Piles, t: Loc, i: nat, piles: Piles, dest: seq<Loc>, l: Loc)
    requires t in piles0 && Parking(p, piles0, t, i, piles, dest) && i < |piles0[t]|
    requires FirstFit(p, piles, t, l)
    ensures Parking(p, piles0, t, i + 1, Push(piles, l, piles0[t][|piles0[t]| - 1 - i].box), dest + [l])
  {
    var T := piles0[t];
    var c := T[|T| - 1 - i].box;
    GridShape(p.bays, p.rows);
    ParkStep(piles0, T, dest, i, l);
    FreeAfterPush(Grid(p.bays, p.rows), p.stacks, piles, t, l, c);
  }

  /** A push onto a pile with room, other than `t`, keeps every grown
      buffer pile within the tier limit. */
  lemma PushWithin(stacks: int, piles0: Piles, t: Loc, piles: Piles, l: Loc, c: Container)
    requires BuffersWithin(stacks, piles0, t, piles)
    requires l != t && Height(piles, l) < stacks
    ensures BuffersWithin(stacks, piles0, t, Push(piles, l, c))
  {
    var next := Push(piles, l, c);
    forall m | m != t && Height(next, m) != Height(piles0, m)
      ensures Height(next, m) <= stacks
    {
      if m != l {
        assert PileAt(next, m) == PileAt(piles, m);
      }
    }
  }

  /** Lines 205-218 for one lifted container `c`, the `i`-th off the pile at
      `t`: park it on the first pile with room, or report that the other
      piles are full. */
  method ParkNext(p: Patio, piles0: Piles, t: Loc, i: nat, piles: Piles, dest: seq<Loc>, c: Entry)
    returns (parked: Option<(Piles, seq<Loc>)>)
    requires t in piles0 && Parking(p, piles0, t, i, piles, dest)
    requires i < |piles0[t]| && c == piles0[t][|piles0[t]| - 1 - i]
    requires BuffersWithin(p.stacks, piles0, t, piles)
    requires FirstFits(p, piles0, t, dest)
    ensures parked.None? <==> FreeExcept(Grid(p.bays, p.rows), p.stacks, piles0, t) == i
    ensures parked.Some? ==> Parking(p, piles0, t, i + 1, parked.value.0, parked.value.1)
    ensures parked.Some? ==> BuffersWithin(p.stacks, piles0, t, parked.value.0)
    ensures parked.Some? ==>
      |parked.value.1| == i + 1 && parked.value.1[..i] == dest && FirstFit(p, piles, t, parked.value.1[i])
    ensures parked.Some? ==> FirstFits(p, piles0, t, parked.value.1)
  {
    var found := FindBuffer(p, piles, t);
    if found.None? {
      return None;
    }
    var l := found.value;
    var next := piles[l := piles[l] + [Entry(l.bay, l.row, |piles[l]| + 1, c.box)]];
    var dest' := dest + [l];
    assert next == Push(piles, l, c.box);
    assert dest'[..i] == dest && dest'[i] == l;
    ParkingStep(p, piles0, t, i, piles, dest, l);
    PushWithin(p.stacks, piles0, t, piles, l, c.box);
    return Some((next, dest'));
  }

  /** Each lifted container so far went to the first pile with room, other
      than `t`, at the moment it was parked. */
  ghost predicate FirstFits(p: Patio, piles0: Piles, t: Loc, dest: seq<Loc>)
    requires t in piles0 && |dest| <= |piles0[t]|
    decreases |dest|
  {
    var i := |dest| - 1;
    dest == [] || (FirstFits(p, piles0, t, dest[..i]) && FirstFit(p, Park(piles0, dest[..i], Top(piles0[t], i)), t, dest[i]))
  }

  /** The state of the loop of lines 199-219 after `i` pops off the pile at
      `t`: `targetPile` is what is left of it, `moves` logs the lifts, and
      the popped containers sit on `dest`, each parked first-fit. */
  ghost predicate Lifting(p: Patio, piles0: Piles, t: Loc, i: nat, piles: Piles, dest: seq<Loc>,
                          targetPile: seq<Entry>, moves: seq<Move>)
    requires t in piles0
  {
    && Parking(p, piles0, t, i, piles, dest)
    && BuffersWithin(p.stacks, piles0, t, piles)
    && FirstFits(p, piles0, t, dest)
    && targetPile == piles0[t][..|piles0[t]| - i]
    && moves == Lifts(piles0[t], i)
  }

  /** Lines 200-218, one turn of the loop: pop the top of `targetPile`, log
      its lift and park it on the first pile with room. It fails exactly when
      the free slots outside `t` are used up. */
  method LiftNext(p: Patio, piles0: Piles, t: Loc, i: nat, piles: Piles, dest: seq<Loc>,
                  targetPile: seq<Entry>, moves: seq<Move>)
    returns (next: Option<(Piles, seq<Loc>, seq<Entry>, seq<Move>)>)
    requires t in piles0 && Lifting(p, piles0, t, i, piles, dest, targetPile, moves) && targetPile != []
    ensures next.None? <==> FreeExcept(Grid(p.bays, p.rows), p.stacks, piles0, t) == i
    ensures next.Some? ==>
      var (piles', dest', targetPile', moves') := next.value;
      Lifting(p, piles0, t, i + 1, piles', dest', targetPile', moves')
  {
    ghost var T := piles0[t];
    var c := targetPile[|targetPile| - 1];
    var rest := targetPile[..|targetPile| - 1];
    assert c == T[|T| - 1 - i] && rest == T[..|T| - i - 1];
    LiftsStep(T, i);
    var parked := ParkNext(p, piles0, t, i, piles, dest, c);
    if parked.None? {
      return None;
    }
    return Some((parked.value.0, parked.value.1, rest, moves + [Lift(c.box.code, PosOf(c))]));
  }

  /** After `k` turns the loop state gives the outcome `ParkTop` promises:
      the target pile cut down by `k`, the others with the `k` parks. */
  lemma LiftingDone(p: Patio, piles0: Piles, t: Loc, k: nat, piles: Piles, dest: seq<Loc>,
                    targetPile: seq<Entry>, moves: seq<Move>)
    requires t in piles0 && Lifting(p, piles0, t, k, piles, dest, targetPile, moves)
    ensures var T := piles0[t];
      && |dest| == k
      && (forall d :: d in dest ==> d != t && InGrid(d, p.bays, p.rows))
      && piles[t := targetPile] == Park(piles0, dest, Top(T, k))[t := T[..|T| - k]]
      && moves == Lifts(T, k)
      && BuffersWithin(p.stacks, piles0, t, piles[t := targetPile])
      && FirstFits(p, piles0, t, dest)
  {
  }

  /** What the parking loop leaves behind. */
  datatype Parked = Parked(piles: Piles, moves: seq<Move>, dest: seq<Loc>)

  /** Lines 195-219: pop up to `n` containers off the pile at `t` (fewer if it
      runs empty, line 201) and park each on the first pile with room. The
      parking fails exactly when the other piles have fewer free slots than
      containers to lift. */
  method ParkTop(p: Patio, piles0: Piles, t: Loc, n: nat) returns (res: Result<Parked>)
    requires Covers(p, piles0) && InGrid(t, p.bays, p.rows)
    ensures res.Ok? <==> FreeExcept(Grid(p.bays, p.rows), p.stacks, piles0, t) >= Min(n, Height(piles0, t))
    ensures res.Err? ==> res.error == AllocationFailure
    ensures res.Ok? ==>
      var T, k, dest := piles0[t], Min(n, Height(piles0, t)), res.value.dest;
      && |dest| == k
      && (forall d :: d in dest ==> d != t && InGrid(d, p.bays, p.rows))
      && res.value.piles == Park(piles0, dest, Top(T, k))[t := T[..|T| - k]]
      && res.value.moves == Lifts(T, k)
      && BuffersWithin(p.stacks, piles0, t, res.value.piles)
      && FirstFits(p, piles0, t, dest)
  {
    ghost var h := |piles0[t]|;
    var piles := piles0;
    var targetPile := piles0[t];
    var moves: seq<Move> := [];
    var dest: seq<Loc> := [];
    var i := 0;
    assert piles0[t][..h] == piles0[t];
    while i < n
      invariant i <= n
      invariant Lifting(p, piles0, t, i, piles, dest, targetPile, moves)
    {
      if targetPile == [] {
        break;
      }
      var next := LiftNext(p, piles0, t, i, piles, dest, targetPile, moves);
      if next.None? {
        assert i < Min(n, Height(piles0, t));
        return Err(AllocationFailure);
      }
      piles, dest, targetPile, moves := next.value.0, next.value.1, next.value.2, next.value.3;
      i := i + 1;
    }
    assert Height(piles0, t) == h && i == Min(n, h);
    LiftingDone(p, piles0, t, i, piles, dest, targetPile, moves);
    return Ok(Parked(piles[t := targetPile], moves, dest));
  }

  // ---------------------------------------------------------------------
  // Putting the lifted containers back (lines 229-240)
  // ---------------------------------------------------------------------

  /** Parking never removes a pile from the map. */
  lemma {:induction false} ParkKeys(piles: Piles, dest: seq<Loc>, items: seq<Entry>, l: Loc)
    requires |dest| == |items| && l in piles
    ensures l in Park(piles, dest, items)
  {
    if dest != [] {
      ParkKeys(piles, dest[..|dest| - 1], items[..|items| - 1], l);
    }
  }

  /** Parking leaves every pile that is not a destination as it was. */
  lemma {:induction false} ParkElsewhere(piles: Piles, dest: seq<Loc>, items: seq<Entry>, l: Loc)
    requires |dest| == |items| && l !in dest
    ensures PileAt(Park(piles, dest, items), l) == PileAt(piles, l)
  {
    if dest != [] {
      var init := dest[..|dest| - 1];
      assert l !in init by {
        assert forall k :: 0 <= k < |init| ==> init[k] == dest[k];
      }
      ParkElsewhere(piles, init, items[..|items| - 1], l);
    }
  }

  /** Parking commutes with replacing a pile that is not a destination. */
  lemma {:induction false} ParkOther(piles: Piles, dest: seq<Loc>, items: seq<Entry>, t: Loc, x: seq<Entry>)
    requires |dest| == |items| && t !in dest
    ensures Park(piles[t := x], dest, items) == Park(piles, dest, items)[t := x]
  {
    if dest != [] {
      var init := dest[..|dest| - 1];
      assert t !in init by {
        assert forall k :: 0 <= k < |init| ==> init[k] == dest[k];
      }
      ParkOther(piles, init, items[..|items| - 1], t, x);
    }
  }

  /** Popping the pile the `i`-th container was parked on gives that
      container back and undoes its park. */
  lemma PopStep(base: Piles, dest: seq<Loc>, items: seq<Entry>, i: nat)
    requires |dest| == |items| && 0 < i <= |dest|
    requires forall d :: d in dest ==> d in base
    ensures var m, l := Park(base, dest[..i], items[..i]), dest[i - 1];
      && l in m && |m[l]| > 0
      && m[l][|m[l]| - 1].box == items[i - 1].box
      && m[l := m[l][..|m[l]| - 1]] == Park(base, dest[..i - 1], items[..i - 1])
  {
    var l := dest[i - 1];
    assert dest[..i][..i - 1] == dest[..i - 1];
    assert items[..i][..i - 1] == items[..i - 1];
    var m0 := Park(base, dest[..i - 1], items[..i - 1]);
    ParkKeys(base, dest[..i - 1], items[..i - 1], l);
    assert Park(base, dest[..i], items[..i]) == Push(m0, l, items[i - 1].box);
  }

  /** The containers to put back once the `i` deepest lifted ones are still
      parked: the ones lifted after them, last lifted first. */
  function Unstack(items: seq<Entry>, i: nat): seq<Container>
    requires i <= |items|
  {
    seq(|items| - i, j requires 0 <= j < |items| - i => items[|items| - 1 - j].box)
  }

  /** `boxes` stacked on a pile at `t` holding `start` containers. */
  function Onto(t: Loc, start: int, boxes: seq<Container>): seq<Entry> {
    seq(|boxes|, j requires 0 <= j < |boxes| => Entry(t.bay, t.row, start + j + 1, boxes[j]))
  }

  /** The log lines of stacking `boxes` on a pile at `t` holding `start` containers. */
  function Restores(t: Loc, start: int, boxes: seq<Container>): seq<Move> {
    seq(|boxes|, j requires 0 <= j < |boxes| => Restore(boxes[j].code, Pos(t.bay, t.row, start + j + 1)))
  }

  lemma UnstackStep(items: seq<Entry>, i: nat)
    requires 0 < i <= |items|
    ensures Unstack(items, i - 1) == Unstack(items, i) + [items[i - 1].box]
  {
  }

  lemma OntoStep(t: Loc, start: int, boxes: seq<Container>, c: Container)
    ensures Onto(t, start, boxes + [c]) == Onto(t, start, boxes) + [Entry(t.bay, t.row, start + |boxes| + 1, c)]
    ensures Restores(t, start, boxes + [c]) == Restores(t, start, boxes) + [Restore(c.code, Pos(t.bay, t.row, start + |boxes| + 1))]
  {
  }

  /** The state of the restoring loop once the containers parked on
      `dest[i..]` are back on `t`. */
  ghost predicate Restoring(base: Piles, t: Loc, dest: seq<Loc>, items: seq<Entry>, i: nat, res: Piles, moves: seq<Move>)
    requires |dest| == |items| && i <= |dest| && t in base
  {
    && res == Park(base, dest[..i], items[..i])[t := base[t] + Onto(t, |base[t]|, Unstack(items, i))]
    && moves == Restores(t, |base[t]|, Unstack(items, i))
  }

  /** Popping pile `from` and then pushing `e` on pile `t` of `parked` with
      `t` replaced by `onT`, in map terms. */
  lemma PopPush(parked: Piles, next: Piles, from: Loc, t: Loc, onT: seq<Entry>, e: Entry)
    requires from != t && from in parked && |parked[from]| > 0
    requires parked[from := parked[from][..|parked[from]| - 1]] == next
    ensures var res := parked[t := onT];
      && from in res && res[from] == parked[from]
      && var popped := res[from := res[from][..|res[from]| - 1]];
         t in popped && popped[t] == onT && popped[t := onT + [e]] == next[t := onT + [e]]
  {
  }

  /** One turn of the restoring loop keeps `Restoring`. */
  lemma RestoreStep(base: Piles, t: Loc, dest: seq<Loc>, items: seq<Entry>, i: nat, res: Piles, moves: seq<Move>)
    requires |dest| == |items| && 0 < i <= |dest| && t in base
    requires forall d :: d in dest ==> d != t && d in base
    requires Restoring(base, t, dest, items, i, res, moves)
    ensures var from := dest[i - 1];
      && from in res && |res[from]| > 0
      && var c := res[from][|res[from]| - 1];
         var popped := res[from := res[from][..|res[from]| - 1]];
         && t in popped
         && Restoring(base, t, dest, items, i - 1,
              popped[t := popped[t] + [Entry(t.bay, t.row, |popped[t]| + 1, c.box)]],
              moves + [Restore(c.box.code, Pos(t.bay, t.row, |popped[t]| + 1))])
  {
    var start := |base[t]|;
    PopStep(base, dest, items, i);
    UnstackStep(items, i);
    OntoStep(t, start, Unstack(items, i), items[i - 1].box);
    var parked := Park(base, dest[..i], items[..i]);
    var onT := base[t] + Onto(t, start, Unstack(items, i));
    var from := dest[i - 1];
    assert from in dest;
    var e := Entry(t.bay, t.row, |onT| + 1, items[i - 1].box);
    PopPush(parked, Park(base, dest[..i - 1], items[..i - 1]), from, t, onT, e);
    assert onT + [e] == base[t] + Onto(t, start, Unstack(items, i - 1));
  }

  /** Before the restoring loop nothing is back yet; after it, everything is. */
  lemma RestoreBounds(base: Piles, t: Loc, dest: seq<Loc>, items: seq<Entry>, piles: Piles)
    requires |dest| == |items| && t in base
    requires forall d :: d in dest ==> d != t
    requires piles == Park(base, dest, items)
    ensures Restoring(base, t, dest, items, |dest|, piles, [])
    ensures forall res, moves :: Restoring(base, t, dest, items, 0, res, moves) ==>
      res == base[t := base[t] + Onto(t, |base[t]|, Unstack(items, 0))]
      && moves == Restores(t, |base[t]|, Unstack(items, 0))
  {
    var k := |dest|;
    assert dest[..k] == dest && items[..k] == items;
    assert dest[..0] == [] && items[..0] == [];
    ParkElsewhere(base, dest, items, t);
    ParkKeys(base, dest, items, t);
    assert base[t] + Onto(t, |base[t]|, Unstack(items, k)) == piles[t];
    assert piles[t := piles[t]] == piles;
  }

  /** Lines 231-239 for one parked container: pop it off its buffer pile
      `dest[i - 1]`, stack it on the pile at `t` and log it. */
  method RestoreNext(res: Piles, moves: seq<Move>, t: Loc, dest: seq<Loc>, i: nat, ghost base: Piles, ghost items: seq<Entry>)
    returns (res': Piles, moves': seq<Move>)
    requires |dest| == |items| && 0 < i <= |dest| && t in base
    requires forall d :: d in dest ==> d != t && d in base
    requires Restoring(base, t, dest, items, i, res, moves)
    ensures Restoring(base, t, dest, items, i - 1, res', moves')
  {
    RestoreStep(base, t, dest, items, i, res, moves);
    var from := dest[i - 1];
    var fromPile := res[from];
    var c := fromPile[|fromPile| - 1];
    res' := res[from := fromPile[..|fromPile| - 1]];
    var s := |res'[t]| + 1;
    res' := res'[t := res'[t] + [Entry(t.bay, t.row, s, c.box)]];
    moves' := moves + [Restore(c.box.code, Pos(t.bay, t.row, s))];
  }

  /** Lines 230-240: pop the lifted containers off their buffer piles in
      reverse order and stack each back on the pile at `t`. Every buffer pile
      ends as it was before the parking, and the pile at `t` gets the
      containers back in the order they were in before they were lifted. */
  method RestoreTop(piles: Piles, t: Loc, dest: seq<Loc>, ghost base: Piles, ghost items: seq<Entry>)
    returns (res: Piles, moves: seq<Move>)
    requires |dest| == |items| && t in base
    requires forall d :: d in dest ==> d != t && d in base
    requires piles == Park(base, dest, items)
    ensures res == base[t := base[t] + Onto(t, |base[t]|, Unstack(items, 0))]
    ensures moves == Restores(t, |base[t]|, Unstack(items, 0))
  {
    RestoreBounds(base, t, dest, items, piles);
    res := piles;
    moves := [];
    var i := |dest|;
    while i > 0
      invariant 0 <= i <= |dest|
      invariant Restoring(base, t, dest, items, i, res, moves)
    {
      res, moves := RestoreNext(res, moves, t, dest, i, base, items);
      i := i - 1;
    }
  }

  // ---------------------------------------------------------------------
  // The whole insertion (lines 186-256)
  // ---------------------------------------------------------------------

  /** The pile at `t` once its `k` top containers are lifted, `newC` is
      placed and the lifted ones are put back in their order: the new
      container sits right under the `k` it was placed beneath. */
  function FinalPile(pile: seq<Entry>, t: Loc, k: nat, newC: Container): seq<Entry>
    requires k <= |pile|
  {
    var h := |pile|;
    pile[..h - k] + [Entry(t.bay, t.row, h - k + 1, newC)] + Onto(t, h - k + 1, Boxes(pile[h - k..]))
  }

  /** The piles after the insertion of `newC` at `t` beneath `k` containers:
      only the pile at `t` changes. */
  function Final(piles: Piles, t: Loc, k: nat, newC: Container): Piles
    requires t in piles && k <= |piles[t]|
  {
    piles[t := FinalPile(piles[t], t, k, newC)]
  }

  /** The moves log of that insertion: `k` lifts, the placement, `k` returns. */
  function Log(piles: Piles, t: Loc, k: nat, newC: Container): seq<Move>
    requires t in piles && k <= |piles[t]|
  {
    var T := piles[t];
    var h := |T|;
    Lifts(T, k) + [Place(newC.code, Pos(t.bay, t.row, h - k + 1))] + Restores(t, h - k + 1, Boxes(T[h - k..]))
  }

  lemma LogParts(piles: Piles, t: Loc, k: nat, newC: Container)
    requires t in piles && k <= |piles[t]|
    ensures var h := |piles[t]|;
      Log(piles, t, k, newC) == Lifts(piles[t], k)
        + ([Place(newC.code, Pos(t.bay, t.row, h - k + 1))] + Restores(t, h - k + 1, Boxes(piles[t][h - k..])))
  {
  }

  /** Putting back what was lifted, last lifted first, restores the lifted
      containers' original order. */
  lemma UnstackTop(T: seq<Entry>, k: nat)
    requires k <= |T|
    ensures Unstack(Top(T, k), 0) == Boxes(T[|T| - k..])
  {
  }

  /** Replacing the target pile of the parked piles is replacing it before
      the parking. */
  lemma PlaceUnderParked(piles: Piles, t: Loc, dest: seq<Loc>, items: seq<Entry>, left: seq<Entry>, x: seq<Entry>)
    requires |dest| == |items| && t !in dest
    ensures Park(piles, dest, items)[t := left][t := x] == Park(piles[t := x], dest, items)
  {
    ParkOther(piles, dest, items, t, x);
  }

  /** Lines 221-240: place `newC` on what is left of the pile at `t` (its
      `k` top containers parked on `dest`), then put the parked ones back. */
  method PlaceAndReturn(ps: Piles, t: Loc, dest: seq<Loc>, newC: Container, ghost piles: Piles, ghost k: nat)
    returns (restored: Piles, moves: seq<Move>)
    requires t in piles && k <= |piles[t]| && |dest| == k
    requires forall d :: d in dest ==> d != t && d in piles
    requires ps == Park(piles, dest, Top(piles[t], k))[t := piles[t][..|piles[t]| - k]]
    ensures restored == Final(piles, t, k, newC)
    ensures moves == [Place(newC.code, Pos(t.bay, t.row, |piles[t]| - k + 1))]
      + Restores(t, |piles[t]| - k + 1, Boxes(piles[t][|piles[t]| - k..]))
  {
    ghost var T := piles[t];
    ghost var h := |T|;
    var targetPile := ps[t];
    var newStack := |targetPile| + 1;
    var placed := ps[t := targetPile + [Entry(t.bay, t.row, newStack, newC)]];
    ghost var base := piles[t := T[..h - k] + [Entry(t.bay, t.row, h - k + 1, newC)]];
    assert t !in dest;
    PlaceUnderParked(piles, t, dest, Top(T, k), T[..h - k], base[t]);
    var back;
    restored, back := RestoreTop(placed, t, dest, base, Top(T, k));
    UnstackTop(T, k);
    moves := [Place(newC.code, Pos(t.bay, t.row, newStack))] + back;
  }

  /** Lines 195-253 for the pile at `t`: lift its top `need` containers (all
      of them if it has fewer) onto other piles, place `newC`, put the lifted
      ones back and rebuild the entry list. It fails only when the other
      piles cannot hold the lifted containers. */
  method Carry(p: Patio, piles: Piles, t: Loc, need: nat, newC: Container) returns (r: Result<Plan>)
    requires Covers(p, piles) && InGrid(t, p.bays, p.rows)
    ensures r.Ok? <==> FreeExcept(Grid(p.bays, p.rows), p.stacks, piles, t) >= Min(need, Height(piles, t))
    ensures r.Err? ==> r.error == AllocationFailure
    ensures r.Ok? ==>
      var k := Min(need, Height(piles, t));
      r.value == Plan(Log(piles, t, k, newC), Layout(Grid(p.bays, p.rows), Final(piles, t, k, newC)))
  {
    var parked := ParkTop(p, piles, t, need);
    if parked.Err? {
      return Err(parked.error);
    }
    ghost var k := Min(need, Height(piles, t));
    assert t in piles && Height(piles, t) == |piles[t]| && k <= |piles[t]|;
    assert forall d :: d in parked.value.dest ==> d != t && d in piles;
    var restored, back := PlaceAndReturn(parked.value.piles, t, parked.value.dest, newC, piles, k);
    var data := Rebuild(p, restored);
    LogParts(piles, t, k, newC);
    return Ok(Plan(parked.value.moves + back, data));
  }

  /** Lines 186-256: build the piles, choose the target, and carry the
      insertion out there. The only error is the one of line 189, when no
      location is feasible; the allocation failure of line 218 cannot happen,
      because the chosen location is feasible. */
  method PlanInsertion(p: Patio, newC: Container) returns (r: Result<Plan>)
    requires InYard(p)
    ensures r.Err? <==> Best(p, PilesOf(p), newC.departure).None?
    ensures r.Err? ==> r.error == NoCapacity
    ensures r.Ok? ==>
      var c := Best(p, PilesOf(p), newC.departure).value;
      var piles, t := PilesOf(p), LocOfChoice(c);
      && t in piles && c.needRemove <= |piles[t]|
      && r.value == Plan(Log(piles, t, c.needRemove, newC), Layout(Grid(p.bays, p.rows), Final(piles, t, c.needRemove, newC)))
  {
    var piles := BuildPiles(p);
    PilesShape(p);
    var choice := ChooseTarget(p, piles, newC, false);
    if choice.None? {
      return Err(NoCapacity);
    }
    var c := choice.value;
    var t := Loc(c.bay, c.row);
    BestSpec(p, piles, newC.departure);
    ChoiceBounds(p, piles, t, newC.departure, false);
    r := Carry(p, piles, t, c.needRemove, newC);
  }
}
