/**
 * The container yard's records, its grid of (bay, row) locations in the
 * order the planner visits them, and the string key of a location.
 */
module Yard {

  datatype Option<T> = None | Some(value: T)

  /** A container: its code and its arrival (`entrada`) and departure
      (`saida`) dates, as day ordinals. */
  datatype Container = Container(code: string, arrival: int, departure: int)

  /** One entry of the yard's flat `data` list: a container at a position. */
  datatype Entry = Entry(bay: int, row: int, stack: int, box: Container)

  /** The yard snapshot: its dimensions and its flat list of entries. */
  datatype Patio = Patio(bays: nat, rows: nat, stacks: int, data: seq<Entry>)

  /** A (bay, row) location, i.e. one pile. */
  datatype Loc = Loc(bay: int, row: int)

  function LocOf(e: Entry): Loc {
    Loc(e.bay, e.row)
  }

  /** The containers of a list of entries, in order. */
  function Boxes(s: seq<Entry>): seq<Container> {
    seq(|s|, i requires 0 <= i < |s| => s[i].box)
  }

  lemma BoxesAppend(a: seq<Entry>, b: seq<Entry>)
    ensures Boxes(a + b) == Boxes(a) + Boxes(b)
  {
  }

  predicate InGrid(l: Loc, bays: nat, rows: nat) {
    1 <= l.bay <= bays && 1 <= l.row <= rows
  }

  /** Bay-then-row order, the order of the planner's nested loops. */
  predicate Before(a: Loc, b: Loc) {
    a.bay < b.bay || (a.bay == b.bay && a.row < b.row)
  }

  predicate Increasing(locs: seq<Loc>) {
    forall i, j :: 0 <= i < j < |locs| ==> Before(locs[i], locs[j])
  }

  /** The locations the planner's nested loops (bays 1..bays outside, rows
      1..rows inside) have visited once they finish row `r` of bay `b`. */
  function Visited(rows: nat, b: nat, r: nat): seq<Loc>
    decreases b, r
  {
    if b == 0 then []
    else if r == 0 then Visited(rows, b - 1, rows)
    else Visited(rows, b, r - 1) + [Loc(b, r)]
  }

  /** Every location of a bays x rows yard, bay by bay, row by row. */
  function Grid(bays: nat, rows: nat): seq<Loc> {
    Visited(rows, bays, rows)
  }

  lemma {:induction false} VisitedShape(rows: nat, b: nat, r: nat)
    requires r <= rows
    ensures forall l :: l in Visited(rows, b, r) <==>
      1 <= l.row <= rows && 1 <= l.bay && (l.bay < b || (l.bay == b && l.row <= r))
    ensures Increasing(Visited(rows, b, r))
    decreases b, r
  {
    if b > 0 && r == 0 {
      VisitedShape(rows, b - 1, rows);
    } else if b > 0 {
      VisitedShape(rows, b, r - 1);
      var v := Visited(rows, b, r - 1);
      forall i, j | 0 <= i < j < |v + [Loc(b, r)]|
        ensures Before((v + [Loc(b, r)])[i], (v + [Loc(b, r)])[j])
      {
        if j == |v| {
          assert v[i] in v;
        }
      }
    }
  }

  /** The grid holds each location of the yard exactly once, in bay-then-row order. */
  lemma GridShape(bays: nat, rows: nat)
    ensures forall l :: l in Grid(bays, rows) <==> InGrid(l, bays, rows)
    ensures Increasing(Grid(bays, rows))
  {
    VisitedShape(rows, bays, rows);
  }

  /** Decimal digit `d` as a character. */
  function Digit(d: nat): char
    requires d < 10
  {
    (48 + d) as char
  }

  /** The decimal notation of `n`, as a template literal prints it. */
  function Digits(n: nat): (s: string)
    ensures |s| > 0
    ensures forall i :: 0 <= i < |s| ==> s[i] != '-'
  {
    if n < 10 then [Digit(n)] else Digits(n / 10) + [Digit(n % 10)]
  }

  /** The `key(b, r)` string under which a pile is stored: "b-r". */
  function Key(b: nat, r: nat): string {
    Digits(b) + "-" + Digits(r)
  }

  lemma {:induction false} DigitsInjective(m: nat, n: nat)
    requires Digits(m) == Digits(n)
    ensures m == n
  {
    if m >= 10 && n >= 10 {
      var s, t := Digits(m), Digits(n);
      assert s[..|s| - 1] == Digits(m / 10);
      assert t[..|t| - 1] == Digits(n / 10);
      DigitsInjective(m / 10, n / 10);
      assert s[|s| - 1] == Digit(m % 10);
    }
  }

  /** The first '-' of a key is the one that follows the bay's digits. */
  lemma KeyDash(b: nat, r: nat)
    ensures forall i :: 0 <= i < |Digits(b)| ==> Key(b, r)[i] != '-'
    ensures Key(b, r)[|Digits(b)|] == '-'
  {
  }

  /** Distinct locations get distinct keys, so the key-indexed map of piles
      behaves as a map indexed by the location itself. */
  lemma KeyInjective(b1: nat, r1: nat, b2: nat, r2: nat)
    ensures Key(b1, r1) == Key(b2, r2) <==> b1 == b2 && r1 == r2
  {
    if Key(b1, r1) == Key(b2, r2) {
      var s1, s2 := Digits(b1), Digits(b2);
      var k := Key(b1, r1);
      KeyDash(b1, r1);
      KeyDash(b2, r2);
      assert |s1| == |s2|;
      assert s1 == k[..|s1|] == s2;
      DigitsInjective(b1, b2);
      assert Digits(r1) == k[|s1| + 1..] == Digits(r2);
      DigitsInjective(r1, r2);
    }
  }
}
