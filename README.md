# Container-yard insertion planner

A Dafny model of the insertion planner of the container-yard plugin
(`add-container-plugin.js`). The yard (`patio`) is a grid of piles indexed by
(bay, row), each a last-in-first-out stack of containers that should hold at
most `stacks` tiers. To insert a new container the planner

1. buckets the flat `data` list into one pile per (bay, row), in ascending
   tier order (`buildPiles`);
2. counts, for every pile, the run of containers at its top that leave no
   later than the new one (`blockingTopCount`);
3. scores every location, keeps the feasible ones (enough free slots in the
   other piles to park what must be lifted) and picks the cheapest, the first
   one in bay-then-row order on ties (`chooseTarget`);
4. lifts `needRemove` containers off the chosen pile onto the first piles with
   room, places the new container, puts the lifted ones back in reverse order
   and rebuilds the flat list sorted by (bay, row, tier) with tiers renumbered
   from 1 (`planInsertion`).

Modules, one per component:

- `Yard` (yard.dfy): containers, entries, the snapshot, locations, the
  bay-then-row visiting order of the nested loops, and `key(b, r)`.
- `Sorting` (sorting.dfy): the `(bay, row, stack)` comparator sort.
- `Piles` (piles.dfy): `buildPiles`, `totalFreeCapacity` and the free-slot sum
  of `chooseTarget`.
- `Target` (target.dfy): `blockingTopCount` and `chooseTarget`.
- `Rebuilding` (layout.dfy): the flat list rebuilt from the piles.
- `Planner` (planner.dfy): `planInsertion`.
- `Outcome` (outcome.dfy): what a plan does to the yard.
- `Findings` (findings.dfy): two defects of the planner as written, and the
  planner corrected.

The loops of the source are methods with loop invariants, each proved equal
to a specification function (`Blocking`, `Scan`, `FreeIn`, `FreeExcept`,
`PilesOf`, `Layout`, `Final`, `Log`). The lemmas prove properties of those
functions. Departure dates (`saida`) are day ordinals (`int`): the source only
compares them with `<=`. Move-log lines are records (`Lift`, `Place`,
`Restore`) carrying the code and the position the message prints. Errors are
results: `NoCapacity` for "Sem capacidade temporária para inserir." and
`AllocationFailure` for "Falha ao alocar temporários.".

The code and the yard's intended rules (unique codes, contiguous tiers, at
most `stacks` containers per pile) disagree in places; the model follows the
code:

- The code validates nothing: it does not reject overlapping positions, tier
  gaps or repeated codes.
- The code does not keep piles within `stacks` (see Findings).
- The code ranks candidates by an estimate that can be lower than the number
  of moves it then logs (see Findings).

## Model

| member | source | states |
|---|---|---|
| `Yard.KeyInjective` | add-container-plugin.js:114 | `key(b1, r1) == key(b2, r2)` exactly when the locations are equal, so the key-indexed `Map` behaves as a map indexed by location |
| `Yard.GridShape` | add-container-plugin.js:118-121 | the nested bay/row loops visit each location of the bays x rows yard exactly once, in strictly increasing bay-then-row order |
| `Sorting.SortSpec` | add-container-plugin.js:123 | the comparator sort returns the same entries (as a multiset) in (bay, row, stack) order |
| `Sorting.SortStable` | add-container-plugin.js:123 | the sort is stable: for every (bay, row, stack) position, the entries at that position come out in their input order |
| `Sorting.SortOfSorted` | add-container-plugin.js:253 | sorting a list already in (bay, row, stack) order leaves it unchanged |
| `Piles.EmptyPiles` | add-container-plugin.js:117-122 | the map holds one empty pile for every location of the grid |
| `Piles.BuildPiles` | add-container-plugin.js:116-128 | the loop builds exactly the bucketing of the sorted entries by location |
| `Piles.PilesShape` | add-container-plugin.js:116-128 | there is a pile for a location exactly when it is in the grid; each pile holds exactly the snapshot's entries at that location, each as often as the snapshot does, in ascending tier order |
| `Rebuilding.StockOfPiles` | add-container-plugin.js:116-128 | the piles together hold exactly the snapshot's containers |
| `Piles.TotalFreeCapacity` | add-container-plugin.js:130-139 | the loop sums `max(0, stacks - height)` over every location, a missing pile counting as empty |
| `Piles.FreeElsewhere` | add-container-plugin.js:169-175 | the loop sums the free slots of every location except the target |
| `Piles.FreeSplit` | add-container-plugin.js:130-139 | the yard's free slots are the target's free slots plus the free slots of all other piles |
| `Piles.NoFreeExcept` | add-container-plugin.js:169-175 | the other piles have no free slot exactly when each of them is full |
| `Target.Blocking` | add-container-plugin.js:142-149 | the count `c` satisfies `0 <= c <= |pile|`; the top `c` containers all leave no later than the new one; if `c < |pile|`, the container just below them leaves later, so the run is maximal |
| `Target.BlockingTopCount` | add-container-plugin.js:142-149 | the top-down scan with its `break` computes `Blocking` |
| `Target.ChoiceBounds` | add-container-plugin.js:158-176 | for a feasible location: `block <= needRemove <= h`, so the `break` at line 201 is never taken; `moves = needRemove + 1 + block`; the other piles have at least `needRemove` free slots; `needRemove > block` only on a full pile |
| `Target.EvaluateAt` | add-container-plugin.js:158-175 | the per-location code computes the record `{b, r, moves, block, needRemove}` and the free slots outside the location |
| `Target.Consider` | add-container-plugin.js:176-180 | a location replaces the best so far exactly when it is feasible and strictly cheaper |
| `Target.ChooseTarget` | add-container-plugin.js:152-183 | the nested loops compute the scan over the grid in bay-then-row order |
| `Target.ScanSpec` | add-container-plugin.js:152-183 | over any increasing list of locations, the scan finds nothing exactly when no location is feasible; otherwise it returns a feasible location's own record, whose moves are at most those of every feasible location and strictly less than those of every feasible location before it |
| `Target.BestSpec` | add-container-plugin.js:152-183 | `chooseTarget` returns null exactly when no location of the grid is feasible; otherwise it returns the first feasible location of least move count in bay-then-row order, with its record |
| `Target.NoFreeNoTarget` | add-container-plugin.js:152-183 | a yard with no free slot at all gets no target |
| `Planner.FindBuffer` | add-container-plugin.js:205-216 | finds nothing exactly when the other piles have no free slot; otherwise finds the first non-full pile other than the target in bay-then-row order |
| `Planner.ParkNext` | add-container-plugin.js:205-218 | one lifted container is parked on the first pile with room (`FirstFit`: no earlier pile in bay-then-row order has room), the parking record is extended by that pile (`FirstFits`), using up one free slot outside the target, or the parking fails exactly when all those slots are used |
| `Planner.LiftNext` | add-container-plugin.js:200-218 | one turn of the lifting loop: the top of what is left of the target pile is popped, its lift is logged and it is parked first-fit, so the loop state (`Lifting`: the pops so far, their log lines, their first-fit destinations, buffers within `stacks`) holds one step further; the turn fails exactly when the free slots outside the target are used up |
| `Planner.ParkTop` | add-container-plugin.js:199-219 | the loop succeeds exactly when the other piles have room for `min(needRemove, h)` containers; it pops them top first, logs one lift each, parks each on the first pile with room in the yard as it stood at that step (`FirstFits`), and no buffer pile it grows goes past `stacks` |
| `Planner.RestoreNext` | add-container-plugin.js:231-238 | one turn pops the last parked container off its buffer pile and stacks it on the target at the next tier, with its log line |
| `Planner.RestoreTop` | add-container-plugin.js:229-239 | after the loop every buffer pile is back to its contents before parking, and the target holds the lifted containers again in their original bottom-to-top order |
| `Planner.PlaceAndReturn` | add-container-plugin.js:221-239 | placing the new container and putting the parked ones back leaves exactly `Final`: the other piles unchanged, the target as bottom part, new container, lifted containers |
| `Planner.Carry` | add-container-plugin.js:195-253 | for one target the plan fails with the allocation error exactly when the other piles lack room; otherwise the log is `Log` and the data is the rebuilt `Final` yard |
| `Planner.PlanInsertion` | add-container-plugin.js:186-256 | fails with `NoCapacity` exactly when `chooseTarget` returns null and never with `AllocationFailure`; otherwise returns the log and the rebuilt yard of the chosen target with `needRemove` containers lifted |
| `Rebuilding.Rebuild` | add-container-plugin.js:241-253 | the triple loop followed by the sort yields the piles in bay-then-row order with tiers renumbered from 1; the sort changes nothing |
| `Rebuilding.LayoutSorted` | add-container-plugin.js:242-253 | the rebuilt list is strictly increasing in (bay, row, tier), and every entry sits at a visited location with tier at least 1 |
| `Rebuilding.Reload` | add-container-plugin.js:242-253 | bucketing the rebuilt list again gives back every pile, renumbered from 1 |
| `Outcome.FinalShape` | add-container-plugin.js:199-239 | only the target pile changes: it keeps its bottom `h - k` entries, then holds the new container at tier `h - k + 1`, then the `k` lifted containers in their original order; it grows by exactly one |
| `Outcome.LogShape` | add-container-plugin.js:199-239 | the log has `2k + 1` lines: `k` lifts top first at their old positions, the placement, and `k` returns at tiers `h - k + 2` and up |
| `Outcome.PlanStock` | add-container-plugin.js:242-253 | the rebuilt list holds the snapshot's containers plus the new one and nothing else, so it has one entry more |
| `Outcome.PlanLayout` | add-container-plugin.js:242-253 | the rebuilt list is strictly sorted by (bay, row, tier) inside the grid, and in every pile the tiers run 1, 2, ... with the pile's containers in order |
| `Outcome.InsertKeepsOrder` | add-container-plugin.js:141-149 | lifting exactly the blocking run keeps a pile whose departures never increase upwards in that order once the new container is placed |
| `Outcome.ChosenPlan` | add-container-plugin.js:186-239 | for the chosen target: `block <= needRemove <= h`, room elsewhere for `needRemove`, the target ends one higher, and the log has `moves + (needRemove - block)` lines |
| `Findings.FullTargetOverflows` | add-container-plugin.js:155-239 | a chosen target that is full ends above `stacks`, and whenever `needRemove > block` the log is longer than the estimate `moves` |
| `Findings.FullPileWins` | add-container-plugin.js:152-183 | in a 2 x 1 yard of two tiers, a full bay 1 with nothing blocking beats a bay 2 whose one container blocks |
| `Findings.FullPileOverflows` | add-container-plugin.js:186-239 | in that yard the plan ends bay 1 at three containers over a limit of two, logs three moves against an estimate of two, and puts a later-leaving container above the new one |
| `Findings.SampleOverflows` | add-container-plugin.js:186-256 | the concrete yard of the first finding below shows all three |
| `Findings.BestFixedSpec` | add-container-plugin.js:152-183 | with full piles passed over, the scan finds nothing exactly when no non-full location is feasible, otherwise the cheapest such location |
| `Findings.PlanInsertionFixed` | add-container-plugin.js:186-256 | the corrected planner fails only with `NoCapacity`, exactly when no non-full location is feasible, and lifts exactly the blocking run |
| `Findings.FixedPlan` | add-container-plugin.js:186-256 | the corrected plan keeps every pile within `stacks`, logs exactly the estimated number of moves, and keeps a well-ordered target well-ordered |

## Left out

- The dialog, its styles, button and moves panel (lines 7-105, 258-270) are not modelled: they are UI only.
- The `window.integratePatioApi` registration (lines 107-111) is not modelled: it is host wiring.
- The submit handler (lines 277-309) is not modelled. It trims and upper-cases the input, checks for a duplicate code, reads and writes the yard through the host API and reports errors with `alert`. All of this is I/O around `planInsertion`.
- Date parsing (`new Date(...)`, line 145) and `toISOString` are not modelled: departures are integer day ordinals, and only their order matters.
- The move messages (lines 203, 227, 238) are records carrying the code and the printed position, not text.
- `Piles.BuildPiles` and `Planner.PlanInsertion` require every entry to lie inside the grid. In the source an entry outside it makes `piles.get` return `undefined`, and line 125 throws a `TypeError`; that crash is not modelled.
- JavaScript numbers are modelled as unbounded integers: non-integer, `NaN` or huge dimensions are not modelled.
- The piles are a value-semantics `map` from location to sequence; object identity is not modelled. In the source `targetPile` is the same array as `piles.get(targetK)`. During parking (`Planner.ParkTop`) the model keeps the target pile in a local and writes it back into the map after the loop. This is equivalent because the buffer search and the free-slot sums skip the target.
- `Array.prototype.sort` is modelled as an insertion sort, proved sorted and a permutation (`Sorting.SortSpec`) and stable (`Sorting.SortStable`). A stable sort of a total preorder has exactly one result.

## Findings

The corrected planner (`Findings.PlanInsertionFixed`, proved in
`Findings.FixedPlan`) implements one chosen fix: full piles are passed over.
The comments at lines 160-161 and the lift "to create room" at lines 164-165
show that the author meant full piles to stay candidates. The estimate at
line 167 suggests a second reading, in which the extra lifted container stays
parked. That reading alone does not keep piles within `stacks`: a full pile
with `block >= 1` has `needRemove = block`, gets every lifted container back,
and still ends at `stacks + 1`. Passing full piles over fixes both defects at
once, because then `needRemove == block`.

| source | as written | input that shows it | evidently intended | confidence | as-written member | corrected member |
|---|---|---|---|---|---|---|
| add-container-plugin.js:159-165, 229-239 | a full pile stays a candidate; the plan lifts one container "to create room" but puts every lifted container back, so the target ends at `stacks + 1` | yard 2 x 1, `stacks = 2`; bay 1: A (day 20) under C (day 15); bay 2: D (day 5); insert B (day 10): bay 1 wins with 2 moves and ends with 3 containers, C above B | no pile exceeds `stacks` | not executed | `Findings.SampleOverflows` | `Findings.FixedPlan` |
| add-container-plugin.js:167 | the estimate counts `block` returns, but lines 229-239 return all `needRemove` lifted containers | the same yard: estimate 2, log of 3 moves | the logged moves equal the estimate | not executed | `Findings.FullTargetOverflows` | `Findings.FixedPlan` |
