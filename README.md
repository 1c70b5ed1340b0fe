# HexBlast board engine in Dafny

HexBlast is a browser puzzle game played on a hexagonal board of axial
coordinates `(q, r)`. The player drags three polyhex shapes from a tray onto
the board. A line of cells that is completely filled is cleared. This project
models the game's rule core and proves its properties:

- **Board** (`js/GridManager.js`). The class `GridManager` holds the cell map
  `gridState`. It builds the hexagon (`init`), tests a placement (`canPlace`,
  `canPlaceAny`), writes it (`place`) and clears lines (`checkAndClearLines`,
  `isLineFull`). The clear is simultaneous: the full lines of the three
  families are collected first (constant r, constant q, constant q + r). Then
  the union of their cells is reported once each, with colours, and reset.
- **Catalogue** (`js/constants.js`): the 17 shapes, their tiers, the board
  radius and the safe-spawn ratio.
- **Spawner** (`js/BlockGenerator.js`). `getWeightedRandom` draws a difficulty
  tier and takes the first shape of that tier in a shuffled catalogue.
  `spawnShapes` tries up to 100 random triples. A triple is kept when the
  backtracking search `solve` can place its shapes in the given order on
  simulated copies of the board. The search accepts a complete placement when
  it cleared a line, or, failing that, when the free cells number more than a
  quarter of 91. That is the cell count of the default radius-5 board, used
  whatever the size of the board being searched. If no triple is kept, the result is three Dots. The
  simulation functions `cloneGridState`, `testPlace` and `testClear` are pure
  functions over a board value.
- **Earlier board revision** (`js/game.js`). The global `gridState` and
  `selectionSlots` are the fields of a class `Game`. `checkLines` clears
  sequentially: each full line is reset as soon as it is found, so later
  lines are judged on the board the earlier clears left. `spawnNewShapesIfEmpty`
  refills the tray only when every slot is empty.
- **Theme selector** (`js/Theme.js`): eight named palettes, a current name,
  `get`, `setTheme` and `nextTheme` (cyclic in declaration order).

Modules: `Hex` (coordinates, cells, the hexagon, the placement rule),
`Catalog`, `Lines` (the simultaneous clearing rule and its reference
definitions), `Board` (`GridManager` and the simulation functions),
`Spawner`, `LegacyGame` and `Themes`.

The operations that change state in the source are methods, and each is
proved against a pure specification function:

- the class methods `GridManager.Init`, `Place`, `CheckAndClearLines`;
- `Game.CheckLines`, `Game.SpawnNewShapesIfEmpty`;
- `Theme.SetTheme`, `Theme.NextTheme`.

So are the loops of `getWeightedRandom`, `spawnShapes` and `solve`. Lemmas
then prove the properties of those functions. Examples:

- the clear reports exactly the cells on full lines;
- it leaves no full line and is idempotent;
- `solve` accepts exactly when some sequence of centres works;
- the eight-step theme cycle returns to its start.

Randomness (`Math.random`) is a parameter. The shuffle is an arbitrary
permutation of indices, and each draw in [0, 1) or [0, 100) is a real.
`spawnShapes` gets an oracle that returns the permutation and draw of every
pick of every attempt.

## Model

| member | source | states |
|---|---|---|
| Hex.StampLegal | js/GridManager.js:39-45 | a placement that fits writes exactly the covered cells and keeps the key set |
| Hex.StampOffBoard | js/GridManager.js:39-45 | `place` does not check legality: an offset cell off the board is added as a new key |
| Hex.Fits | js/GridManager.js:18-27 | the placement rule of `canPlace`: every offset cell exists and is unoccupied (its partners are GridManager.CanPlace and Board.TestPlace) |
| Hex.Stamp | js/GridManager.js:39-45 | the board `place` leaves: every offset cell set to the written cell, the others kept (its properties are Hex.StampLegal and Hex.StampOffBoard) |
| Hex.HexCellCount | js/BlockGenerator.js:50 | a hexagon of radius R has 3R² + 3R + 1 cells |
| Catalog.CatalogWellFormed | js/constants.js:21-39 | every catalogue entry contains its anchor cell and has tier 1..5 |
| Catalog.EntryWellFormed | js/constants.js:21-39 | the i-th catalogue entry is well formed |
| Catalog.CatalogDistinct | js/constants.js:21-39 | no catalogue entry lists the same offset twice |
| Catalog.EntryDistinct | js/constants.js:21-39 | the offsets of the i-th catalogue entry are pairwise distinct |
| Catalog.EveryTierPresent | js/constants.js:21-39 | each tier 1..5 has a shape in the catalogue |
| Catalog.TierIndex | js/constants.js:21-39 | returns the first catalogue index of tier d; no earlier entry has tier d |
| Catalog.FallbackIsDot | js/BlockGenerator.js:41 | the fallback shape `SHAPES[0]` is the one-cell Dot of tier 1 |
| Lines.At | js/GridManager.js:55-89 | the key the scan of line i visits at position j lies on line i at position j |
| Lines.ScanMembers | js/GridManager.js:56-59 | a scanned line holds exactly the existing keys of the line within the window |
| Lines.LineKeys | js/GridManager.js:56-59 | every pushed key exists on the board |
| Lines.AllOccupied | js/GridManager.js:108 | `every(...)` holds iff every listed key is occupied |
| Lines.IsLineFull | js/GridManager.js:106-109 | true iff the list is non-empty and every key is occupied |
| Lines.CollectInState | js/GridManager.js:60-63 | the pushed keys of a family all exist on the board |
| Lines.LinesToClear | js/GridManager.js:54-89 | the keys collected from the three families all exist on the board |
| Lines.Dedup | js/GridManager.js:92 | `[...new Set(list)]`: the same members, none repeated |
| Lines.Entries | js/GridManager.js:93-98 | one reported entry per key, in order, with its coordinates and its colour before the reset |
| Lines.LineKeysAreLineCells | js/GridManager.js:55-59 | the scanned keys of a line are the reference line's cells |
| Lines.ScannedFullIffLineFull | js/GridManager.js:106-109 | `isLineFull` on the scanned line is iff the reference line is non-empty and fully occupied |
| Lines.CollectMember | js/GridManager.js:54-64 | a key is pushed by the scan of lines -R..i-1 iff it exists and lies on a full line with index below i |
| Lines.CollectAll | js/GridManager.js:54-89 | a key is pushed by a family's scan iff it lies on a full line of that family |
| Lines.OnSomeFullLine | js/GridManager.js:54-89 | a key is collected iff it lies on a full line of some family |
| Lines.LinesToClearIsFullCells | js/GridManager.js:54-89 | the collected keys are exactly the cells on full lines |
| Lines.CountFullIsFullIndices | js/GridManager.js:60-63 | the counter after lines -R..i-1 of a family equals the number of its full lines with index below i |
| Lines.FamilyCount | js/GridManager.js:60-63 | a family's counter is its number of full lines |
| Lines.LinesClearedCountsFullLines | js/GridManager.js:48-101 | `linesCleared` is the number of full lines over the three families, not the number of cells |
| Lines.ClearLines | js/GridManager.js:46-104 | the report and the board checkAndClearLines produces, built from the three scans (its properties are Lines.ClearLinesCorrect and the lemmas below) |
| Lines.ClearedState | js/GridManager.js:92-100 | afterwards the cells on full lines are empty, every other cell is unchanged and the key set is kept |
| Lines.ClearLinesCorrect | js/GridManager.js:46-104 | the report lists each cell on a full line exactly once, with its prior colour; the board and line count are as above |
| Lines.NoFullLineAfterClear | js/GridManager.js:46-104 | after the clear no line of any family is full |
| Lines.NothingFullNothingCleared | js/GridManager.js:46-104 | on a board without full lines the clear reports nothing and changes nothing |
| Lines.NothingFullCountsZero | js/GridManager.js:48-101 | without full lines the count is 0 |
| Lines.NothingFullCollectsNothing | js/GridManager.js:47-89 | without full lines nothing is collected |
| Lines.ClearLinesIdempotent | js/GridManager.js:46-104 | a second clear straight after the first reports nothing and changes nothing |
| Board.TestPlace | js/BlockGenerator.js:69 | no state iff the shape does not fit; otherwise the same keys with just the covered cells occupied |
| Board.TestClear | js/BlockGenerator.js:72 | keeps the key set; the flag is set iff some line of some family is full |
| Board.CloneGridState | js/BlockGenerator.js:32 | `cloneGridState` is called but not defined in the source; on a board value the copy is the board itself |
| Board.GridManager.constructor | js/GridManager.js:2-6 | the new board is exactly the hexagon of the given radius, every cell empty |
| Board.GridManager.Init | js/GridManager.js:8-16 | afterwards every hexagon cell is an empty cell and every other key is kept |
| Board.FillHexagon | js/GridManager.js:9-15 | the nested column/row loop yields the map plus an empty cell at every hexagon coordinate |
| Board.GridManager.CanPlace | js/GridManager.js:18-27 | true iff every offset cell exists and is unoccupied |
| Board.GridManager.CanPlaceAny | js/GridManager.js:29-37 | true iff some unoccupied cell is a centre where the shape fits |
| Board.AnchoredCentreIsFree | js/GridManager.js:29-37 | for a shape containing its anchor, the unoccupied-centre pre-filter loses no placement |
| Board.GridManager.Place | js/GridManager.js:39-45 | the board is the old one with every offset cell set to `{occupied: true, color}`, off-board keys included |
| Board.LineAt | js/GridManager.js:56-59 | the collected keys are those of the line in scan order |
| Board.ScanFamily | js/GridManager.js:54-89 | the pushed keys and the counter are those of the family's full lines in scan order |
| Board.ClearAndReport | js/GridManager.js:46-104 | on a given board, the report and the board after are those of the clearing rule |
| Board.GridManager.CheckAndClearLines | js/GridManager.js:46-104 | the report and the new board are those of the clearing rule on the old board (see Lines.ClearLinesCorrect) |
| Board.ResetKeys | js/GridManager.js:92-100 | the forEach reports each key with its colour, then resets exactly those keys |
| Spawner.Tier | js/BlockGenerator.js:11-17 | the tier lies in 1..5 and follows the cut points 2, 40, 70 and 90 |
| Spawner.TierMonotone | js/BlockGenerator.js:13-17 | a larger draw never gives a lower tier |
| Spawner.FirstOfTier | js/BlockGenerator.js:19-21 | the index of the first item of the tier, or none when the tier is absent |
| Spawner.WeightedPick | js/BlockGenerator.js:19-22 | a pick exists iff the list is non-empty; the pick is in the list and has the drawn tier when any item has it |
| Spawner.Shuffled | js/BlockGenerator.js:10 | the shuffled copy has one item per index of the order, item `order[k]` at position k (a permutation order gives the items' length; see Spawner.ShuffledPermutes) |
| Spawner.ShuffledPermutes | js/BlockGenerator.js:10 | the shuffled copy holds every item as often as the list does |
| Spawner.GetWeightedRandom | js/BlockGenerator.js:8-23 | the result is the weighted pick from the items rearranged by the permutation |
| Spawner.PickFromItems | js/BlockGenerator.js:8-23 | on a non-empty list the pick is one of the items, of the drawn tier when the list has one |
| Spawner.CatalogPickHasTier | js/BlockGenerator.js:19-21 | on the catalogue the pick always has the drawn tier (never the fallback) |
| Spawner.TotalCountIsDefaultBoard | js/BlockGenerator.js:50 | `totalCount` is 91, the cell count of the default board |
| Spawner.LeafAccepts | js/BlockGenerator.js:58 | the leaf test: a clear, or a free-cell ratio above 0.25 of 91 (see Spawner.LeafThreshold) |
| Spawner.LeafThreshold | js/BlockGenerator.js:58 | a complete placement is accepted iff it cleared a line or 4 · free > 91, i.e. at least 23 free cells |
| Spawner.CountFree | js/BlockGenerator.js:49-53 | the loop counts the unoccupied cells of the state |
| Spawner.Step | js/BlockGenerator.js:69-73 | the simulated placement and clear: no state iff the shape does not fit at the centre; otherwise the board keeps its keys |
| Spawner.Solvable | js/BlockGenerator.js:48-79 | what `solve` decides: the leaf test with no shape left, else some key is a centre of an accepted branch (characterised by Spawner.SolvableIffRun) |
| Spawner.Branch | js/BlockGenerator.js:65-76 | one iteration of the loop over keys: place, clear, recurse on the rest with the flag or-ed in |
| Spawner.Solve | js/BlockGenerator.js:48-79 | the search answers the ghost predicate Solvable on the state, the remaining shapes and the flag |
| Spawner.SolvableMonotone | js/BlockGenerator.js:74 | starting with a clear already recorded never loses a solution |
| Spawner.SolvableIffRun | js/BlockGenerator.js:55-79 | Solvable iff some sequence of centres places every shape legally, in order, and the final state is accepted |
| Spawner.SolutionCentres | js/BlockGenerator.js:65-76 | a solvable search yields the centres of an accepted run |
| Spawner.RunSolves | js/BlockGenerator.js:65-76 | an accepted run makes the search succeed |
| Spawner.NoFitNoSolution | js/BlockGenerator.js:65-78 | if the first shape fits nowhere, the search fails |
| Spawner.PickOf | js/BlockGenerator.js:29 | a pick from the catalogue under a drawn permutation has the drawn tier |
| Spawner.Attempt | js/BlockGenerator.js:29 | an attempt consists of three picks |
| Spawner.PickOfInCatalog | js/BlockGenerator.js:29 | every pick is a catalogue shape |
| Spawner.AttemptInCatalog | js/BlockGenerator.js:29 | each of the three picks is a catalogue shape of its draw's tier |
| Spawner.DrawTriple | js/BlockGenerator.js:29 | the three calls yield the attempt's triple |
| Spawner.RejectOneMore | js/BlockGenerator.js:26-39 | a rejected attempt extends the run of rejected attempts by one |
| Spawner.SpawnShapes | js/BlockGenerator.js:25-42 | three catalogue shapes: either the first attempt under 100 whose triple the search accepts, or three Dots after 100 rejected attempts |
| LegacyGame.RandomItem | js/game.js:42-44 | `arr[floor(u · length)]` is an element of the array |
| LegacyGame.LegacyAt | js/game.js:271-328 | the key looked up for line i at loop position j lies on line i at position j |
| LegacyGame.LegacyAtUnique | js/game.js:311-328 | a cell of line i is the key looked up at its own position |
| LegacyGame.LineIsFull | js/game.js:272-280 | the inner loop with its `continue` and `break` yields true iff every existing visited cell is occupied |
| LegacyGame.ClearLineIn | js/game.js:281-287 | the clearing loop resets exactly the existing cells of the line |
| LegacyGame.StepLine | js/game.js:272-287 | one line of a family: reset when its existing cells are all occupied (see LegacyGame.StepLineEffect) |
| LegacyGame.Sweep | js/game.js:271-288 | the lines i..R of a family, one after the other, each on the board the previous left (see LegacyGame.SweepEffect) |
| LegacyGame.SweepFamily | js/game.js:271-288 | an outer loop applies the line steps -R..R in order |
| LegacyGame.StepLineEffect | js/game.js:281-287 | one line step only resets cells and leaves that line not full |
| LegacyGame.ResetsKeepNotFull | js/game.js:269-330 | resetting cells never makes a line full |
| LegacyGame.ResetsKeepNoFullLine | js/game.js:269-330 | resetting cells keeps a family free of full lines |
| LegacyGame.SweepEffect | js/game.js:271-288 | a sweep only resets cells and leaves its lines from i on not full |
| LegacyGame.SequentialClear | js/game.js:269-330 | checkLines: the r-lines, then the q-lines, then the q + r lines (see LegacyGame.SequentialOnlyResets and SequentialNoFullLine) |
| LegacyGame.SequentialOnlyResets | js/game.js:269-330 | checkLines keeps the key set and either keeps or resets each cell |
| LegacyGame.SequentialNoFullLine | js/game.js:269-330 | after checkLines no non-empty line -R..R of any family is full, despite the later sweeps |
| LegacyGame.Game.constructor | js/game.js:30-34 | with 344-348: the board is the radius-5 hexagon; the slots hold the three shapes at scale 0.8, each with a random colour |
| LegacyGame.Game.InitGrid | js/game.js:94-102 | every hexagon cell becomes an empty cell; other keys and the slots are kept |
| LegacyGame.Game.CanPlaceShape | js/game.js:249-259 | true iff every offset cell exists and is unoccupied |
| LegacyGame.Game.PlaceShape | js/game.js:261-267 | every offset cell is set to `{occupied: true, color}` of the dragged slot; the slots are kept |
| LegacyGame.Game.CheckLines | js/game.js:269-330 | the new board is the sequential clear of the old one: rows, then columns, then the q + r lines |
| LegacyGame.Game.SpawnNewShapesIfEmpty | js/game.js:332-342 | when every slot is empty, each slot gets scale 0.8 and the shape and colour of its draws; otherwise nothing changes |
| LegacyGame.AllEmpty | js/game.js:333 | true iff no slot holds a shape |
| LegacyGame.RefillFromShapes | js/game.js:335-340 | every refilled shape is one of the three shapes and every colour one of the five colours |
| Themes.NamesAreKeys | js/Theme.js:4-61 | the declaration-order name list holds exactly the palette keys, each once |
| Themes.Field | js/Theme.js:63-65 | a palette lookup gives a colour exactly for the five field names, the inherited member exactly for an `Object.prototype` member name, and `undefined` for every other key |
| Themes.IndexOf | js/Theme.js:73 | the index lies in -1 .. length - 1 |
| Themes.IndexOfFirst | js/Theme.js:73 | -1 iff the name is missing; otherwise the position of its first occurrence |
| Themes.IndexOfListed | js/Theme.js:73 | in a list without repeats each entry is found at its own position |
| Themes.WrapIndex | js/Theme.js:74 | `(i) % length` for 0 ≤ i ≤ length is i, or 0 when i = length |
| Themes.NextName | js/Theme.js:71-76 | nextTheme's move over the declared names (its properties are Themes.NextNameStep, NextNameWraps, NextNameUnknown and FullCycle) |
| Themes.DistinctListed | js/Theme.js:73 | in a list without repeats indexOf finds every entry at its own position |
| Themes.NextInStep | js/Theme.js:71-76 | in a list whose entries indexOf finds at their own positions, the next name after the k-th is the (k + 1)-th, the last wrapping to the first |
| Themes.NextNameStep | js/Theme.js:71-76 | nextTheme from the k-th theme moves to the (k + 1)-th, or from the last to the first |
| Themes.NextNameWraps | js/Theme.js:74-75 | from `bloodMoon` nextTheme returns to `neon` |
| Themes.NextNameUnknown | js/Theme.js:73-75 | an unlisted current name (index -1) moves to the first theme |
| Themes.AdvanceWithin | js/Theme.js:71-76 | n steps from the k-th name reach the (k + n)-th while within the list |
| Themes.CycleIn | js/Theme.js:71-76 | as many steps as the list is long return to the starting name |
| Themes.FullCycle | js/Theme.js:4-76 | eight nextTheme calls return to the starting theme |
| Themes.Selected | js/Theme.js:67-69 | the name when the table has it, else the current name |
| Themes.SelectedKeepsTheme | js/Theme.js:67-69 | whatever is passed, setTheme keeps current a palette name |
| Themes.Theme.constructor | js/Theme.js:3 | the theme starts at `lava`, a palette name |
| Themes.Theme.Get | js/Theme.js:63-65 | the current palette's lookup of key: its colour for the five field names, an inherited member for an `Object.prototype` name, otherwise `undefined` |
| Themes.Theme.SetTheme | js/Theme.js:67-69 | current becomes name when the table has it, else stays; a palette name stays a palette name |
| Themes.Theme.NextTheme | js/Theme.js:71-76 | current becomes the next name in declaration order and is always a palette name |
| Themes.SelectedAsWritten | js/Theme.js:68 | the guard as written: the name is taken also for an inherited `Object.prototype` member |
| Themes.SelectedAsWrittenEscapes | js/Theme.js:68 | `setTheme('toString')` as written leaves current naming no palette |

## Left out

- The string keys `"q,r"` and `split`/`parseInt`/`Number` on them: the model keys the board map by the coordinate pair directly.
- The iteration order of a JavaScript `Map`. `canPlaceAny` and `solve` return booleans, which the visiting order cannot change. The model visits keys in an arbitrary order (`canPlaceAny`) or quantifies over them (`solve`).
- Spawner.GetWeightedRandom: `sort(() => Math.random() - 0.5)` is modelled as an arbitrary permutation of indices. The biased distribution this comparator gives is not modelled, and neither is the distribution of any `Math.random` draw.
- Spawner.SpawnShapes: the comment at js/BlockGenerator.js:34 considers trying every ordering of the triple, but `solve` tries only the drawn order; the model follows the code.
- Board.CloneGridState: the board is a value here, so the copy is the identity; aliasing between the live and the simulated board cannot arise.
- Board.TestPlace: these functions are called but not defined in js/GridManager.js. The simulated placement writes `{occupied: true, color: null}` because the search knows no colour. `testClear` applies the same rule as `checkAndClearLines`, and `hasCleared` means the line count is positive.
- `console.log` calls (js/BlockGenerator.js:28, 54, 56-57 and js/game.js:296): output only.
- The drawing, input, audio, effects and resize code of js/game.js and the other files (canvas geometry, pixel maths, event handlers), and the slots' pixel positions `x`, `y`.
- The global `dragTarget`: `placeShape` reads its colour. LegacyGame.Game.PlaceShape takes that colour as a parameter.
- Themes.Theme.Get: requires that current names a palette, which the constructor, SetTheme (the corrected guard) and NextTheme keep true. Under the guard as written, current can become an `Object.prototype` member name such as `toString`; `get` then reads a property of that function or object, which the model does not cover.
- Themes.Theme.SetTheme: models the corrected guard, own keys of `colors` only (see Findings); the as-written guard is Themes.SelectedAsWritten.
- Themes.SelectedAsWritten: only the standard `Object.prototype` members are modelled as inherited properties.
- Themes.Field: the same: an inherited member is represented by its name only, not by the function or object it is, and properties added to `Object.prototype` at run time are not modelled.

## Findings

| source | as written | input that shows it | evidently intended | confidence | as-written member | corrected member |
|---|---|---|---|---|---|---|
| js/Theme.js:68 | `if (this.colors[name])` also succeeds for properties that `colors` inherits from `Object.prototype` | `setTheme('toString')` sets current to `'toString'`, which names no palette | switch only to a declared theme name | not executed | Themes.SelectedAsWritten, Themes.SelectedAsWrittenEscapes | Themes.Theme.SetTheme, Themes.SelectedKeepsTheme |
