/** The live board, class GridManager (js/GridManager.js), and the pure
    simulation functions the spawner calls on it (cloneGridState, testPlace,
    testClear), which the file calls but does not define. */
module Board {
  import opened Hex
  import opened Catalog
  import opened Lines

  /** The cell a simulated placement writes: the search knows no colour. */
  const SimulatedCell: Cell := Cell(true, None)

  /** cloneGridState: the board is a value here, so the copy is the map itself. */
  function CloneGridState(state: State): State {
    state
  }

  /** testPlace: no state when the placement is illegal, otherwise the board
      with the shape's cells occupied. */
  function TestPlace(state: State, center: Coord, shape: Shape): (placed: Option<State>)
    ensures placed.None? <==> !Fits(state, center, shape.coords)
    ensures placed.Some? ==> placed.value.Keys == state.Keys
    ensures placed.Some? ==> forall c :: c in state ==>
      placed.value[c] == if c in Targets(center, shape.coords) then SimulatedCell else state[c]
  {
    if Fits(state, center, shape.coords) then
      StampLegal(state, center, shape.coords, SimulatedCell);
      Some(Stamp(state, center, shape.coords, SimulatedCell))
    else None
  }

  /** testClear: the checkAndClearLines rule applied to a copy, with whether
      any line was cleared. */
  function TestClear(state: State, radius: int): (result: (State, bool))
    ensures result.0.Keys == state.Keys
    ensures result.1 <==> |FullIndices(state, radius, Row)| + |FullIndices(state, radius, Col)| + |FullIndices(state, radius, Diag)| > 0
  {
    ClearLinesCorrect(state, radius);
    var out := ClearLines(state, radius);
    (out.state, out.info.linesCleared > 0)
  }

  class GridManager {
    const radius: int
    var gridState: State

    /** `new GridManager(radius)`: an empty map filled by init. */
    constructor (radius: int)
      ensures this.radius == radius
      ensures gridState == Blank(HexCells(radius))
    {
      this.radius := radius;
      gridState := map[];
      new;
      Init();
      assert map[] + Blank(HexCells(radius)) == Blank(HexCells(radius));
    }

    /** init: writes an empty cell at every hexagon coordinate, column by column. */
    method Init()
      modifies this
      ensures gridState == old(gridState) + Blank(HexCells(radius))
    {
      gridState := FillHexagon(radius, gridState);
    }

    /** canPlace: every offset cell exists and is unoccupied. */
    method CanPlace(center: Coord, shape: Shape) returns (ok: bool)
      ensures ok <==> Fits(gridState, center, shape.coords)
    {
      var i := 0;
      while i < |shape.coords|
        invariant 0 <= i <= |shape.coords|
        invariant forall k :: 0 <= k < i ==>
          Offset(center, shape.coords[k]) in gridState && !gridState[Offset(center, shape.coords[k])].occupied
      {
        var cell := Offset(center, shape.coords[i]);
        if cell !in gridState || gridState[cell].occupied {
          return false;
        }
        i := i + 1;
      }
      return true;
    }

    /** canPlaceAny: some unoccupied cell is a centre where the shape fits. */
    method CanPlaceAny(shape: Shape) returns (ok: bool)
      ensures ok <==> exists c :: c in gridState && !gridState[c].occupied && Fits(gridState, c, shape.coords)
    {
      var keys := gridState.Keys;
      while keys != {}
        invariant keys <= gridState.Keys
        invariant forall c :: c in gridState && c !in keys && !gridState[c].occupied ==> !Fits(gridState, c, shape.coords)
        decreases |keys|
      {
        var c :| c in keys;
        keys := keys - {c};
        if !gridState[c].occupied {
          var fits := CanPlace(c, shape);
          if fits {
            return true;
          }
        }
      }
      return false;
    }

    /** place: writes `{ occupied: true, color }` at every offset cell, one at a
        time, without checking legality. */
    method Place(center: Coord, shape: Shape, color: Color)
      modifies this
      ensures gridState == Stamp(old(gridState), center, shape.coords, Cell(true, Some(color)))
    {
      var cell := Cell(true, Some(color));
      StampEmpty(gridState, center, shape.coords, cell);
      var i := 0;
      while i < |shape.coords|
        invariant 0 <= i <= |shape.coords|
        invariant gridState == Stamp(old(gridState), center, shape.coords[..i], cell)
      {
        StampStep(old(gridState), center, shape.coords, cell, i);
        gridState := gridState[Offset(center, shape.coords[i]) := cell];
        i := i + 1;
      }
      assert shape.coords[..i] == shape.coords;
    }

    /** checkAndClearLines: collect the full lines of the three families, then
        report and reset the union of their cells once each. */
    method CheckAndClearLines() returns (clearedInfo: ClearInfo)
      modifies this
      ensures clearedInfo == ClearLines(old(gridState), radius).info
      ensures gridState == ClearLines(old(gridState), radius).state
    {
      var cleared;
      clearedInfo, cleared := ClearAndReport(gridState, radius);
      gridState := cleared;
    }
  }

  /** The body of checkAndClearLines over a given board: the three scans, the
      deduplication, the report and the reset. */
  method ClearAndReport(state: State, radius: int) returns (clearedInfo: ClearInfo, cleared: State)
    ensures clearedInfo == ClearLines(state, radius).info
    ensures cleared == ClearLines(state, radius).state
  {
    var rows, rowCount := ScanFamily(state, radius, Row);
    var cols, colCount := ScanFamily(state, radius, Col);
    var diags, diagCount := ScanFamily(state, radius, Diag);
    var linesToClear := rows + cols + diags;
    var clearedCount := rowCount + colCount + diagCount;
    assert linesToClear == LinesToClear(state, radius);
    var uniqueCoords := Dedup(linesToClear);
    var grid;
    grid, cleared := ResetKeys(state, uniqueCoords);
    clearedInfo := ClearInfo(grid, clearedCount);
  }

  /** The inner loop of a line scan: the keys of line i of a family, visited
      in scan order. */
  method LineAt(state: State, radius: int, axis: Axis, i: int) returns (line: seq<Coord>)
    ensures line == LineKeys(state, radius, axis, i)
  {
    line := [];
    var j := -radius;
    while j <= radius
      invariant -radius <= j <= Max(-radius, radius + 1)
      invariant line + Scan(state, radius, axis, i, j) == Scan(state, radius, axis, i, -radius)
    {
      ScanStep(state, radius, axis, i, j, line);
      var c := At(axis, i, j);
      if c in state {
        line := line + [c];
      }
      j := j + 1;
    }
  }

  /** One of the three scans of checkAndClearLines: pushes every full line of
      the family, counting them. */
  method ScanFamily(state: State, radius: int, axis: Axis) returns (pushed: seq<Coord>, count: nat)
    ensures pushed == Collect(state, radius, axis, radius + 1)
    ensures count == CountFull(state, radius, axis, radius + 1)
  {
    pushed, count := [], 0;
    var i := -radius;
    while i <= radius
      invariant -radius <= i <= Max(-radius, radius + 1)
      invariant pushed == Collect(state, radius, axis, i)
      invariant count == CountFull(state, radius, axis, i)
    {
      var line := LineAt(state, radius, axis, i);
      var full := IsLineFull(state, line);
      assert Collect(state, radius, axis, i + 1) == pushed + (if full then line else []);
      assert CountFull(state, radius, axis, i + 1) == count + (if full then 1 else 0);
      if full {
        pushed := pushed + line;
        count := count + 1;
      }
      i := i + 1;
    }
  }

  /** init's nested loop over a given map: writes an empty cell at every
      hexagon coordinate, column by column, row by row. */
  method FillHexagon(radius: int, cells: State) returns (filled: State)
    ensures filled == cells + Blank(HexCells(radius))
  {
    filled := cells;
    InitDoneStart(cells, radius);
    var q := -radius;
    while q <= radius
      invariant -radius <= q <= Max(-radius, radius + 1)
      invariant filled == cells + Blank(InitDone(radius, q, ColumnLow(radius, q)))
    {
      var r1 := Max(-radius, -q - radius);
      var r2 := Min(radius, -q + radius);
      var r := r1;
      while r <= r2
        invariant r1 <= r <= r2 + 1
        invariant filled == cells + Blank(InitDone(radius, q, r))
      {
        InitDoneRow(cells, radius, q, r);
        filled := filled[Coord(q, r) := EmptyCell];
        r := r + 1;
      }
      InitDoneColumn(cells, radius, q, r);
      q := q + 1;
    }
    InitDoneAll(cells, radius, q, ColumnLow(radius, q));
  }

  /** checkAndClearLines' final loop over a list of keys without repeats: push
      each key's entry with its colour, then reset its cell. */
  method ResetKeys(state: State, keys: seq<Coord>) returns (grid: seq<ClearedCell>, cleared: State)
    requires forall k :: k in keys ==> k in state
    requires forall a, b :: 0 <= a < b < |keys| ==> keys[a] != keys[b]
    ensures grid == Entries(state, keys)
    ensures cleared == Cleared(state, Members(keys))
  {
    grid, cleared := [], state;
    assert Members(keys[..0]) == {};
    var j := 0;
    while j < |keys|
      invariant 0 <= j <= |keys|
      invariant cleared == Cleared(state, Members(keys[..j]))
      invariant grid == Entries(state, keys[..j])
    {
      var key := keys[j];
      ClearedStep(state, keys, j);
      EntriesStep(state, keys, j);
      grid := grid + [ClearedCell(key.q, key.r, cleared[key].color)];
      cleared := cleared[key := EmptyCell];
      j := j + 1;
    }
    assert keys[..j] == keys;
  }

  /** A shape that contains its anchor cell can only be placed with an
      unoccupied centre, so canPlaceAny's pre-filter loses no placement. */
  lemma AnchoredCentreIsFree(state: State, shape: Shape)
    requires Coord(0, 0) in shape.coords
    ensures (exists c :: c in state && !state[c].occupied && Fits(state, c, shape.coords)) <==>
            (exists c :: Fits(state, c, shape.coords))
  {
    if c :| Fits(state, c, shape.coords) {
      var k :| 0 <= k < |shape.coords| && shape.coords[k] == Coord(0, 0);
      assert Offset(c, shape.coords[k]) == c;
    }
  }
}
