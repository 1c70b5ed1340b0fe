/** The earlier board revision of js/game.js: the module-level `gridState`
    map and `selectionSlots` array, with initGrid, canPlaceShape, placeShape,
    the sequential line clear checkLines and spawnNewShapesIfEmpty. Each full
    line is cleared as soon as it is found, so later lines are judged on the
    board the earlier clears left. */
module LegacyGame {
  import opened Hex
  import opened Lines
  import Board

  /** The global RADIUS checkLines scans with. */
  const RADIUS: int := 5

  /** The tray colours. */
  const COLORS: seq<Color> := ["#FF5733", "#33FF57", "#3357FF", "#F1C40F", "#9B59B6"]

  /** A shape of this revision: a name and its `[q, r]` offsets. */
  datatype Piece = Piece(name: string, coords: seq<Coord>)

  /** This revision's three shapes. */
  const SHAPES: seq<Piece> := [
    Piece("Slash", [Coord(0, 0), Coord(0, 1), Coord(0, -1)]),
    Piece("Small-Triangle", [Coord(0, 0), Coord(0, -1), Coord(-1, 0)]),
    Piece("Small-Triangle-Reversed", [Coord(0, 0), Coord(-1, 1), Coord(-1, 0)])
  ]

  /** A tray slot; its pixel position is not modelled. */
  datatype Slot = Slot(shape: Option<Piece>, scale: real, isDragging: bool, color: Color)

  /** getRandomItem: `arr[Math.floor(u * arr.length)]` for a draw u in [0, 1). */
  function RandomItem<T>(arr: seq<T>, u: real): (item: T)
    requires |arr| > 0 && 0.0 <= u < 1.0
    ensures item in arr
  {
    var n := |arr| as real;
    assert 0.0 <= u * n < n;
    arr[(u * n).Floor]
  }

  // ---------------------------------------------------------------------------
  // The lines checkLines scans

  /** The loop variable a scan of a line runs over: q for the r-lines, r for
      the q-lines, and for the q+r lines the j of the key `(i + j, -j)`. */
  function LegacyPos(axis: Axis, c: Coord): int {
    match axis
    case Row => c.q
    case Col => c.r
    case Diag => -c.r
  }

  /** The key checkLines looks up for line i at loop position j. */
  function LegacyAt(axis: Axis, i: int, j: int): (c: Coord)
    ensures Index(axis, c) == i && LegacyPos(axis, c) == j
  {
    match axis
    case Row => Coord(j, i)
    case Col => Coord(i, j)
    case Diag => Coord(i + j, -j)
  }

  /** The only coordinate of line i at position j is the one looked up. */
  lemma LegacyAtUnique(axis: Axis, i: int, c: Coord)
    requires Index(axis, c) == i
    ensures c == LegacyAt(axis, i, LegacyPos(axis, c))
  {
  }

  /** c is among the keys visited for line i (positions -radius..radius). */
  predicate OnLine(axis: Axis, i: int, radius: int, c: Coord) {
    Index(axis, c) == i && -radius <= LegacyPos(axis, c) <= radius
  }

  /** `fullLine` after the first inner loop: every existing visited cell is
      occupied (so also when the line has no existing cell). */
  predicate AllOccupiedOn(state: State, axis: Axis, i: int, radius: int) {
    forall c :: c in state && OnLine(axis, i, radius, c) ==> state[c].occupied
  }

  /** The board with the existing cells of line i reset. */
  function ClearLine(state: State, axis: Axis, i: int, radius: int): State {
    map c | c in state :: if OnLine(axis, i, radius, c) then EmptyCell else state[c]
  }

  /** One line of a family: cleared when full. */
  function StepLine(state: State, axis: Axis, i: int, radius: int): State {
    if AllOccupiedOn(state, axis, i, radius) then ClearLine(state, axis, i, radius) else state
  }

  /** The lines i..radius of a family, one after the other. */
  function Sweep(state: State, axis: Axis, i: int, radius: int): State
    decreases radius - i + 1
  {
    if i > radius then state else Sweep(StepLine(state, axis, i, radius), axis, i + 1, radius)
  }

  /** checkLines on a given board: the r-lines, then the q-lines, then the
      q+r lines, each family swept from -radius to radius. */
  function SequentialClear(state: State, radius: int): State {
    Sweep(Sweep(Sweep(state, Row, -radius, radius), Col, -radius, radius), Diag, -radius, radius)
  }

  // ---------------------------------------------------------------------------
  // The loops of checkLines

  /** The first inner loop: stops at the first existing unoccupied cell. */
  method LineIsFull(state: State, axis: Axis, i: int, radius: int) returns (fullLine: bool)
    ensures fullLine == AllOccupiedOn(state, axis, i, radius)
  {
    fullLine := true;
    var j := -radius;
    while j <= radius
      invariant j == -radius || j <= radius + 1
      invariant forall c :: c in state && Index(axis, c) == i && -radius <= LegacyPos(axis, c) < j ==> state[c].occupied
    {
      var cell := LegacyAt(axis, i, j);
      if cell in state && !state[cell].occupied {
        fullLine := false;
        break;
      }
      forall c | c in state && Index(axis, c) == i && LegacyPos(axis, c) == j ensures state[c].occupied {
        LegacyAtUnique(axis, i, c);
      }
      j := j + 1;
    }
  }

  /** The board with the cells of line i at positions below j reset. */
  function PartCleared(state: State, axis: Axis, i: int, radius: int, j: int): State {
    map c | c in state :: if OnLine(axis, i, radius, c) && LegacyPos(axis, c) < j then EmptyCell else state[c]
  }

  lemma PartClearedStart(state: State, axis: Axis, i: int, radius: int)
    ensures PartCleared(state, axis, i, radius, -radius) == state
  {
  }

  lemma PartClearedStep(state: State, axis: Axis, i: int, radius: int, j: int)
    requires -radius <= j <= radius
    ensures (if LegacyAt(axis, i, j) in state then PartCleared(state, axis, i, radius, j)[LegacyAt(axis, i, j) := EmptyCell]
             else PartCleared(state, axis, i, radius, j)) == PartCleared(state, axis, i, radius, j + 1)
  {
    forall c | c in state && Index(axis, c) == i && LegacyPos(axis, c) == j ensures c == LegacyAt(axis, i, j) {
      LegacyAtUnique(axis, i, c);
    }
  }

  lemma PartClearedEnd(state: State, axis: Axis, i: int, radius: int, j: int)
    requires j > radius
    ensures PartCleared(state, axis, i, radius, j) == ClearLine(state, axis, i, radius)
  {
  }

  /** The clearing inner loop: resets every existing cell of line i. */
  method ClearLineIn(state: State, axis: Axis, i: int, radius: int) returns (after: State)
    ensures after == ClearLine(state, axis, i, radius)
  {
    after := state;
    PartClearedStart(state, axis, i, radius);
    var j := -radius;
    while j <= radius
      invariant j == -radius || j <= radius + 1
      invariant after == PartCleared(state, axis, i, radius, j)
    {
      PartClearedStep(state, axis, i, radius, j);
      var cell := LegacyAt(axis, i, j);
      if cell in after {
        after := after[cell := EmptyCell];
      }
      j := j + 1;
    }
    PartClearedEnd(state, axis, i, radius, j);
  }

  /** One of the three outer loops of checkLines. */
  method SweepFamily(state: State, axis: Axis, radius: int) returns (after: State)
    ensures after == Sweep(state, axis, -radius, radius)
  {
    after := state;
    var i := -radius;
    while i <= radius
      invariant i == -radius || i <= radius + 1
      invariant Sweep(after, axis, i, radius) == Sweep(state, axis, -radius, radius)
    {
      var fullLine := LineIsFull(after, axis, i, radius);
      if fullLine {
        after := ClearLineIn(after, axis, i, radius);
      }
      i := i + 1;
    }
  }

  // ---------------------------------------------------------------------------
  // What the sequential clear guarantees

  /** `after` arises from `before` by resetting cells: same keys, and each
      cell either kept or reset. */
  predicate OnlyResets(before: State, after: State) {
    after.Keys == before.Keys && forall c :: c in before ==> after[c] == before[c] || after[c] == EmptyCell
  }

  /** A line that has visited cells and all of them occupied. */
  predicate FullNonEmpty(state: State, axis: Axis, i: int, radius: int) {
    (exists c :: c in state && OnLine(axis, i, radius, c)) && AllOccupiedOn(state, axis, i, radius)
  }

  /** No line -radius..radius of the family is full and non-empty. */
  predicate NoFullLine(state: State, axis: Axis, radius: int) {
    forall i :: -radius <= i <= radius ==> !FullNonEmpty(state, axis, i, radius)
  }

  lemma OnlyResetsTrans(a: State, b: State, c: State)
    requires OnlyResets(a, b) && OnlyResets(b, c)
    ensures OnlyResets(a, c)
  {
  }

  /** Resetting cells cannot make a line full. */
  lemma ResetsKeepNotFull(before: State, after: State, axis: Axis, i: int, radius: int)
    requires OnlyResets(before, after)
    requires !FullNonEmpty(before, axis, i, radius)
    ensures !FullNonEmpty(after, axis, i, radius)
  {
    if FullNonEmpty(after, axis, i, radius) {
      var c :| c in after && OnLine(axis, i, radius, c);
      assert c in before;
      forall d | d in before && OnLine(axis, i, radius, d) ensures before[d].occupied {
        assert after[d].occupied;
      }
    }
  }

  /** Resetting cells keeps every line of a family not full. */
  lemma ResetsKeepNoFullLine(before: State, after: State, axis: Axis, radius: int)
    requires OnlyResets(before, after)
    requires NoFullLine(before, axis, radius)
    ensures NoFullLine(after, axis, radius)
  {
    forall i | -radius <= i <= radius ensures !FullNonEmpty(after, axis, i, radius) {
      ResetsKeepNotFull(before, after, axis, i, radius);
    }
  }

  /** One step only resets cells, and leaves its line not full. */
  lemma StepLineEffect(state: State, axis: Axis, i: int, radius: int)
    ensures OnlyResets(state, StepLine(state, axis, i, radius))
    ensures !FullNonEmpty(StepLine(state, axis, i, radius), axis, i, radius)
  {
  }

  /** A sweep from line i only resets cells and leaves lines i..radius not
      full; lines before i keep whatever they had. */
  lemma {:induction false} SweepEffect(state: State, axis: Axis, i: int, radius: int)
    requires -radius <= i
    ensures OnlyResets(state, Sweep(state, axis, i, radius))
    ensures forall k :: i <= k <= radius ==> !FullNonEmpty(Sweep(state, axis, i, radius), axis, k, radius)
    decreases radius - i + 1
  {
    if i <= radius {
      var next := StepLine(state, axis, i, radius);
      var after := Sweep(next, axis, i + 1, radius);
      StepLineEffect(state, axis, i, radius);
      SweepEffect(next, axis, i + 1, radius);
      OnlyResetsTrans(state, next, after);
      ResetsKeepNotFull(next, after, axis, i, radius);
    }
  }

  /** checkLines only resets existing cells: the key set is kept. */
  lemma SequentialOnlyResets(state: State, radius: int)
    requires radius >= 0
    ensures OnlyResets(state, SequentialClear(state, radius))
  {
    var rows := Sweep(state, Row, -radius, radius);
    var cols := Sweep(rows, Col, -radius, radius);
    SweepEffect(state, Row, -radius, radius);
    SweepEffect(rows, Col, -radius, radius);
    SweepEffect(cols, Diag, -radius, radius);
    OnlyResetsTrans(state, rows, cols);
    OnlyResetsTrans(state, cols, SequentialClear(state, radius));
  }

  /** After checkLines no non-empty line -radius..radius of any family is full. */
  lemma SequentialNoFullLine(state: State, radius: int)
    requires radius >= 0
    ensures NoFullLine(SequentialClear(state, radius), Row, radius)
    ensures NoFullLine(SequentialClear(state, radius), Col, radius)
    ensures NoFullLine(SequentialClear(state, radius), Diag, radius)
  {
    var rows := Sweep(state, Row, -radius, radius);
    var cols := Sweep(rows, Col, -radius, radius);
    var diags := Sweep(cols, Diag, -radius, radius);
    SweepEffect(state, Row, -radius, radius);
    SweepEffect(rows, Col, -radius, radius);
    SweepEffect(cols, Diag, -radius, radius);
    assert NoFullLine(rows, Row, radius);
    assert NoFullLine(cols, Col, radius);
    assert NoFullLine(diags, Diag, radius);
    ResetsKeepNoFullLine(rows, cols, Row, radius);
    ResetsKeepNoFullLine(cols, diags, Row, radius);
    ResetsKeepNoFullLine(cols, diags, Col, radius);
  }

  // ---------------------------------------------------------------------------
  // The game's state

  class Game {
    var gridState: State
    var selectionSlots: seq<Slot>

    /** The script's start-up: three slots with random colours holding the
        three shapes, and the board built by `initGrid(RADIUS)`. */
    constructor (colorDraws: seq<real>)
      requires |colorDraws| == 3 && forall k :: 0 <= k < 3 ==> 0.0 <= colorDraws[k] < 1.0
      ensures gridState == Blank(HexCells(RADIUS))
      ensures |selectionSlots| == 3
      ensures forall k :: 0 <= k < 3 ==> selectionSlots[k] == Slot(Some(SHAPES[k]), 0.8, false, RandomItem(COLORS, colorDraws[k]))
    {
      gridState := map[];
      selectionSlots := seq(3, k requires 0 <= k < 3 => Slot(Some(SHAPES[k]), 0.8, false, RandomItem(COLORS, colorDraws[k])));
      new;
      InitGrid(RADIUS);
      assert map[] + Blank(HexCells(RADIUS)) == Blank(HexCells(RADIUS));
    }

    /** initGrid: the nested loop of GridManager.init on the global map. */
    method InitGrid(radius: int)
      modifies this
      ensures gridState == old(gridState) + Blank(HexCells(radius))
      ensures selectionSlots == old(selectionSlots)
    {
      gridState := Board.FillHexagon(radius, gridState);
    }

    /** canPlaceShape: every offset cell exists and is unoccupied. */
    method CanPlaceShape(center: Coord, shape: Piece) returns (ok: bool)
      ensures ok <==> Fits(gridState, center, shape.coords)
    {
      var i := 0;
      while i < |shape.coords|
        invariant 0 <= i <= |shape.coords|
        invariant forall k :: 0 <= k < i ==>
          Offset(center, shape.coords[k]) in gridState && !gridState[Offset(center, shape.coords[k])].occupied
      {
        var cell := Offset(center, shape.coords[i]);
        if cell !in gridState || gridState[cell].occupied {
          return false;
        }
        i := i + 1;
      }
      return true;
    }

    /** placeShape: writes `{ occupied: true, color: dragTarget.color }` at every
        offset cell; `color` is the dragged slot's colour. */
    method PlaceShape(center: Coord, shape: Piece, color: Color)
      modifies this
      ensures gridState == Stamp(old(gridState), center, shape.coords, Cell(true, Some(color)))
      ensures selectionSlots == old(selectionSlots)
    {
      var cell := Cell(true, Some(color));
      StampEmpty(gridState, center, shape.coords, cell);
      var i := 0;
      while i < |shape.coords|
        invariant 0 <= i <= |shape.coords|
        invariant gridState == Stamp(old(gridState), center, shape.coords[..i], cell)
        invariant selectionSlots == old(selectionSlots)
      {
        StampStep(old(gridState), center, shape.coords, cell, i);
        gridState := gridState[Offset(center, shape.coords[i]) := cell];
        i := i + 1;
      }
      assert shape.coords[..i] == shape.coords;
    }

    /** checkLines: the r-lines, then the q-lines, then the q+r lines. */
    method CheckLines()
      modifies this
      ensures gridState == SequentialClear(old(gridState), RADIUS)
      ensures selectionSlots == old(selectionSlots)
    {
      var cells := SweepFamily(gridState, Row, RADIUS);
      cells := SweepFamily(cells, Col, RADIUS);
      cells := SweepFamily(cells, Diag, RADIUS);
      gridState := cells;
    }

    /** spawnNewShapesIfEmpty: when no slot holds a shape, every slot gets scale
        0.8, a random shape and a random colour. The draws are consumed in the
        source's order: shape then colour, slot by slot. */
    method SpawnNewShapesIfEmpty(draws: seq<real>)
      modifies this
      requires |draws| == 2 * |selectionSlots|
      requires forall k :: 0 <= k < |draws| ==> 0.0 <= draws[k] < 1.0
      ensures gridState == old(gridState)
      ensures |selectionSlots| == |old(selectionSlots)|
      ensures (forall k :: 0 <= k < |old(selectionSlots)| ==> old(selectionSlots)[k].shape.None?) ==>
        forall k :: 0 <= k < |selectionSlots| ==>
          selectionSlots[k] == old(selectionSlots)[k].(scale := 0.8, shape := Some(RandomItem(SHAPES, draws[2 * k])),
                                                       color := RandomItem(COLORS, draws[2 * k + 1]))
      ensures !(forall k :: 0 <= k < |old(selectionSlots)| ==> old(selectionSlots)[k].shape.None?) ==>
        selectionSlots == old(selectionSlots)
    {
      var allEmpty := AllEmpty(selectionSlots);
      if allEmpty {
        var slots := selectionSlots;
        var k := 0;
        while k < |slots|
          invariant 0 <= k <= |slots| == |selectionSlots|
          invariant gridState == old(gridState) && selectionSlots == old(selectionSlots)
          invariant forall m :: 0 <= m < k ==>
            slots[m] == selectionSlots[m].(scale := 0.8, shape := Some(RandomItem(SHAPES, draws[2 * m])),
                                           color := RandomItem(COLORS, draws[2 * m + 1]))
          invariant forall m :: k <= m < |slots| ==> slots[m] == selectionSlots[m]
        {
          var randomShape := RandomItem(SHAPES, draws[2 * k]);
          slots := slots[k := slots[k].(scale := 0.8, shape := Some(randomShape), color := RandomItem(COLORS, draws[2 * k + 1]))];
          k := k + 1;
        }
        selectionSlots := slots;
      }
    }
  }

  /** `selectionSlots.every(slot => slot.shape === null)` */
  method AllEmpty(slots: seq<Slot>) returns (allEmpty: bool)
    ensures allEmpty <==> forall k :: 0 <= k < |slots| ==> slots[k].shape.None?
  {
    var k := 0;
    while k < |slots|
      invariant 0 <= k <= |slots|
      invariant forall m :: 0 <= m < k ==> slots[m].shape.None?
    {
      if slots[k].shape.Some? {
        return false;
      }
      k := k + 1;
    }
    return true;
  }

  /** After a refill every slot holds one of this revision's shapes. */
  lemma RefillFromShapes(slots: seq<Slot>, draws: seq<real>)
    requires |draws| == 2 * |slots|
    requires forall k :: 0 <= k < |draws| ==> 0.0 <= draws[k] < 1.0
    ensures forall k :: 0 <= k < |slots| ==> RandomItem(SHAPES, draws[2 * k]) in SHAPES
    ensures forall k :: 0 <= k < |slots| ==> RandomItem(COLORS, draws[2 * k + 1]) in COLORS
  {
  }
}
