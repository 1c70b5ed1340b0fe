/** Value types shared by both board revisions: axial coordinates, cells, the
    board state as a map, the hexagonal set of board cells, and the placement
    rule (legality and the cells a placement writes). */
module Hex {

  datatype Option<T> = None | Some(value: T)

  /** An axial hex coordinate. The source keys its map by the string "q,r";
      the pair stands for that key. */
  datatype Coord = Coord(q: int, r: int)

  /** A colour as the source stores it (a CSS colour string). */
  type Color = string

  /** A board cell: `{ occupied, color }`, where a missing colour is `null`. */
  datatype Cell = Cell(occupied: bool, color: Option<Color>)

  /** `{ occupied: false, color: null }` */
  const EmptyCell: Cell := Cell(false, None)

  /** The board: a map from coordinate to cell. */
  type State = map<Coord, Cell>

  function Max(a: int, b: int): int { if a >= b then a else b }
  function Min(a: int, b: int): int { if a <= b then a else b }

  /** Lowest and highest r of column q on a board of the given radius. */
  function ColumnLow(radius: int, q: int): int { Max(-radius, -q - radius) }
  function ColumnHigh(radius: int, q: int): int { Min(radius, -q + radius) }

  /** The cells of a hexagonal board of the given radius. */
  function HexCells(radius: int): set<Coord> {
    set q: int, r: int | -radius <= q <= radius && ColumnLow(radius, q) <= r <= ColumnHigh(radius, q) :: Coord(q, r)
  }

  /** A map holding an empty cell at each of the given coordinates. */
  function Blank(cells: set<Coord>): State {
    map c | c in cells :: EmptyCell
  }

  /** Adding one more blank cell to a map. */
  lemma BlankAdd(m: State, cells: set<Coord>, c: Coord)
    ensures (m + Blank(cells))[c := EmptyCell] == m + Blank(cells + {c})
  {
  }

  /** The cells init has written once it reaches column q, row r (columns
      ascending, rows ascending within a column). */
  function InitDone(radius: int, q: int, r: int): set<Coord> {
    set c | c in HexCells(radius) && (c.q < q || (c.q == q && c.r < r))
  }

  /** Before the first column nothing is written. */
  lemma InitDoneStart(m: State, radius: int)
    ensures m + Blank(InitDone(radius, -radius, ColumnLow(radius, -radius))) == m
  {
    assert InitDone(radius, -radius, ColumnLow(radius, -radius)) == {};
  }

  /** Writing row r of column q adds that one cell. */
  lemma InitDoneRow(m: State, radius: int, q: int, r: int)
    requires -radius <= q <= radius && ColumnLow(radius, q) <= r <= ColumnHigh(radius, q)
    ensures (m + Blank(InitDone(radius, q, r)))[Coord(q, r) := EmptyCell] == m + Blank(InitDone(radius, q, r + 1))
  {
    assert InitDone(radius, q, r + 1) == InitDone(radius, q, r) + {Coord(q, r)};
    BlankAdd(m, InitDone(radius, q, r), Coord(q, r));
  }

  /** Past the last row of column q, the written cells are those before column q + 1. */
  lemma InitDoneColumn(m: State, radius: int, q: int, r: int)
    requires r > ColumnHigh(radius, q)
    ensures m + Blank(InitDone(radius, q, r)) == m + Blank(InitDone(radius, q + 1, ColumnLow(radius, q + 1)))
  {
    assert InitDone(radius, q, r) == InitDone(radius, q + 1, ColumnLow(radius, q + 1));
  }

  /** Past the last column, every cell is written. */
  lemma InitDoneAll(m: State, radius: int, q: int, r: int)
    requires q > radius
    ensures m + Blank(InitDone(radius, q, r)) == m + Blank(HexCells(radius))
  {
    assert InitDone(radius, q, r) == HexCells(radius);
  }

  /** The cell `center + rel`. */
  function Offset(center: Coord, rel: Coord): Coord {
    Coord(center.q + rel.q, center.r + rel.r)
  }

  /** The cells a shape with these offsets covers when anchored at center. */
  function Targets(center: Coord, coords: seq<Coord>): set<Coord> {
    set k | 0 <= k < |coords| :: Offset(center, coords[k])
  }

  /** Placement legality: every offset cell exists and is unoccupied. */
  predicate Fits(state: State, center: Coord, coords: seq<Coord>) {
    forall k :: 0 <= k < |coords| ==> Offset(center, coords[k]) in state && !state[Offset(center, coords[k])].occupied
  }

  /** The board after writing `cell` at every offset cell, adding a key when an
      offset cell is not on the board (what `Map.set` does). */
  function Stamp(state: State, center: Coord, coords: seq<Coord>, cell: Cell): State {
    map c | c in state.Keys + Targets(center, coords) :: if c in Targets(center, coords) then cell else state[c]
  }

  /** A legal placement writes exactly the covered cells and keeps the key set. */
  lemma StampLegal(state: State, center: Coord, coords: seq<Coord>, cell: Cell)
    requires Fits(state, center, coords)
    ensures Stamp(state, center, coords, cell).Keys == state.Keys
    ensures forall c :: c in state ==>
      Stamp(state, center, coords, cell)[c] == (if c in Targets(center, coords) then cell else state[c])
  {
    forall c | c in Targets(center, coords) ensures c in state {
      var k :| 0 <= k < |coords| && c == Offset(center, coords[k]);
    }
  }

  /** An illegal placement whose failing cell is off the board adds that key. */
  lemma StampOffBoard(state: State, center: Coord, coords: seq<Coord>, cell: Cell, k: nat)
    requires k < |coords| && Offset(center, coords[k]) !in state
    ensures Stamp(state, center, coords, cell).Keys != state.Keys
    ensures Stamp(state, center, coords, cell)[Offset(center, coords[k])] == cell
  {
    assert Offset(center, coords[k]) in Targets(center, coords);
  }

  /** Writing the offsets one at a time (the source's forEach) builds Stamp. */
  lemma {:induction false} StampStep(state: State, center: Coord, coords: seq<Coord>, cell: Cell, i: nat)
    requires i < |coords|
    ensures Stamp(state, center, coords[..i], cell)[Offset(center, coords[i]) := cell]
         == Stamp(state, center, coords[..i + 1], cell)
  {
    var prefix, next := coords[..i], coords[..i + 1];
    assert Targets(center, next) == Targets(center, prefix) + {Offset(center, coords[i])} by {
      forall c | c in Targets(center, next) ensures c in Targets(center, prefix) + {Offset(center, coords[i])} {
        var k :| 0 <= k < |next| && c == Offset(center, next[k]);
        if k < i { assert c == Offset(center, prefix[k]); }
      }
      forall c | c in Targets(center, prefix) ensures c in Targets(center, next) {
        var k :| 0 <= k < |prefix| && c == Offset(center, prefix[k]);
        assert c == Offset(center, next[k]);
      }
      assert Offset(center, coords[i]) == Offset(center, next[i]);
    }
  }

  lemma StampEmpty(state: State, center: Coord, coords: seq<Coord>, cell: Cell)
    ensures Stamp(state, center, coords[..0], cell) == state
  {
    assert Targets(center, coords[..0]) == {};
  }

  // ---------------------------------------------------------------------------
  // Size of the hexagon: 3R^2 + 3R + 1 cells.

  /** Column q of the hexagon, rows lo..hi. */
  function Column(q: int, lo: int, hi: int): set<Coord> {
    set r: int | lo <= r <= hi :: Coord(q, r)
  }

  lemma {:induction false} ColumnSize(q: int, lo: int, hi: int)
    ensures |Column(q, lo, hi)| == if lo <= hi then hi - lo + 1 else 0
    decreases hi - lo
  {
    if lo > hi {
      assert Column(q, lo, hi) == {};
    } else {
      ColumnSize(q, lo, hi - 1);
      assert Column(q, lo, hi) == Column(q, lo, hi - 1) + {Coord(q, hi)};
    }
  }

  /** The hexagon's columns with q < n. */
  function HexPrefix(radius: int, n: int): set<Coord> {
    set c | c in HexCells(radius) && c.q < n
  }

  /** Twice the number of cells in the columns -R .. n-1, in closed form. */
  function TwicePrefixSize(radius: int, n: int): int {
    if n <= 0 then (n + radius) * 2 * (radius + 1) + (n + radius) * (n + radius - 1)
    else 2 * radius * (radius + 1) + radius * (radius - 1) + 2 * n * (2 * radius + 1) - n * (n - 1)
  }

  lemma {:induction false} HexPrefixSize(radius: int, n: int)
    requires radius >= 0 && -radius <= n <= radius + 1
    ensures 2 * |HexPrefix(radius, n)| == TwicePrefixSize(radius, n)
    decreases n + radius
  {
    if n == -radius {
      assert HexPrefix(radius, n) == {};
    } else {
      var m := n - 1;
      HexPrefixSize(radius, m);
      var col := Column(m, ColumnLow(radius, m), ColumnHigh(radius, m));
      HexPrefixSplit(radius, m);
      assert HexPrefix(radius, m) * col == {} by {
        forall c | c in col ensures c !in HexPrefix(radius, m) { }
      }
      ColumnSize(m, ColumnLow(radius, m), ColumnHigh(radius, m));
      assert |col| == 2 * radius + 1 - (if m < 0 then -m else m);
      PrefixStep(radius, m);
    }
  }

  /** The columns below m + 1 are those below m and column m. */
  lemma HexPrefixSplit(radius: int, m: int)
    requires -radius <= m <= radius
    ensures HexPrefix(radius, m + 1) == HexPrefix(radius, m) + Column(m, ColumnLow(radius, m), ColumnHigh(radius, m))
  {
    var col := Column(m, ColumnLow(radius, m), ColumnHigh(radius, m));
    forall c | c in HexPrefix(radius, m + 1) ensures c in HexPrefix(radius, m) + col {
      if c.q == m {
        assert c == Coord(m, c.r);
      }
    }
    forall c | c in col ensures c in HexPrefix(radius, m + 1) {
      var r :| ColumnLow(radius, m) <= r <= ColumnHigh(radius, m) && c == Coord(m, r);
      assert c in HexCells(radius);
    }
  }

  /** Adding column m adds 2R + 1 - |m| cells to the closed form. */
  lemma PrefixStep(radius: int, m: int)
    requires radius >= 0 && -radius <= m <= radius
    ensures TwicePrefixSize(radius, m + 1) == TwicePrefixSize(radius, m) + 2 * (2 * radius + 1 - (if m < 0 then -m else m))
  {
    if m < 0 {
      LeftColumnStep(radius, m + radius);
    } else if m > 0 {
      RightColumnStep(radius, m);
    }
  }

  /** PrefixStep left of the centre column, with a = m + R columns done. */
  lemma LeftColumnStep(radius: int, a: int)
    requires radius >= 0 && 0 <= a < radius
    ensures TwicePrefixSize(radius, a - radius + 1) == TwicePrefixSize(radius, a - radius) + 2 * (radius + 1 + a)
  {
    assert (a + 1) * 2 * (radius + 1) == a * 2 * (radius + 1) + 2 * (radius + 1);
    assert (a + 1) * a == a * (a - 1) + 2 * a;
  }

  /** PrefixStep right of the centre column. */
  lemma RightColumnStep(radius: int, m: int)
    requires radius >= 0 && 0 < m <= radius
    ensures TwicePrefixSize(radius, m + 1) == TwicePrefixSize(radius, m) + 2 * (2 * radius + 1 - m)
  {
    assert 2 * (m + 1) * (2 * radius + 1) == 2 * m * (2 * radius + 1) + 2 * (2 * radius + 1);
    assert (m + 1) * m == m * (m - 1) + 2 * m;
  }

  /** A board of radius R has 3R^2 + 3R + 1 cells (61 for radius 4, 91 for radius 5). */
  lemma HexCellCount(radius: int)
    requires radius >= 0
    ensures |HexCells(radius)| == 3 * radius * radius + 3 * radius + 1
  {
    HexPrefixSize(radius, radius + 1);
    assert HexPrefix(radius, radius + 1) == HexCells(radius);
  }
}
