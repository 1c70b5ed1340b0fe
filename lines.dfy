/** The simultaneous line-clearing rule of GridManager.checkAndClearLines
    (js/GridManager.js:46-109), as functions over a board state: the scan that
    collects every full line of the three axis families, the deduplicated list
    of cleared cells with their colours, the line count and the board
    afterwards; with the reference definitions they are proved against. */
module Lines {
  import opened Hex

  /** The three line families: constant r, constant q, constant q + r. */
  datatype Axis = Row | Col | Diag

  /** Which line of the family a cell lies on. */
  function Index(axis: Axis, c: Coord): int {
    match axis
    case Row => c.r
    case Col => c.q
    case Diag => c.q + c.r
  }

  /** The variable the scan of a line runs over (q, r and q respectively). */
  function Pos(axis: Axis, c: Coord): int {
    match axis
    case Row => c.q
    case Col => c.r
    case Diag => c.q
  }

  /** The coordinate the scan of line i visits at position j. */
  function At(axis: Axis, i: int, j: int): (c: Coord)
    ensures Index(axis, c) == i && Pos(axis, c) == j
  {
    match axis
    case Row => Coord(j, i)
    case Col => Coord(i, j)
    case Diag => Coord(j, i - j)
  }

  // ---------------------------------------------------------------------------
  // Reference definitions

  /** The existing cells of line i of a family, over the scan window -R..R. */
  ghost function LineCells(state: State, radius: int, axis: Axis, i: int): set<Coord> {
    set c | c in state && Index(axis, c) == i && -radius <= Pos(axis, c) <= radius
  }

  /** A line is full when it has cells and all of them are occupied. */
  ghost predicate LineFull(state: State, radius: int, axis: Axis, i: int) {
    LineCells(state, radius, axis, i) != {} &&
    forall c :: c in LineCells(state, radius, axis, i) ==> state[c].occupied
  }

  /** The indices -R..R of the full lines of one family. */
  ghost function FullIndices(state: State, radius: int, axis: Axis): set<int> {
    FullBelow(state, radius, axis, radius + 1)
  }

  /** The full lines of a family with index -R..i-1. */
  ghost function FullBelow(state: State, radius: int, axis: Axis, i: int): set<int> {
    set j | -radius <= j < i && LineFull(state, radius, axis, j)
  }

  /** c lies on a scanned line of this family and that line is full. */
  ghost predicate OnFullLine(state: State, radius: int, axis: Axis, c: Coord) {
    -radius <= Index(axis, c) <= radius && -radius <= Pos(axis, c) <= radius &&
    LineFull(state, radius, axis, Index(axis, c))
  }

  /** The cells that lie on at least one full line. */
  ghost function FullCells(state: State, radius: int): set<Coord> {
    set c | c in state && (OnFullLine(state, radius, Row, c) || OnFullLine(state, radius, Col, c) || OnFullLine(state, radius, Diag, c))
  }

  // ---------------------------------------------------------------------------
  // The scan, as the source performs it

  /** The keys `line` collects for line i from position j on: each visited
      coordinate that `gridState.has`. */
  function Scan(state: State, radius: int, axis: Axis, i: int, j: int): seq<Coord>
    decreases radius - j + 1
  {
    if j > radius then []
    else (if At(axis, i, j) in state then [At(axis, i, j)] else []) + Scan(state, radius, axis, i, j + 1)
  }

  /** The scan visits exactly the existing cells of the line from position j on. */
  lemma {:induction false} ScanMembers(state: State, radius: int, axis: Axis, i: int, j: int)
    ensures forall c :: c in Scan(state, radius, axis, i, j) <==>
      c in state && Index(axis, c) == i && j <= Pos(axis, c) <= radius
    decreases radius - j + 1
  {
    if j <= radius {
      ScanMembers(state, radius, axis, i, j + 1);
      forall c | Index(axis, c) == i && Pos(axis, c) == j ensures c == At(axis, i, j) {
        match axis
        case Row =>
        case Col =>
        case Diag =>
      }
    }
  }

  /** The key list of line i, as the inner loop builds it. */
  function LineKeys(state: State, radius: int, axis: Axis, i: int): (line: seq<Coord>)
    ensures forall c :: c in line ==> c in state
  {
    ScanMembers(state, radius, axis, i, -radius);
    Scan(state, radius, axis, i, -radius)
  }

  /** Every key is on the board and marked occupied (the source's `every`). */
  function AllOccupied(state: State, keys: seq<Coord>): (all: bool)
    requires forall k :: k in keys ==> k in state
    ensures all <==> forall k :: k in keys ==> state[k].occupied
  {
    if keys == [] then true else state[keys[0]].occupied && AllOccupied(state, keys[1..])
  }

  /** isLineFull: false for a line without keys, otherwise whether every key is occupied. */
  function IsLineFull(state: State, lineKeys: seq<Coord>): (full: bool)
    requires forall k :: k in lineKeys ==> k in state
    ensures full <==> |lineKeys| > 0 && forall k :: k in lineKeys ==> state[k].occupied
  {
    if |lineKeys| == 0 then false else AllOccupied(state, lineKeys)
  }

  /** The keys pushed onto `linesToClear` by the loop over a family once
      lines -R..i-1 are scanned. */
  function Collect(state: State, radius: int, axis: Axis, i: int): seq<Coord>
    decreases i + radius
  {
    if i <= -radius then []
    else
      var line := LineKeys(state, radius, axis, i - 1);
      Collect(state, radius, axis, i - 1) + (if IsLineFull(state, line) then line else [])
  }

  /** Every pushed key is a key of the board. */
  lemma {:induction false} CollectInState(state: State, radius: int, axis: Axis, i: int)
    ensures forall c :: c in Collect(state, radius, axis, i) ==> c in state
    decreases i + radius
  {
    if -radius < i {
      CollectInState(state, radius, axis, i - 1);
    }
  }

  /** The `clearedCount` increments of the loop over a family once lines
      -R..i-1 are scanned. */
  function CountFull(state: State, radius: int, axis: Axis, i: int): nat
    decreases i + radius
  {
    if i <= -radius then 0
    else CountFull(state, radius, axis, i - 1) + (if IsLineFull(state, LineKeys(state, radius, axis, i - 1)) then 1 else 0)
  }

  /** One step of a line's scan: position j, then the positions after it. */
  lemma ScanStep(state: State, radius: int, axis: Axis, i: int, j: int, line: seq<Coord>)
    requires j <= radius
    ensures line + Scan(state, radius, axis, i, j) ==
      (if At(axis, i, j) in state then line + [At(axis, i, j)] else line) + Scan(state, radius, axis, i, j + 1)
  {
    var c, rest := At(axis, i, j), Scan(state, radius, axis, i, j + 1);
    if c in state {
      assert line + ([c] + rest) == (line + [c]) + rest;
    } else {
      assert [] + rest == rest;
    }
  }

  /** linesToClear after the three scans. */
  function LinesToClear(state: State, radius: int): (keys: seq<Coord>)
    ensures forall c :: c in keys ==> c in state
  {
    CollectInState(state, radius, Row, radius + 1);
    CollectInState(state, radius, Col, radius + 1);
    CollectInState(state, radius, Diag, radius + 1);
    Collect(state, radius, Row, radius + 1) + Collect(state, radius, Col, radius + 1) + Collect(state, radius, Diag, radius + 1)
  }

  /** clearedCount after the three scans. */
  function LinesCleared(state: State, radius: int): nat {
    CountFull(state, radius, Row, radius + 1) + CountFull(state, radius, Col, radius + 1) + CountFull(state, radius, Diag, radius + 1)
  }

  /** `[...new Set(keys)]`: the keys in order of first occurrence. */
  function Dedup(keys: seq<Coord>): (unique: seq<Coord>)
    ensures forall c :: c in unique <==> c in keys
    ensures forall a, b :: 0 <= a < b < |unique| ==> unique[a] != unique[b]
  {
    if keys == [] then []
    else
      var first := Dedup(keys[..|keys| - 1]);
      var last := keys[|keys| - 1];
      assert forall c :: c in keys <==> c in keys[..|keys| - 1] || c == last;
      if last in first then first else first + [last]
  }

  /** One entry of `clearedInfo.grid`. */
  datatype ClearedCell = ClearedCell(q: int, r: int, color: Option<Color>)

  /** `clearedInfo`: the cleared cells and the number of full lines. */
  datatype ClearInfo = ClearInfo(grid: seq<ClearedCell>, linesCleared: nat)

  /** The result of the clearing rule: what is reported, and the board after. */
  datatype ClearOutcome = ClearOutcome(info: ClearInfo, state: State)

  /** The entries pushed for the keys, each with the colour the board holds there. */
  function Entries(state: State, keys: seq<Coord>): (grid: seq<ClearedCell>)
    requires forall k :: k in keys ==> k in state
    ensures |grid| == |keys|
    ensures forall n :: 0 <= n < |keys| ==> grid[n] == ClearedCell(keys[n].q, keys[n].r, state[keys[n]].color)
  {
    seq(|keys|, n requires 0 <= n < |keys| => ClearedCell(keys[n].q, keys[n].r, state[keys[n]].color))
  }

  /** The board with every cell of `cells` reset to `{ occupied: false, color: null }`. */
  function Cleared(state: State, cells: set<Coord>): State {
    map c | c in state :: if c in cells then EmptyCell else state[c]
  }

  /** The elements of a key list, as a set. */
  function Members(keys: seq<Coord>): set<Coord> {
    set c | c in keys
  }

  /** Resetting one more key of a list without repeats: the key still holds its
      original cell, and the reset set grows by that key. */
  lemma ClearedStep(state: State, keys: seq<Coord>, j: nat)
    requires j < |keys|
    requires forall k :: k in keys ==> k in state
    requires forall a, b :: 0 <= a < b < |keys| ==> keys[a] != keys[b]
    ensures keys[j] in Cleared(state, Members(keys[..j]))
    ensures Cleared(state, Members(keys[..j]))[keys[j]] == state[keys[j]]
    ensures Cleared(state, Members(keys[..j]))[keys[j] := EmptyCell] == Cleared(state, Members(keys[..j + 1]))
  {
    assert keys[j] !in keys[..j];
    assert keys[..j + 1] == keys[..j] + [keys[j]];
    assert Members(keys[..j + 1]) == Members(keys[..j]) + {keys[j]};
  }

  /** Reporting one more key extends the entry list by that key's entry. */
  lemma EntriesStep(state: State, keys: seq<Coord>, j: nat)
    requires j < |keys|
    requires forall k :: k in keys ==> k in state
    ensures Entries(state, keys[..j]) + [ClearedCell(keys[j].q, keys[j].r, state[keys[j]].color)] == Entries(state, keys[..j + 1])
  {
  }

  /** checkAndClearLines on a given board: report, then reset, the full lines. */
  function ClearLines(state: State, radius: int): ClearOutcome {
    var unique := Dedup(LinesToClear(state, radius));
    ClearOutcome(ClearInfo(Entries(state, unique), LinesCleared(state, radius)),
                 Cleared(state, Members(unique)))
  }

  // ---------------------------------------------------------------------------
  // The scan agrees with the reference definitions

  lemma LineKeysAreLineCells(state: State, radius: int, axis: Axis, i: int)
    ensures forall c :: c in LineKeys(state, radius, axis, i) <==> c in LineCells(state, radius, axis, i)
  {
    ScanMembers(state, radius, axis, i, -radius);
  }

  /** The scan's fullness test is fullness of the line's cells. */
  lemma ScannedFullIffLineFull(state: State, radius: int, axis: Axis, i: int)
    ensures IsLineFull(state, LineKeys(state, radius, axis, i)) <==> LineFull(state, radius, axis, i)
  {
    var keys, cells := LineKeys(state, radius, axis, i), LineCells(state, radius, axis, i);
    LineKeysAreLineCells(state, radius, axis, i);
    if cells != {} {
      var c :| c in cells;
      assert c in keys;
    }
    if |keys| > 0 {
      assert keys[0] in cells;
    }
  }

  lemma {:induction false} CollectMember(state: State, radius: int, axis: Axis, i: int, c: Coord)
    requires i <= radius + 1
    ensures c in Collect(state, radius, axis, i) <==>
      c in state && Index(axis, c) < i && OnFullLine(state, radius, axis, c)
    decreases i + radius
  {
    if -radius < i {
      CollectMember(state, radius, axis, i - 1, c);
      HeadMember(state, radius, axis, i - 1, c);
      var line := LineKeys(state, radius, axis, i - 1);
      var head := if IsLineFull(state, line) then line else [];
      var rest := Collect(state, radius, axis, i - 1);
      assert c in Collect(state, radius, axis, i) <==> c in rest + head;
      assert c in rest + head <==> c in rest || c in head;
      if Index(axis, c) == i - 1 {
        assert c !in rest;
      } else {
        assert c !in head;
      }
    }
  }

  /** What the scan pushes for line i itself: its cells, when it is full. */
  lemma HeadMember(state: State, radius: int, axis: Axis, i: int, c: Coord)
    ensures c in (if IsLineFull(state, LineKeys(state, radius, axis, i)) then LineKeys(state, radius, axis, i) else []) <==>
      c in state && Index(axis, c) == i && -radius <= Pos(axis, c) <= radius && LineFull(state, radius, axis, i)
  {
    ScannedFullIffLineFull(state, radius, axis, i);
    LineKeysAreLineCells(state, radius, axis, i);
  }

  /** The cleared list holds exactly the cells on full lines. */
  lemma LinesToClearIsFullCells(state: State, radius: int)
    ensures forall c :: c in LinesToClear(state, radius) <==> c in FullCells(state, radius)
  {
    forall c ensures c in LinesToClear(state, radius) <==> c in FullCells(state, radius) {
      OnSomeFullLine(state, radius, c);
    }
  }

  lemma OnSomeFullLine(state: State, radius: int, c: Coord)
    ensures c in LinesToClear(state, radius) <==> c in FullCells(state, radius)
  {
    var rows, cols, diags := Collect(state, radius, Row, radius + 1), Collect(state, radius, Col, radius + 1), Collect(state, radius, Diag, radius + 1);
    CollectAll(state, radius, Row, c);
    CollectAll(state, radius, Col, c);
    CollectAll(state, radius, Diag, c);
    assert c in LinesToClear(state, radius) <==> c in rows + cols + diags;
    assert c in rows + cols + diags <==> c in rows || c in cols || c in diags;
  }

  /** A cell is pushed by a family's scan exactly when it lies on a full line of it. */
  lemma CollectAll(state: State, radius: int, axis: Axis, c: Coord)
    ensures c in Collect(state, radius, axis, radius + 1) <==> c in state && OnFullLine(state, radius, axis, c)
  {
    CollectMember(state, radius, axis, radius + 1, c);
  }

  lemma FullBelowStep(state: State, radius: int, axis: Axis, i: int)
    requires -radius < i
    ensures |FullBelow(state, radius, axis, i)| ==
      |FullBelow(state, radius, axis, i - 1)| + (if LineFull(state, radius, axis, i - 1) then 1 else 0)
  {
    var here, rest := FullBelow(state, radius, axis, i), FullBelow(state, radius, axis, i - 1);
    var top := if LineFull(state, radius, axis, i - 1) then {i - 1} else {};
    assert here == rest + top by {
      forall j ensures j in here <==> j in rest + top {
        if j == i - 1 {
          assert j !in rest;
        }
      }
    }
    assert i - 1 !in rest;
  }

  lemma {:induction false} CountFullIsFullIndices(state: State, radius: int, axis: Axis, i: int)
    ensures CountFull(state, radius, axis, i) == |FullBelow(state, radius, axis, i)|
    decreases i + radius
  {
    if i <= -radius {
      assert FullBelow(state, radius, axis, i) == {};
    } else {
      CountFullIsFullIndices(state, radius, axis, i - 1);
      ScannedFullIffLineFull(state, radius, axis, i - 1);
      var full := LineFull(state, radius, axis, i - 1);
      assert CountFull(state, radius, axis, i) == CountFull(state, radius, axis, i - 1) + (if full then 1 else 0);
      FullBelowStep(state, radius, axis, i);
    }
  }

  /** linesCleared counts the full lines of the three families (not the cells). */
  lemma LinesClearedCountsFullLines(state: State, radius: int)
    ensures LinesCleared(state, radius) ==
      |FullIndices(state, radius, Row)| + |FullIndices(state, radius, Col)| + |FullIndices(state, radius, Diag)|
  {
    FamilyCount(state, radius, Row);
    FamilyCount(state, radius, Col);
    FamilyCount(state, radius, Diag);
  }

  /** The scan of one family counts its full lines. */
  lemma FamilyCount(state: State, radius: int, axis: Axis)
    ensures CountFull(state, radius, axis, radius + 1) == |FullIndices(state, radius, axis)|
  {
    CountFullIsFullIndices(state, radius, axis, radius + 1);
  }

  /** The board after the clear: the cells on full lines are reset, the rest are kept. */
  lemma ClearedState(state: State, radius: int)
    ensures ClearLines(state, radius).state.Keys == state.Keys
    ensures forall c :: c in state ==>
      ClearLines(state, radius).state[c] == if c in FullCells(state, radius) then EmptyCell else state[c]
  {
    LinesToClearIsFullCells(state, radius);
    var unique := Dedup(LinesToClear(state, radius));
    assert Members(unique) == FullCells(state, radius);
  }

  // ---------------------------------------------------------------------------
  // What checkAndClearLines promises

  /** The reported cells are pairwise distinct, are exactly the cells on full
      lines, and carry the colour each had before clearing; afterwards those
      cells are empty, every other cell is unchanged and the key set is kept;
      the line count is the number of full lines. */
  lemma ClearLinesCorrect(state: State, radius: int)
    ensures var out := ClearLines(state, radius);
      && (forall a, b :: 0 <= a < b < |out.info.grid| ==>
            (out.info.grid[a].q, out.info.grid[a].r) != (out.info.grid[b].q, out.info.grid[b].r))
      && (forall c :: c in FullCells(state, radius) <==>
            exists n :: 0 <= n < |out.info.grid| && Coord(out.info.grid[n].q, out.info.grid[n].r) == c)
      && (forall n :: 0 <= n < |out.info.grid| ==>
            Coord(out.info.grid[n].q, out.info.grid[n].r) in state &&
            out.info.grid[n].color == state[Coord(out.info.grid[n].q, out.info.grid[n].r)].color)
      && out.state.Keys == state.Keys
      && (forall c :: c in state ==> out.state[c] == if c in FullCells(state, radius) then EmptyCell else state[c])
      && out.info.linesCleared ==
           |FullIndices(state, radius, Row)| + |FullIndices(state, radius, Col)| + |FullIndices(state, radius, Diag)|
  {
    var unique := Dedup(LinesToClear(state, radius));
    var out := ClearLines(state, radius);
    LinesToClearIsFullCells(state, radius);
    LinesClearedCountsFullLines(state, radius);
    assert forall n :: 0 <= n < |unique| ==> Coord(out.info.grid[n].q, out.info.grid[n].r) == unique[n];
    forall c | c in FullCells(state, radius)
      ensures exists n :: 0 <= n < |out.info.grid| && Coord(out.info.grid[n].q, out.info.grid[n].r) == c
    {
      var n :| 0 <= n < |unique| && unique[n] == c;
    }
  }

  /** After the clear no line of any family is full. */
  lemma NoFullLineAfterClear(state: State, radius: int, axis: Axis, i: int)
    requires -radius <= i <= radius
    ensures !LineFull(ClearLines(state, radius).state, radius, axis, i)
  {
    var after := ClearLines(state, radius).state;
    ClearedState(state, radius);
    assert LineCells(after, radius, axis, i) == LineCells(state, radius, axis, i);
    if LineFull(state, radius, axis, i) {
      var c :| c in LineCells(state, radius, axis, i);
      assert OnFullLine(state, radius, axis, c);
      assert c in FullCells(state, radius);
      assert !after[c].occupied;
    } else if LineCells(state, radius, axis, i) != {} {
      var c :| c in LineCells(state, radius, axis, i) && !state[c].occupied;
      assert !after[c].occupied;
    }
  }

  lemma FirstIsMember(s: seq<Coord>)
    ensures s != [] ==> s[0] in s
  {
  }

  /** On a board without full lines the clear reports nothing and changes nothing. */
  lemma NothingFullNothingCleared(state: State, radius: int)
    requires forall axis: Axis, i: int :: -radius <= i <= radius ==> !LineFull(state, radius, axis, i)
    ensures ClearLines(state, radius) == ClearOutcome(ClearInfo([], 0), state)
  {
    NothingFullCountsZero(state, radius);
    NothingFullCollectsNothing(state, radius);
    var unique := Dedup(LinesToClear(state, radius));
    assert unique == [];
    assert Entries(state, unique) == [];
    assert Members(unique) == {};
    assert Cleared(state, {}) == state;
  }

  lemma NothingFullCountsZero(state: State, radius: int)
    requires forall axis: Axis, i: int :: -radius <= i <= radius ==> !LineFull(state, radius, axis, i)
    ensures LinesCleared(state, radius) == 0
  {
    assert FullIndices(state, radius, Row) == {};
    assert FullIndices(state, radius, Col) == {};
    assert FullIndices(state, radius, Diag) == {};
    LinesClearedCountsFullLines(state, radius);
  }

  lemma NothingFullCollectsNothing(state: State, radius: int)
    requires forall axis: Axis, i: int :: -radius <= i <= radius ==> !LineFull(state, radius, axis, i)
    ensures LinesToClear(state, radius) == []
  {
    LinesToClearIsFullCells(state, radius);
    forall c | c in state ensures c !in FullCells(state, radius) {
      assert !OnFullLine(state, radius, Row, c);
      assert !OnFullLine(state, radius, Col, c);
      assert !OnFullLine(state, radius, Diag, c);
    }
    var keys := LinesToClear(state, radius);
    FirstIsMember(keys);
  }

  /** A second checkAndClearLines straight after the first reports nothing and
      changes nothing. */
  lemma ClearLinesIdempotent(state: State, radius: int)
    ensures var after := ClearLines(state, radius).state;
      ClearLines(after, radius) == ClearOutcome(ClearInfo([], 0), after)
  {
    var after := ClearLines(state, radius).state;
    forall axis: Axis, i: int | -radius <= i <= radius ensures !LineFull(after, radius, axis, i) {
      NoFullLineAfterClear(state, radius, axis, i);
    }
    NothingFullNothingCleared(after, radius);
  }
}
