/** The shape catalogue and the tuning constants the board engine and the
    spawner use (js/constants.js). */
module Catalog {
  import opened Hex

  /** A polyhex: its name, its offsets from the anchor cell, its difficulty tier. */
  datatype Shape = Shape(name: string, coords: seq<Coord>, difficulty: int)

  /** CONFIG.DEFAULT_RADIUS */
  const DEFAULT_RADIUS: int := 5
  /** CONFIG.NEED_CLEAR_RATIO */
  const NEED_CLEAR_RATIO: real := 0.25

  /** The catalogue, in declaration order. */
  const SHAPES: seq<Shape> := [
    Shape("Dot", [Coord(0, 0)], 1),
    Shape("Slash", [Coord(0, 0), Coord(1, -1), Coord(-1, 1)], 2),
    Shape("Back-Slash", [Coord(0, 0), Coord(0, 1), Coord(0, -1)], 2),
    Shape("Line", [Coord(0, 0), Coord(1, 0), Coord(-1, 0)], 2),
    Shape("Small-Triangle", [Coord(0, 0), Coord(0, -1), Coord(-1, 0)], 2),
    Shape("Small-Triangle-Reversed", [Coord(0, 0), Coord(-1, 1), Coord(-1, 0)], 2),
    Shape("Crystal", [Coord(0, 0), Coord(-1, 1), Coord(0, -1), Coord(-1, 0)], 2),
    Shape("Long-Line", [Coord(0, 0), Coord(1, 0), Coord(2, 0), Coord(-1, 0)], 3),
    Shape("Hourglass", [Coord(0, 0), Coord(-1, 1), Coord(0, -1), Coord(1, -1), Coord(0, 1)], 3),
    Shape("Big-V", [Coord(-1, 0), Coord(0, 0), Coord(1, 0), Coord(-1, 1), Coord(-1, 2)], 4),
    Shape("Big-V-Reversed", [Coord(-1, 0), Coord(0, 0), Coord(1, 0), Coord(1, -1), Coord(1, -2)], 4),
    Shape("Fan", [Coord(0, 0), Coord(-1, 1), Coord(0, -1), Coord(1, 0)], 4),
    Shape("Y-Shape", [Coord(0, 0), Coord(0, -1), Coord(1, 0), Coord(-1, 1)], 4),
    Shape("Hook", [Coord(0, 0), Coord(1, 0), Coord(0, 1), Coord(-1, 2)], 4),
    Shape("Snake", [Coord(0, 0), Coord(1, 0), Coord(1, -1), Coord(2, -1)], 4),
    Shape("Hex", [Coord(0, 0), Coord(-1, 1), Coord(-1, 0), Coord(0, -1), Coord(1, 0), Coord(1, -1), Coord(0, 1)], 5),
    Shape("Big-Triangle", [Coord(0, 0), Coord(1, 0), Coord(2, 0), Coord(0, 1), Coord(1, 1), Coord(0, 2)], 5)
  ]

  /** What the spawner relies on of a catalogue entry: the anchor is one of
      its cells, and its tier is 1..5. */
  predicate WellFormed(s: Shape) {
    Coord(0, 0) in s.coords && 1 <= s.difficulty <= 5
  }

  /** Every catalogue entry is well formed. */
  lemma CatalogWellFormed()
    ensures forall i :: 0 <= i < |SHAPES| ==> WellFormed(SHAPES[i])
  {
    forall i | 0 <= i < |SHAPES| ensures WellFormed(SHAPES[i]) {
      EntryWellFormed(i);
    }
  }

  lemma EntryWellFormed(i: int)
    requires 0 <= i < |SHAPES|
    ensures WellFormed(SHAPES[i])
  {
    var s := SHAPES[i];
    assert s.coords[0] == Coord(0, 0) || s.coords[1] == Coord(0, 0);
  }

  /** No two offsets of a shape coincide, so a shape covers as many cells as
      it lists. */
  predicate DistinctOffsets(s: Shape) {
    forall a, b :: 0 <= a < b < |s.coords| ==> s.coords[a] != s.coords[b]
  }

  /** Every catalogue entry lists each of its offsets once. */
  lemma CatalogDistinct()
    ensures forall i :: 0 <= i < |SHAPES| ==> DistinctOffsets(SHAPES[i])
  {
    forall i | 0 <= i < |SHAPES| ensures DistinctOffsets(SHAPES[i]) {
      EntryDistinct(i);
    }
  }

  /** One entry: the catalogue is split by shape size so that each case
      compares the offsets of one literal list. */
  lemma EntryDistinct(i: int)
    requires 0 <= i < |SHAPES|
    ensures DistinctOffsets(SHAPES[i])
  {
    if i < 6 {
      SmallShapesDistinct(i);
    } else if i == 6 || i == 7 || 11 <= i <= 14 {
      FourCellShapesDistinct(i);
    } else if i <= 10 {
      FiveCellShapesDistinct(i);
    } else if i == 15 {
      HexDistinct();
    } else {
      BigTriangleDistinct();
    }
  }

  /** Dot, Slash, Back-Slash, Line and the two small triangles. */
  lemma SmallShapesDistinct(i: int)
    requires 0 <= i < 6
    ensures DistinctOffsets(SHAPES[i])
  {
    if i == 0 {
    } else if i == 1 {
    } else if i == 2 {
    } else if i == 3 {
    } else if i == 4 {
    } else {
    }
  }

  /** Crystal, Long-Line, Fan, Y-Shape, Hook and Snake. */
  lemma FourCellShapesDistinct(i: int)
    requires i == 6 || i == 7 || 11 <= i <= 14
    ensures DistinctOffsets(SHAPES[i])
  {
    if i == 6 {
    } else if i == 7 {
    } else if i == 11 {
    } else if i == 12 {
    } else if i == 13 {
    } else {
    }
  }

  /** Hourglass, Big-V and Big-V-Reversed. */
  lemma FiveCellShapesDistinct(i: int)
    requires 8 <= i <= 10
    ensures DistinctOffsets(SHAPES[i])
  {
    if i == 8 {
    } else if i == 9 {
    } else {
    }
  }

  /** The seven cells of Hex. */
  lemma HexDistinct()
    ensures DistinctOffsets(SHAPES[15])
  {
  }

  /** The six cells of Big-Triangle. */
  lemma BigTriangleDistinct()
    ensures DistinctOffsets(SHAPES[16])
  {
  }

  /** Every tier 1..5 has at least one shape. */
  lemma EveryTierPresent(d: int)
    requires 1 <= d <= 5
    ensures exists i :: 0 <= i < |SHAPES| && SHAPES[i].difficulty == d
  {
    var i := TierIndex(d);
  }

  /** The first catalogue entry of each tier: Dot, Slash, Long-Line, Big-V, Hex. */
  lemma TierIndex(d: int) returns (i: nat)
    requires 1 <= d <= 5
    ensures i < |SHAPES| && SHAPES[i].difficulty == d
    ensures forall j :: 0 <= j < i ==> SHAPES[j].difficulty != d
  {
    i := if d == 1 then 0 else if d == 2 then 1 else if d == 3 then 7 else if d == 4 then 9 else 15;
  }

  /** The spawner's fallback shape SHAPES[0] is the single cell Dot of tier 1. */
  lemma FallbackIsDot()
    ensures SHAPES[0].name == "Dot" && SHAPES[0].coords == [Coord(0, 0)] && SHAPES[0].difficulty == 1
  {
  }
}
