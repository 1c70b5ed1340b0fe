/** The safe spawner, class BlockGenerator (js/BlockGenerator.js): the tiered
    weighted choice of a shape, the depth-first search that checks a triple of
    shapes can be placed one after another, and the retry loop that draws
    triples until the search accepts one. `Math.random` and the shuffle are
    parameters: a real draw and an arbitrary permutation of the items. */
module Spawner {
  import opened Hex
  import opened Catalog
  import opened Lines
  import opened Board

  // ---------------------------------------------------------------------------
  // getWeightedRandom

  /** The difficulty tier of a draw x in [0, 100): cut-points 2, 40, 70, 90. */
  function Tier(x: real): (t: int)
    ensures 1 <= t <= 5
  {
    if x < 2.0 then 1
    else if x < 40.0 then 2
    else if x < 70.0 then 3
    else if x < 90.0 then 4
    else 5
  }

  /** A higher draw never gives a lower tier. */
  lemma TierMonotone(x: real, y: real)
    requires x <= y
    ensures Tier(x) <= Tier(y)
  {
  }

  /** The first item, in the given order, of tier d. */
  function FirstOfTier(items: seq<Shape>, d: int): (found: Option<nat>)
    ensures found.Some? ==> found.value < |items| && items[found.value].difficulty == d
    ensures found.Some? ==> forall k :: 0 <= k < found.value ==> items[k].difficulty != d
    ensures found.None? ==> forall k :: 0 <= k < |items| ==> items[k].difficulty != d
  {
    if items == [] then None
    else if items[0].difficulty == d then Some(0)
    else match FirstOfTier(items[1..], d)
      case None => None
      case Some(k) => Some(k + 1)
  }

  /** The choice getWeightedRandom makes on a shuffled list and a draw: the
      first shuffled item of the draw's tier, else the first shuffled item
      (`undefined` when the list is empty). */
  function WeightedPick(shuffled: seq<Shape>, x: real): (pick: Option<Shape>)
    ensures shuffled != [] <==> pick.Some?
    ensures pick.Some? ==> pick.value in shuffled
    ensures (exists k :: 0 <= k < |shuffled| && shuffled[k].difficulty == Tier(x)) ==>
      pick.Some? && pick.value.difficulty == Tier(x)
  {
    match FirstOfTier(shuffled, Tier(x))
    case Some(k) => Some(shuffled[k])
    case None => if shuffled == [] then None else Some(shuffled[0])
  }

  /** The order a shuffle leaves n items in: a list of their indices in which
      every index below n occurs exactly once. */
  predicate IsPermutation(order: seq<nat>, n: nat) {
    && |order| == n
    && Indices(order, n)
    && (forall i :: 0 <= i < n ==> i in order)
    && (forall a, b :: 0 <= a < b < n ==> order[a] != order[b])
  }

  /** Every entry of the list is an index below n. */
  predicate Indices(order: seq<nat>, n: nat) {
    forall k :: 0 <= k < |order| ==> order[k] < n
  }

  /** `items.slice().sort(() => Math.random() - 0.5)`: the items in the order
      the random comparator happened to leave them, given as the list of their
      indices (a permutation, for the sort). */
  function Shuffled<T>(items: seq<T>, order: seq<nat>): (shuffled: seq<T>)
    requires Indices(order, |items|)
    ensures |shuffled| == |order|
    ensures forall k :: 0 <= k < |shuffled| ==> shuffled[k] == items[order[k]]
  {
    seq(|order|, k requires 0 <= k < |order| => items[order[k]])
  }

  /** The shuffle keeps every item, as often as it occurs: the shuffled copy
      is a permutation of the list. */
  lemma {:induction false} ShuffledPermutes<T>(items: seq<T>, order: seq<nat>)
    requires IsPermutation(order, |items|)
    ensures multiset(Shuffled(items, order)) == multiset(items)
  {
    var n := |items|;
    if n > 0 {
      var p := LastPosition(order, n);
      WithoutLast(order, n, p);
      ShuffledPermutes(items[..n - 1], order[..p] + order[p + 1..]);
      PutBackLast(items, order, p);
    }
  }

  /** The induction step: if the others' shuffle keeps the others, putting
      the last item back at its position keeps all items. */
  lemma PutBackLast<T>(items: seq<T>, order: seq<nat>, p: nat)
    requires Indices(order, |items|) && p < |order| && order[p] == |items| - 1
    requires Indices(order[..p] + order[p + 1..], |items| - 1)
    requires multiset(Shuffled(items[..|items| - 1], order[..p] + order[p + 1..])) == multiset(items[..|items| - 1])
    ensures multiset(Shuffled(items, order)) == multiset(items)
  {
    var n := |items|;
    ShuffledPrefix(items, n - 1, order[..p] + order[p + 1..]);
    ShuffledAround(items, order, p);
    assert items == items[..n - 1] + [items[n - 1]];
  }

  /** The position of the last index in a permutation. */
  lemma LastPosition(order: seq<nat>, n: nat) returns (p: nat)
    requires IsPermutation(order, n) && n > 0
    ensures p < n && order[p] == n - 1
  {
    assert n - 1 in order;
    p :| 0 <= p < n && order[p] == n - 1;
  }

  /** Striking the last index out of a permutation leaves a permutation of
      the others. */
  lemma WithoutLast(order: seq<nat>, n: nat, p: nat)
    requires IsPermutation(order, n) && p < n && order[p] == n - 1
    ensures IsPermutation(order[..p] + order[p + 1..], n - 1)
  {
    var rest := order[..p] + order[p + 1..];
    assert forall k :: 0 <= k < n - 1 ==> rest[k] == if k < p then order[k] else order[k + 1];
    forall i | 0 <= i < n - 1 ensures i in rest {
      assert i in order;
      var k :| 0 <= k < n && order[k] == i;
      assert rest[if k < p then k else k - 1] == i;
    }
  }

  /** Taking one index out of the list takes its item out of the shuffle. */
  lemma ShuffledAround<T>(items: seq<T>, order: seq<nat>, p: nat)
    requires Indices(order, |items|)
    requires p < |order|
    ensures Indices(order[..p] + order[p + 1..], |items|)
    ensures multiset(Shuffled(items, order)) ==
      multiset(Shuffled(items, order[..p] + order[p + 1..])) + multiset{items[order[p]]}
  {
    var before, after := order[..p], order[p + 1..];
    assert order == before + [order[p]] + after;
    ShuffledConcat(items, before + [order[p]], after);
    ShuffledConcat(items, before, [order[p]]);
    ShuffledConcat(items, before, after);
    assert Shuffled(items, [order[p]]) == [items[order[p]]];
  }

  /** Shuffling by a concatenated index list joins the two shuffles. */
  lemma ShuffledConcat<T>(items: seq<T>, a: seq<nat>, b: seq<nat>)
    requires Indices(a, |items|) && Indices(b, |items|)
    ensures Indices(a + b, |items|)
    ensures multiset(Shuffled(items, a + b)) == multiset(Shuffled(items, a)) + multiset(Shuffled(items, b))
  {
    assert forall k :: 0 <= k < |a + b| ==> (a + b)[k] == if k < |a| then a[k] else b[k - |a|];
    assert Shuffled(items, a + b) == Shuffled(items, a) + Shuffled(items, b);
  }

  /** Indices below m pick the same items from the first m items as from all. */
  lemma ShuffledPrefix<T>(items: seq<T>, m: nat, order: seq<nat>)
    requires m <= |items|
    requires Indices(order, m)
    ensures Shuffled(items[..m], order) == Shuffled(items, order)
  {
  }

  /** getWeightedRandom: the tier is computed by the source's chain of
      reassignments, then the shuffled list is scanned for it. */
  method GetWeightedRandom(items: seq<Shape>, order: seq<nat>, random: real) returns (pick: Option<Shape>)
    requires IsPermutation(order, |items|)
    ensures pick == WeightedPick(Shuffled(items, order), random)
  {
    var shuffledItems := Shuffled(items, order);
    var difficulty := 0;
    if random < 2.0 { difficulty := 1; }
    if random < 40.0 && difficulty == 0 { difficulty := 2; }
    if random < 70.0 && difficulty == 0 { difficulty := 3; }
    if random < 90.0 && difficulty == 0 { difficulty := 4; }
    if difficulty == 0 { difficulty := 5; }
    assert difficulty == Tier(random);

    var i := 0;
    while i < |shuffledItems|
      invariant 0 <= i <= |shuffledItems|
      invariant forall k :: 0 <= k < i ==> shuffledItems[k].difficulty != difficulty
    {
      if shuffledItems[i].difficulty == difficulty {
        return Some(shuffledItems[i]);
      }
      i := i + 1;
    }
    if |shuffledItems| == 0 {
      return None;
    }
    return Some(shuffledItems[0]);
  }

  /** On a non-empty list the pick is one of its items; when some item has
      the drawn tier, the pick has it too. */
  lemma PickFromItems(items: seq<Shape>, order: seq<nat>, x: real)
    requires IsPermutation(order, |items|)
    requires items != []
    ensures WeightedPick(Shuffled(items, order), x).Some?
    ensures WeightedPick(Shuffled(items, order), x).value in items
    ensures (exists i :: 0 <= i < |items| && items[i].difficulty == Tier(x)) ==>
      WeightedPick(Shuffled(items, order), x).value.difficulty == Tier(x)
  {
    var shuffled := Shuffled(items, order);
    var k :| 0 <= k < |shuffled| && shuffled[k] == WeightedPick(shuffled, x).value;
    assert shuffled[k] == items[order[k]];
    if i :| 0 <= i < |items| && items[i].difficulty == Tier(x) {
      assert i in order;
      var k' :| 0 <= k' < |order| && order[k'] == i;
      assert shuffled[k'].difficulty == Tier(x);
    }
  }

  /** On the catalogue every tier is present, so the pick is always of the
      drawn tier and the fallback line is never reached. */
  lemma CatalogPickHasTier(order: seq<nat>, x: real)
    requires IsPermutation(order, |SHAPES|)
    ensures WeightedPick(Shuffled(SHAPES, order), x).Some?
    ensures WeightedPick(Shuffled(SHAPES, order), x).value.difficulty == Tier(x)
    ensures FirstOfTier(Shuffled(SHAPES, order), Tier(x)).Some?
  {
    var i := TierIndex(Tier(x));
    PickFromItems(SHAPES, order, x);
    assert i in order;
    var k :| 0 <= k < |order| && order[k] == i;
    assert Shuffled(SHAPES, order)[k] == SHAPES[i];
  }

  // ---------------------------------------------------------------------------
  // solve

  /** `CONFIG.DEFAULT_RADIUS * CONFIG.DEFAULT_RADIUS * 3 + CONFIG.DEFAULT_RADIUS * 3 + 1` */
  const TotalCount: int := DEFAULT_RADIUS * DEFAULT_RADIUS * 3 + DEFAULT_RADIUS * 3 + 1

  /** The leaf's total is the cell count of a radius-5 board, 91, whatever
      the radius of the board searched. */
  lemma TotalCountIsDefaultBoard()
    ensures TotalCount == |HexCells(DEFAULT_RADIUS)| == 91
  {
    HexCellCount(DEFAULT_RADIUS);
  }

  /** The leaf test: some placement cleared a line, or more than a quarter of
      the default board's cell count is still free. */
  function LeafAccepts(hasClear: bool, notOccupiedCount: nat): bool {
    hasClear || (notOccupiedCount as real) / (TotalCount as real) > NEED_CLEAR_RATIO
  }

  /** Without a clear the leaf needs at least 23 free cells (4n > 91). */
  lemma LeafThreshold(hasClear: bool, n: nat)
    ensures LeafAccepts(hasClear, n) <==> hasClear || 4 * n > 91
    ensures LeafAccepts(hasClear, n) <==> hasClear || n >= 23
  {
    var t := TotalCount as real;
    assert t == 91.0;
    assert (n as real) / t > 0.25 <==> (n as real) > 0.25 * t;
  }

  /** The unoccupied cells among the given keys. */
  function FreeAmong(state: State, keys: set<Coord>): set<Coord>
    requires keys <= state.Keys
  {
    set c | c in keys && !state[c].occupied
  }

  /** The number of unoccupied cells of a board. */
  function FreeCount(state: State): nat {
    |FreeAmong(state, state.Keys)|
  }

  /** Taking one key out of the keys still to count. */
  lemma FreeAmongRemove(state: State, keys: set<Coord>, c: Coord)
    requires keys <= state.Keys && c in keys
    ensures |FreeAmong(state, keys)| == |FreeAmong(state, keys - {c})| + (if state[c].occupied then 0 else 1)
  {
    var rest := FreeAmong(state, keys - {c});
    if state[c].occupied {
      assert FreeAmong(state, keys) == rest;
    } else {
      assert FreeAmong(state, keys) == rest + {c};
    }
  }

  /** solve's first loop: counts the unoccupied cells of the state. */
  method CountFree(currentState: State) returns (notOccupiedCount: nat)
    ensures notOccupiedCount == FreeCount(currentState)
  {
    notOccupiedCount := 0;
    var keys := currentState.Keys;
    while keys != {}
      invariant keys <= currentState.Keys
      invariant notOccupiedCount + |FreeAmong(currentState, keys)| == FreeCount(currentState)
      decreases |keys|
    {
      var key :| key in keys;
      FreeAmongRemove(currentState, keys, key);
      if !currentState[key].occupied {
        notOccupiedCount := notOccupiedCount + 1;
      }
      keys := keys - {key};
    }
    assert FreeAmong(currentState, keys) == {};
  }

  /** One placement as the search simulates it: testPlace at c, then testClear
      on the result, giving the next state and whether a line was cleared. */
  function Step(state: State, c: Coord, shape: Shape, radius: int): (next: Option<(State, bool)>)
    ensures next.None? <==> !Fits(state, c, shape.coords)
    ensures next.Some? ==> next.value.0.Keys == state.Keys
  {
    match TestPlace(state, c, shape)
    case None => None
    case Some(placed) => Some(TestClear(placed, radius))
  }

  /** What solve computes: with no shape left, the leaf test on the free cells;
      otherwise some key of the state is a centre where the first shape can be
      placed and the rest of the list is solvable from the cleared result. */
  ghost predicate Solvable(state: State, shapes: seq<Shape>, hasClear: bool, radius: int)
    decreases |shapes|, 1
  {
    if shapes == [] then LeafAccepts(hasClear, FreeCount(state))
    else exists c :: c in state && Branch(state, c, shapes, hasClear, radius)
  }

  /** The branch of the search that places the first shape at c. */
  ghost predicate Branch(state: State, c: Coord, shapes: seq<Shape>, hasClear: bool, radius: int)
    requires shapes != []
    decreases |shapes|, 0
  {
    match Step(state, c, shapes[0], radius)
    case None => false
    case Some(next) => Solvable(next.0, shapes[1..], next.1 || hasClear, radius)
  }

  /** solve: backtracking over every key of the state for the first shape, in
      the given order of shapes only. The grid supplies the radius its
      simulated clear uses. */
  method Solve(currentState: State, remainingShapes: seq<Shape>, hasClear: bool, grid: GridManager) returns (ok: bool)
    ensures ok == Solvable(currentState, remainingShapes, hasClear, grid.radius)
    decreases |remainingShapes|
  {
    var notOccupiedCount := CountFree(currentState);
    var totalCount := DEFAULT_RADIUS * DEFAULT_RADIUS * 3 + DEFAULT_RADIUS * 3 + 1;
    if |remainingShapes| == 0 {
      return hasClear || (notOccupiedCount as real) / (totalCount as real) > NEED_CLEAR_RATIO;
    }

    var currentShape := remainingShapes[0];
    var nextShapes := remainingShapes[1..];
    var keys := currentState.Keys;
    while keys != {}
      invariant keys <= currentState.Keys
      invariant forall c :: c in currentState && c !in keys ==> !Branch(currentState, c, remainingShapes, hasClear, grid.radius)
      decreases |keys|
    {
      var hex :| hex in keys;
      keys := keys - {hex};
      var newState := TestPlace(currentState, hex, currentShape);
      if newState.Some? {
        var cleared := TestClear(newState.value, grid.radius);
        var found := Solve(cleared.0, nextShapes, cleared.1 || hasClear, grid);
        if found {
          assert Branch(currentState, hex, remainingShapes, hasClear, grid.radius);
          return true;
        }
      }
    }
    return false;
  }

  /** A clear earlier on the branch can only help: the search is monotone in
      its flag. */
  lemma {:induction false} SolvableMonotone(state: State, shapes: seq<Shape>, h1: bool, h2: bool, radius: int)
    requires h1 ==> h2
    requires Solvable(state, shapes, h1, radius)
    ensures Solvable(state, shapes, h2, radius)
    decreases |shapes|
  {
    if shapes != [] {
      var c :| c in state && Branch(state, c, shapes, h1, radius);
      var next := Step(state, c, shapes[0], radius).value;
      SolvableMonotone(next.0, shapes[1..], next.1 || h1, next.1 || h2, radius);
      assert Branch(state, c, shapes, h2, radius);
    }
  }

  /** The placements of a list of shapes at a list of centres, in order: each
      centre a key of the state it is tried on, each placement legal; the
      final state and the OR of the clear flags, or None where one fails. */
  function Run(state: State, shapes: seq<Shape>, centres: seq<Coord>, hasClear: bool, radius: int): Option<(State, bool)>
    requires |centres| == |shapes|
    decreases |shapes|
  {
    if shapes == [] then Some((state, hasClear))
    else if centres[0] !in state then None
    else match Step(state, centres[0], shapes[0], radius)
      case None => None
      case Some(next) => Run(next.0, shapes[1..], centres[1..], next.1 || hasClear, radius)
  }

  /** The leaf test applied to the end of a run. */
  ghost predicate RunAccepted(state: State, shapes: seq<Shape>, centres: seq<Coord>, hasClear: bool, radius: int)
    requires |centres| == |shapes|
  {
    var end := Run(state, shapes, centres, hasClear, radius);
    end.Some? && LeafAccepts(end.value.1, FreeCount(end.value.0))
  }

  /** solve accepts exactly when some choice of centres, one per shape in the
      given order, places every shape legally and passes the leaf test. */
  lemma SolvableIffRun(state: State, shapes: seq<Shape>, hasClear: bool, radius: int)
    ensures Solvable(state, shapes, hasClear, radius) <==>
      exists centres: seq<Coord> :: |centres| == |shapes| && RunAccepted(state, shapes, centres, hasClear, radius)
  {
    if Solvable(state, shapes, hasClear, radius) {
      var centres := SolutionCentres(state, shapes, hasClear, radius);
    }
    if centres: seq<Coord> :| |centres| == |shapes| && RunAccepted(state, shapes, centres, hasClear, radius) {
      RunSolves(state, shapes, centres, hasClear, radius);
    }
  }

  /** An accepting search yields centres whose run is accepted. */
  lemma {:induction false} SolutionCentres(state: State, shapes: seq<Shape>, hasClear: bool, radius: int)
    returns (centres: seq<Coord>)
    requires Solvable(state, shapes, hasClear, radius)
    ensures |centres| == |shapes| && RunAccepted(state, shapes, centres, hasClear, radius)
    decreases |shapes|
  {
    if shapes == [] {
      centres := [];
    } else {
      var c :| c in state && Branch(state, c, shapes, hasClear, radius);
      var next := Step(state, c, shapes[0], radius).value;
      var rest := SolutionCentres(next.0, shapes[1..], next.1 || hasClear, radius);
      centres := [c] + rest;
      assert centres[0] == c && centres[1..] == rest;
      assert Run(state, shapes, centres, hasClear, radius) == Run(next.0, shapes[1..], rest, next.1 || hasClear, radius);
    }
  }

  /** Centres whose run is accepted make the search accept. */
  lemma {:induction false} RunSolves(state: State, shapes: seq<Shape>, centres: seq<Coord>, hasClear: bool, radius: int)
    requires |centres| == |shapes| && RunAccepted(state, shapes, centres, hasClear, radius)
    ensures Solvable(state, shapes, hasClear, radius)
    decreases |shapes|
  {
    if shapes != [] {
      var c := centres[0];
      var next := Step(state, c, shapes[0], radius).value;
      assert Run(state, shapes, centres, hasClear, radius) == Run(next.0, shapes[1..], centres[1..], next.1 || hasClear, radius);
      RunSolves(next.0, shapes[1..], centres[1..], next.1 || hasClear, radius);
      assert Branch(state, c, shapes, hasClear, radius);
    }
  }

  /** A shape that fits at no key of the state cannot start a solution. */
  lemma {:induction false} NoFitNoSolution(state: State, shapes: seq<Shape>, hasClear: bool, radius: int)
    requires shapes != []
    requires forall c :: c in state ==> !Fits(state, c, shapes[0].coords)
    ensures !Solvable(state, shapes, hasClear, radius)
  {
    forall c | c in state ensures !Branch(state, c, shapes, hasClear, radius) {
      assert TestPlace(state, c, shapes[0]).None?;
    }
  }

  // ---------------------------------------------------------------------------
  // spawnShapes

  /** What `Math.random` supplies for one getWeightedRandom call: the order
      the shuffle leaves the catalogue in, and the draw scaled to [0, 100). */
  datatype Draw = Draw(order: seq<nat>, x: real)

  /** The attempt limit of spawnShapes. */
  const MaxAttempts: nat := 100

  /** Every shuffle is a permutation of the catalogue. */
  ghost predicate Permutations(rng: (nat, nat) -> Draw) {
    forall a: nat, j: nat :: IsPermutation(rng(a, j).order, |SHAPES|)
  }

  /** The catalogue pick made from one draw. */
  function PickOf(d: Draw): (s: Shape)
    requires IsPermutation(d.order, |SHAPES|)
    ensures s.difficulty == Tier(d.x)
  {
    CatalogPickHasTier(d.order, d.x);
    WeightedPick(Shuffled(SHAPES, d.order), d.x).value
  }

  /** The triple drawn on attempt a (slot j uses draw rng(a, j)). */
  function Attempt(rng: (nat, nat) -> Draw, a: nat): (shapes: seq<Shape>)
    requires Permutations(rng)
    ensures |shapes| == 3
  {
    [PickOf(rng(a, 0)), PickOf(rng(a, 1)), PickOf(rng(a, 2))]
  }

  /** The pick made from a draw is a catalogue entry. */
  lemma PickOfInCatalog(d: Draw)
    requires IsPermutation(d.order, |SHAPES|)
    ensures PickOf(d) in SHAPES
  {
    PickFromItems(SHAPES, d.order, d.x);
  }

  /** Every slot of an attempt holds a catalogue entry of its draw's tier. */
  lemma AttemptInCatalog(rng: (nat, nat) -> Draw, a: nat)
    requires Permutations(rng)
    ensures Attempt(rng, a)[0] in SHAPES && Attempt(rng, a)[0].difficulty == Tier(rng(a, 0).x)
    ensures Attempt(rng, a)[1] in SHAPES && Attempt(rng, a)[1].difficulty == Tier(rng(a, 1).x)
    ensures Attempt(rng, a)[2] in SHAPES && Attempt(rng, a)[2].difficulty == Tier(rng(a, 2).x)
  {
    PickOfInCatalog(rng(a, 0));
    PickOfInCatalog(rng(a, 1));
    PickOfInCatalog(rng(a, 2));
  }

  /** `[this.getWeightedRandom(SHAPES), ...]`, three times, with the draws of attempt a. */
  method DrawTriple(rng: (nat, nat) -> Draw, a: nat) returns (testShapes: seq<Shape>)
    requires Permutations(rng)
    ensures testShapes == Attempt(rng, a)
  {
    var s0 := GetWeightedRandom(SHAPES, rng(a, 0).order, rng(a, 0).x);
    var s1 := GetWeightedRandom(SHAPES, rng(a, 1).order, rng(a, 1).x);
    var s2 := GetWeightedRandom(SHAPES, rng(a, 2).order, rng(a, 2).x);
    CatalogPickHasTier(rng(a, 0).order, rng(a, 0).x);
    CatalogPickHasTier(rng(a, 1).order, rng(a, 1).x);
    CatalogPickHasTier(rng(a, 2).order, rng(a, 2).x);
    testShapes := [s0.value, s1.value, s2.value];
  }

  /** No attempt below n is accepted on the board. */
  ghost predicate AllRejected(live: State, rng: (nat, nat) -> Draw, radius: int, n: nat)
    requires Permutations(rng)
  {
    forall b :: 0 <= b < n ==> !Solvable(live, Attempt(rng, b), false, radius)
  }

  lemma RejectOneMore(live: State, rng: (nat, nat) -> Draw, radius: int, n: nat)
    requires Permutations(rng)
    requires AllRejected(live, rng, radius, n)
    requires !Solvable(live, Attempt(rng, n), false, radius)
    ensures AllRejected(live, rng, radius, n + 1)
  {
  }

  /** `[SHAPES[0], SHAPES[0], SHAPES[0]]` */
  const Fallback: seq<Shape> := [SHAPES[0], SHAPES[0], SHAPES[0]]

  /** Attempt a is the first one the search accepts on the board. */
  ghost predicate FirstAccepted(live: State, rng: (nat, nat) -> Draw, radius: int, a: nat)
    requires Permutations(rng)
  {
    a < MaxAttempts && Solvable(live, Attempt(rng, a), false, radius) && AllRejected(live, rng, radius, a)
  }

  /** spawnShapes: at most 100 attempts; the first triple the search accepts on
      (a copy of) the live board without an earlier clear, else the fallback
      after 100 rejected attempts. The live board is only read. */
  method SpawnShapes(grid: GridManager, rng: (nat, nat) -> Draw) returns (shapes: seq<Shape>)
    requires Permutations(rng)
    ensures |shapes| == 3 && shapes[0] in SHAPES && shapes[1] in SHAPES && shapes[2] in SHAPES
    ensures (exists a :: FirstAccepted(grid.gridState, rng, grid.radius, a) && shapes == Attempt(rng, a))
         || (shapes == Fallback && AllRejected(grid.gridState, rng, grid.radius, MaxAttempts))
  {
    ghost var live, radius := grid.gridState, grid.radius;
    var attempts: nat := 0;
    while attempts < 100
      invariant attempts <= 100
      invariant AllRejected(live, rng, radius, attempts)
    {
      var testShapes := DrawTriple(rng, attempts);
      var initialMap := CloneGridState(grid.gridState);
      var hasClear := false;
      var ok := Solve(initialMap, testShapes, hasClear, grid);
      if ok {
        assert FirstAccepted(live, rng, radius, attempts);
        AttemptInCatalog(rng, attempts);
        return testShapes;
      }
      RejectOneMore(live, rng, radius, attempts);
      attempts := attempts + 1;
    }
    FallbackIsDot();
    return Fallback;
  }
}
