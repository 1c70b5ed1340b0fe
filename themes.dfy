/** The colour theme selector of js/Theme.js: a fixed, ordered table of
    palettes and the name of the current one, which setTheme and nextTheme
    move. */
module Themes {
  /** A theme's palette: `{ bg, grid, displayActive, displayIdle, border }`. */
  datatype Palette = Palette(bg: string, grid: string, displayActive: string, displayIdle: string, border: string)

  /** The keys of `Theme.colors` in declaration order (what `Object.keys`
      returns for these non-numeric keys). */
  const ThemeNames: seq<string> :=
    ["neon", "lava", "cyberSynth", "deepOcean", "forestSpirit", "royalGold", "iceWhite", "bloodMoon"]

  /** `Theme.colors` */
  const Colors: map<string, Palette> := map[
    "neon" := Palette("#1a1a1a", "#2a2a2a", "#00FF99", "#222222", "#333333"),
    "lava" := Palette("#1a0500", "#331100", "#FF4400", "#220000", "#441100"),
    "cyberSynth" := Palette("#120422", "#241139", "#FF00FF", "#2A0A3D", "#333333"),
    "deepOcean" := Palette("#001219", "#00222E", "#00E5FF", "#00313D", "#444444"),
    "forestSpirit" := Palette("#0B1305", "#1C2A12", "#A7C957", "#1A2410", "#333333"),
    "royalGold" := Palette("#0F0F0F", "#1C1C1C", "#D4AF37", "#252010", "#444444"),
    "iceWhite" := Palette("#121212", "#1E1E1E", "#FFFFFF", "#252525", "#444444"),
    "bloodMoon" := Palette("#1A0505", "#2A0D0D", "#FF3333", "#3D0A0A", "#444444")
  ]

  /** The theme the object starts with. */
  const InitialTheme: string := "lava"

  /** The name list and the palette table agree: the names are the table's
      keys, each listed once. */
  lemma NamesAreKeys()
    ensures forall k :: 0 <= k < |ThemeNames| ==> ThemeNames[k] in Colors
    ensures forall n :: n in Colors ==> n in ThemeNames
    ensures forall a, b :: 0 <= a < b < |ThemeNames| ==> ThemeNames[a] != ThemeNames[b]
  {
  }

  /** The five own properties of a palette object. */
  const PaletteKeys: set<string> := {"bg", "grid", "displayActive", "displayIdle", "border"}

  /** The properties every plain object inherits from `Object.prototype`; each
      is a function or an object, so a lookup of one of them is truthy. */
  const PrototypeMembers: set<string> := {
    "constructor", "hasOwnProperty", "isPrototypeOf", "propertyIsEnumerable",
    "toLocaleString", "toString", "valueOf", "__defineGetter__", "__defineSetter__",
    "__lookupGetter__", "__lookupSetter__", "__proto__"
  }

  /** What a property lookup on a palette object yields: one of its own colour
      strings, the inherited `Object.prototype` member of that name (a
      function, or the prototype object itself for `__proto__`), or `undefined`. */
  datatype Lookup = Own(text: string) | Inherited(member: string) | Undefined

  /** `palette[key]`: an own field gives its colour, an inherited member name
      gives that member, and any other key gives `undefined`. */
  function Field(palette: Palette, key: string): (value: Lookup)
    ensures value.Own? <==> key in PaletteKeys
    ensures value.Inherited? <==> key in PrototypeMembers
    ensures value.Inherited? ==> value.member == key
    ensures value.Undefined? <==> key !in PaletteKeys && key !in PrototypeMembers
  {
    match key
    case "bg" => Own(palette.bg)
    case "grid" => Own(palette.grid)
    case "displayActive" => Own(palette.displayActive)
    case "displayIdle" => Own(palette.displayIdle)
    case "border" => Own(palette.border)
    case _ => if key in PrototypeMembers then Inherited(key) else Undefined
  }

  /** `names.indexOf(x)`: the first position of x, or -1. */
  function IndexOf<T(==)>(names: seq<T>, x: T): (idx: int)
    ensures -1 <= idx < |names|
  {
    if |names| == 0 then -1
    else if names[0] == x then 0
    else
      var rest := IndexOf(names[1..], x);
      if rest == -1 then -1 else rest + 1
  }

  /** indexOf finds the first occurrence, and -1 exactly for a missing entry. */
  lemma {:induction false} IndexOfFirst<T>(names: seq<T>, x: T)
    ensures IndexOf(names, x) == -1 <==> x !in names
    ensures 0 <= IndexOf(names, x) ==> names[IndexOf(names, x)] == x
    ensures forall k :: 0 <= k < IndexOf(names, x) ==> names[k] != x
  {
    if |names| > 0 && names[0] != x {
      IndexOfFirst(names[1..], x);
      assert names == [names[0]] + names[1..];
    }
  }

  /** In a list without repeats, indexOf finds each entry at its own position. */
  lemma {:induction false} IndexOfListed<T>(names: seq<T>, k: nat)
    requires k < |names|
    requires forall a, b :: 0 <= a < b < |names| ==> names[a] != names[b]
    ensures IndexOf(names, names[k]) == k
  {
    if k > 0 {
      assert names[0] != names[k];
      IndexOfListed(names[1..], k - 1);
      assert names[1..][k - 1] == names[k];
    }
  }

  /** indexOf finds every entry of the list at its own position. */
  predicate Listed<T(==)>(names: seq<T>) {
    forall k :: 0 <= k < |names| ==> IndexOf(names, names[k]) == k
  }

  /** A list without repeats is listed. */
  lemma DistinctListed<T>(names: seq<T>)
    requires forall a, b :: 0 <= a < b < |names| ==> names[a] != names[b]
    ensures Listed(names)
  {
    forall k | 0 <= k < |names| ensures IndexOf(names, names[k]) == k {
      IndexOfListed(names, k);
    }
  }

  /** The name nextTheme moves to in the list `names`: the one after `name`,
      wrapping from the last to the first; a name that is not listed has
      index -1 and so moves to the first name. */
  function NextIn<T(==)>(names: seq<T>, name: T): T
    requires |names| > 0
  {
    var nextIndex := IndexOf(names, name) + 1;
    names[if nextIndex < |names| then nextIndex else 0]
  }

  /** nextTheme's move over the declared themes. */
  function NextName(name: string): string {
    NextIn(ThemeNames, name)
  }

  /** The name setTheme leaves current at: `name` if the table has it. */
  function Selected(current: string, name: string): (next: string)
    ensures name in Colors ==> next == name
    ensures name !in Colors ==> next == current
  {
    if name in Colors then name else current
  }

  class Theme {
    var current: string

    /** `current` names a palette. */
    predicate Valid()
      reads this
    {
      current in Colors
    }

    constructor ()
      ensures current == InitialTheme && Valid()
    {
      current := InitialTheme;
    }

    /** get: the current palette's entry for key. */
    function Get(key: string): (value: Lookup)
      reads this
      requires Valid()
      ensures value.Own? <==> key in PaletteKeys
      ensures value.Inherited? <==> key in PrototypeMembers
      ensures value.Undefined? <==> key !in PaletteKeys && key !in PrototypeMembers
      ensures value == Field(Colors[current], key)
    {
      Field(Colors[current], key)
    }

    /** setTheme: switch to `name` when the table has it; otherwise nothing changes. */
    method SetTheme(name: string)
      modifies this
      ensures current == Selected(old(current), name)
      ensures old(Valid()) ==> Valid()
    {
      if name in Colors {
        current := name;
      }
    }

    /** nextTheme: move to the next name in declaration order. */
    method NextTheme()
      modifies this
      ensures current == NextName(old(current))
      ensures Valid()
    {
      var themeNames := ThemeNames;
      var currentIndex := IndexOf(themeNames, current);
      var nextIndex := (currentIndex + 1) % |themeNames|;
      WrapIndex(currentIndex + 1, |themeNames|);
      current := themeNames[nextIndex];
    }
  }

  /** In a list without repeats, the entry after the k-th is the (k + 1)-th,
      the last wrapping to the first. */
  lemma NextInStep<T>(names: seq<T>, k: nat)
    requires k < |names| && Listed(names)
    ensures NextIn(names, names[k]) == names[if k + 1 < |names| then k + 1 else 0]
  {
    assert IndexOf(names, names[k]) == k;
  }

  /** `i % length` for an index one past a position: the source's modulo is
      the wrap-around NextIn writes out. */
  lemma WrapIndex(i: int, length: int)
    requires 0 <= i <= length && 0 < length
    ensures i % length == if i < length then i else 0
  {
    if i == length {
      assert i == 1 * length + 0;
    } else {
      assert i == 0 * length + i;
    }
  }

  /** nextTheme from the k-th listed theme lands on the (k + 1)-th, the last
      wrapping to the first. */
  lemma NextNameStep(k: nat)
    requires k < |ThemeNames|
    ensures NextName(ThemeNames[k]) == ThemeNames[if k + 1 < |ThemeNames| then k + 1 else 0]
  {
    NamesAreKeys();
    DistinctListed(ThemeNames);
    NextInStep(ThemeNames, k);
  }

  /** From the last theme, nextTheme returns to the first. */
  lemma NextNameWraps()
    ensures NextName(ThemeNames[|ThemeNames| - 1]) == ThemeNames[0]
  {
    NextNameStep(|ThemeNames| - 1);
  }

  /** A name that is not listed moves to the first theme. */
  lemma NextNameUnknown(name: string)
    requires name !in ThemeNames
    ensures NextName(name) == ThemeNames[0]
  {
  }

  /** nextTheme applied n times, over the list `names`. */
  function Advance<T(==)>(names: seq<T>, name: T, n: nat): T
    requires |names| > 0
    decreases n
  {
    if n == 0 then name else Advance(names, NextIn(names, name), n - 1)
  }

  /** Advancing a + b times is advancing a times, then b times. */
  lemma {:induction false} AdvanceAdd<T>(names: seq<T>, name: T, a: nat, b: nat)
    requires |names| > 0
    ensures Advance(names, name, a + b) == Advance(names, Advance(names, name, a), b)
    decreases a
  {
    if a > 0 {
      AdvanceAdd(names, NextIn(names, name), a - 1, b);
    }
  }

  /** Before the end of the list, n steps from the k-th name reach the (k + n)-th. */
  lemma {:induction false} AdvanceWithin<T>(names: seq<T>, k: nat, n: nat)
    requires k + n < |names| && Listed(names)
    ensures Advance(names, names[k], n) == names[k + n]
    decreases n
  {
    if n > 0 {
      NextInStep(names, k);
      AdvanceWithin(names, k + 1, n - 1);
    }
  }

  /** As many steps as there are names return to the start: up to the last
      name, one wrap to the first, then on to the k-th. */
  lemma CycleIn<T>(names: seq<T>, k: nat)
    requires k < |names| && Listed(names)
    ensures Advance(names, names[k], |names|) == names[k]
  {
    var last, n := |names| - 1, |names|;
    var toLast := last - k;
    // n steps are toLast steps up to the last name, then k + 1 more
    AdvanceAdd(names, names[k], toLast, k + 1);
    assert toLast + (k + 1) == n;
    AdvanceWithin(names, k, toLast);
    var atLast := Advance(names, names[k], toLast);
    assert atLast == names[last];
    // one step from the last name wraps to the first, then k steps reach the k-th
    AdvanceAdd(names, atLast, 1, k);
    NextInStep(names, last);
    var atFirst := Advance(names, atLast, 1);
    assert atFirst == names[0];
    AdvanceWithin(names, 0, k);
    assert Advance(names, atFirst, k) == names[k];
  }

  /** Eight calls of nextTheme, one per theme, return to the starting theme. */
  lemma FullCycle(k: nat)
    requires k < |ThemeNames|
    ensures Advance(ThemeNames, ThemeNames[k], |ThemeNames|) == ThemeNames[k]
  {
    NamesAreKeys();
    DistinctListed(ThemeNames);
    CycleIn(ThemeNames, k);
  }

  // ---------------------------------------------------------------------------
  // setTheme's guard as written

  /** `if (this.colors[name]) this.current = name`: the guard tests the
      property lookup, which also finds the inherited members. */
  function SelectedAsWritten(current: string, name: string): (next: string)
    ensures next == current || next == name
    ensures next == name <==> name in Colors || name in PrototypeMembers || name == current
  {
    if name in Colors || name in PrototypeMembers then name else current
  }

  /** setTheme('toString') as written leaves current naming no palette, after
      which get reads a field of a function. */
  lemma SelectedAsWrittenEscapes()
    ensures InitialTheme in Colors
    ensures SelectedAsWritten(InitialTheme, "toString") !in Colors
  {
  }

  /** The guard on own keys keeps current a palette name whatever is passed. */
  lemma SelectedKeepsTheme(current: string, name: string)
    requires current in Colors
    ensures Selected(current, name) in Colors
  {
  }
}
