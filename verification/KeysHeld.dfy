/** Which keys a built snapshot holds and with what value, in terms of the layers, the sources and the bound
    paths alone (snapshot.go, precedence.go). */
module KeysHeld {
  import opened Paths
  import opened PathOrder
  import opened Lists
  import opened Values
  import opened Aliases
  import opened Layers
  import opened Precedence
  import opened Snapshots
  import opened SnapshotBuild

  // ---------------------------------------------------------------- what the inputs say

  /** x is k or an alias that stands for it. */
  predicate Spells(inp: Inputs, k: Path, x: Path) {
    x == k || (x in inp.aliases && Target(inp.aliases, x) == k)
  }

  ghost predicate HasLeaf(layer: Layer, x: Path) {
    exists n :: 0 <= n <= |x| && Reaches(layer, x, n)
  }

  /** v is the leaf at x inside the entry of the layer at the first n segments of x, and no deeper entry
      reaches x. */
  ghost predicate LeafIs(layer: Layer, x: Path, n: nat, v: Value) {
    && n <= |x| && Reaches(layer, x, n) && LeafAt(layer[x[..n]], x[n..]) == Some(v)
    && forall m | n < m <= |x| :: !Reaches(layer, x, m)
  }

  ghost predicate ExplicitFor(inp: Inputs, k: Path) {
    exists x :: Spells(inp, k, x) && HasLeaf(inp.explicits, x)
  }

  ghost predicate DefaultFor(inp: Inputs, k: Path) {
    exists x :: Spells(inp, k, x) && HasLeaf(inp.defaults, x)
  }

  /** s answers k or an alias of it. */
  ghost predicate Supplies(inp: Inputs, s: Source, k: Path) {
    exists x :: Spells(inp, k, x) && s.get(x).Hit?
  }

  ghost predicate SomeSupplies(inp: Inputs, k: Path) {
    exists i :: 0 <= i < |inp.sources| && Supplies(inp, inp.sources[i], k)
  }

  ghost predicate PinSupplies(inp: Inputs, k: Path, pin: Bytes) {
    exists i :: 0 <= i < |inp.sources| && inp.sources[i].name == pin && Supplies(inp, inp.sources[i], k)
  }

  /** Some layer or source lists x, or a bind has read it. */
  ghost predicate Mentioned(inp: Inputs, x: Path) {
    || HasLeaf(inp.explicits, x) || HasLeaf(inp.defaults, x) || x in inp.aliases || x in inp.bound
    || exists i :: 0 <= i < |inp.sources| && x in inp.sources[i].keys
  }

  ghost predicate AskedFor(inp: Inputs, k: Path) {
    exists x :: Spells(inp, k, x) && Mentioned(inp, x)
  }

  /** Of the spellings of k that qualify, x comes first: k itself, else the aliases in order. */
  ghost predicate FirstSpelling(inp: Inputs, k: Path, has: Path -> bool, x: Path) {
    && Spells(inp, k, x) && has(x)
    && forall y | Spells(inp, k, y) && has(y) && y != x :: x == k || (y != k && Before(x, y))
  }

  /** s holds v under the first of the spellings of k it answers. */
  ghost predicate SuppliesValue(inp: Inputs, s: Source, k: Path, v: Value) {
    exists x :: FirstSpelling(inp, k, (y: Path) => s.get(y).Hit?, x) && s.get(x) == Hit(v)
  }

  ghost predicate LayerValue(inp: Inputs, layer: Layer, k: Path, v: Value) {
    exists x, n :: FirstSpelling(inp, k, (y: Path) => HasLeaf(layer, y), x) && LeafIs(layer, x, n, v)
  }

  // ---------------------------------------------------------------- spellings and candidates

  lemma {:induction false} SpellingsAre(inp: Inputs, k: Path)
    ensures forall x :: x in Spellings(inp, k) <==> Spells(inp, k, x)
  {}

  lemma {:induction false} OrderAfter(k: Path, names: seq<Path>, i: nat, j: nat)
    requires InOrder(names) && 0 < i < j <= |names|
    ensures Before(([k] + names)[i], ([k] + names)[j])
  {
    assert ([k] + names)[i] == names[i - 1] && ([k] + names)[j] == names[j - 1];
  }

  lemma {:induction false} AliasesInOrder(inp: Inputs, k: Path, i: nat, j: nat)
    requires 0 < i < j < |Spellings(inp, k)|
    ensures Before(Spellings(inp, k)[i], Spellings(inp, k)[j])
  {
    OrderAfter(k, AliasesOf(inp.aliases, k), i, j);
  }

  lemma {:induction false} SpellingAt(inp: Inputs, k: Path, has: Path -> bool, x: Path) returns (i: nat)
    requires FirstSpelling(inp, k, has, x)
    ensures i < |Spellings(inp, k)| && Spellings(inp, k)[i] == x
    ensures forall j | 0 <= j < i :: !has(Spellings(inp, k)[j])
  {
    var names := Spellings(inp, k);
    SpellingsAre(inp, k);
    if x == k { return 0; }
    i :| 0 <= i < |names| && names[i] == x;
    forall j | 0 <= j < i ensures !has(names[j]) {
      assert names[j] in names;
      BeforeTotal(names[j], x);
      if j > 0 { AliasesInOrder(inp, k, j, i); }
    }
  }

  lemma {:induction false} FirstInIs(layer: Layer, names: seq<Path>, i: nat)
    requires i < |names| && names[i] in layer && forall j | 0 <= j < i :: names[j] !in layer
    ensures FirstIn(layer, names) == Some(layer[names[i]])
  {
    if i > 0 { FirstInIs(layer, names[1..], i - 1); }
  }

  lemma {:induction false} FirstHitIs(s: Source, names: seq<Path>, i: nat)
    requires i < |names| && s.get(names[i]).Hit? && forall j | 0 <= j < i :: !s.get(names[j]).Hit?
    ensures FirstHit(s, names) == Some(s.get(names[i]).value)
  {
    if i > 0 { FirstHitIs(s, names[1..], i - 1); }
  }

  lemma {:induction false} FirstHitSome(s: Source, names: seq<Path>)
    ensures FirstHit(s, names).Some? <==> exists x :: x in names && s.get(x).Hit?
  {
    if names != [] { FirstHitSome(s, names[1..]); }
  }

  lemma {:induction false} FirstInSome(layer: Layer, names: seq<Path>)
    ensures FirstIn(layer, names).Some? <==> exists x :: x in names && x in layer
  {
    if names != [] { FirstInSome(layer, names[1..]); }
  }

  lemma {:induction false} CandidateIff(inp: Inputs, x: Path)
    ensures x in Candidates(Flattened(inp)) <==> Mentioned(inp, x)
  {
    FlattenMeaning(inp.explicits, x);
    FlattenMeaning(inp.defaults, x);
    SourceKeysAre(inp.sources, x);
  }

  lemma {:induction false} RootIff(inp: Inputs, k: Path)
    requires k !in inp.aliases
    ensures k in Roots(Flattened(inp)) <==> AskedFor(inp, k)
  {
    var flat := Flattened(inp);
    assert Target(inp.aliases, k) == k;
    forall x ensures x in Candidates(flat) <==> Mentioned(inp, x) { CandidateIff(inp, x); }
    if k in Roots(flat) {
      var c :| c in Candidates(flat) && Target(inp.aliases, c) == k;
      assert Spells(inp, k, c);
    }
    if x :| Spells(inp, k, x) && Mentioned(inp, x) { assert x in Candidates(flat) && Target(inp.aliases, x) == k; }
  }

  // ---------------------------------------------------------------- layers and sources under a spelling

  lemma {:induction false} LayerHolds(inp: Inputs, layer: Layer, k: Path)
    ensures FirstIn(Flatten(layer), Spellings(inp, k)).Some? <==> exists x :: Spells(inp, k, x) && HasLeaf(layer, x)
    ensures forall v | LayerValue(inp, layer, k, v) :: FirstIn(Flatten(layer), Spellings(inp, k)) == Some(v)
  {
    var flat, names := Flatten(layer), Spellings(inp, k);
    SpellingsAre(inp, k);
    FirstInSome(flat, names);
    forall x ensures x in flat <==> HasLeaf(layer, x) { FlattenMeaning(layer, x); }
    forall v | LayerValue(inp, layer, k, v) ensures FirstIn(flat, names) == Some(v) {
      var x, n :| FirstSpelling(inp, k, (y: Path) => HasLeaf(layer, y), x) && LeafIs(layer, x, n, v);
      var i := SpellingAt(inp, k, (y: Path) => HasLeaf(layer, y), x);
      FlattenMeaning(layer, x);
      FirstInIs(flat, names, i);
    }
  }

  lemma {:induction false} SourceHolds(inp: Inputs, s: Source, k: Path)
    ensures FirstHit(s, Spellings(inp, k)).Some? <==> Supplies(inp, s, k)
    ensures forall v | SuppliesValue(inp, s, k, v) :: FirstHit(s, Spellings(inp, k)) == Some(v)
  {
    var names := Spellings(inp, k);
    SpellingsAre(inp, k);
    FirstHitSome(s, names);
    forall v | SuppliesValue(inp, s, k, v) ensures FirstHit(s, names) == Some(v) {
      var x :| FirstSpelling(inp, k, (y: Path) => s.get(y).Hit?, x) && s.get(x) == Hit(v);
      var i := SpellingAt(inp, k, (y: Path) => s.get(y).Hit?, x);
      FirstHitIs(s, names, i);
    }
  }

  lemma {:induction false} HoldersAre(inp: Inputs, k: Path)
    ensures NoHolder(inp.sources, Spellings(inp, k)) <==> !SomeSupplies(inp, k)
    ensures forall i | 0 <= i < |inp.sources| ::
      FirstHit(inp.sources[i], Spellings(inp, k)).Some? <==> Supplies(inp, inp.sources[i], k)
  {
    forall i | 0 <= i < |inp.sources|
      ensures FirstHit(inp.sources[i], Spellings(inp, k)).Some? <==> Supplies(inp, inp.sources[i], k)
    {
      SourceHolds(inp, inp.sources[i], k);
    }
  }

  lemma {:induction false} LeastSpelling(inp: Inputs, k: Path, has: Path -> bool, i: nat) returns (x: Path)
    requires i < |Spellings(inp, k)| && has(Spellings(inp, k)[i])
    requires forall j | 0 <= j < i :: !has(Spellings(inp, k)[j])
    ensures FirstSpelling(inp, k, has, x)
  {
    var names := Spellings(inp, k);
    x := names[i];
    SpellingsAre(inp, k);
    forall y | Spells(inp, k, y) && has(y) && y != x ensures x == k || (y != k && Before(x, y)) {
      var j :| 0 <= j < |names| && names[j] == y;
      assert names[0] == k && i < j;
      if i > 0 { AliasesInOrder(inp, k, i, j); }
    }
  }

  lemma {:induction false} FirstWith(names: seq<Path>, has: Path -> bool) returns (i: nat)
    requires exists x :: x in names && has(x)
    ensures i < |names| && has(names[i]) && forall j | 0 <= j < i :: !has(names[j])
  {
    if has(names[0]) { return 0; }
    var x :| x in names && has(x);
    assert x in names[1..];
    i := FirstWith(names[1..], has);
    i := i + 1;
  }

  /** Whoever has a value for k under some spelling has one under a first spelling. */
  lemma {:induction false} SpeakersHaveValues(inp: Inputs, k: Path)
    ensures forall s | Supplies(inp, s, k) :: exists v :: SuppliesValue(inp, s, k, v)
    ensures ExplicitFor(inp, k) ==> exists v :: LayerValue(inp, inp.explicits, k, v)
    ensures DefaultFor(inp, k) ==> exists v :: LayerValue(inp, inp.defaults, k, v)
  {
    forall s | Supplies(inp, s, k) ensures exists v :: SuppliesValue(inp, s, k, v) {
      var has := (y: Path) => s.get(y).Hit?;
      SpellingsAre(inp, k);
      var i := FirstWith(Spellings(inp, k), has);
      var x := LeastSpelling(inp, k, has, i);
      assert SuppliesValue(inp, s, k, s.get(x).value);
    }
    if ExplicitFor(inp, k) { var v := LayerHasValue(inp, inp.explicits, k); }
    if DefaultFor(inp, k) { var v := LayerHasValue(inp, inp.defaults, k); }
  }

  lemma {:induction false} LayerHasValue(inp: Inputs, layer: Layer, k: Path) returns (v: Value)
    requires exists x :: Spells(inp, k, x) && HasLeaf(layer, x)
    ensures LayerValue(inp, layer, k, v)
  {
    var has := (y: Path) => HasLeaf(layer, y);
    SpellingsAre(inp, k);
    var i := FirstWith(Spellings(inp, k), has);
    var x := LeastSpelling(inp, k, has, i);
    DeepestNone(layer, x, |x|);
    var n := DeepestFinds(layer, x, |x|);
    v := LeafAt(layer[x[..n]], x[n..]).value;
    assert LeafIs(layer, x, n, v);
  }

  // ---------------------------------------------------------------- which keys are held

  /** Some layer or source that may speak for k has a value for it. */
  ghost predicate HasValue(inp: Inputs, k: Path) {
    ExplicitFor(inp, k)
    || if k in inp.pins then PinSupplies(inp, k, inp.pins[k]) else SomeSupplies(inp, k) || DefaultFor(inp, k)
  }

  lemma {:induction false} ResolvesIff(inp: Inputs, k: Path)
    requires DistinctNames(inp.sources)
    ensures Resolution(Flattened(inp), k).Some? <==> HasValue(inp, k)
  {
    var flat, names := Flattened(inp), Spellings(inp, k);
    assert Spellings(flat, k) == names;
    LayerHolds(inp, inp.explicits, k);
    LayerHolds(inp, inp.defaults, k);
    HoldersAre(inp, k);
    if ExplicitFor(inp, k) {
    } else if k in inp.pins {
      UpperLayers(flat, k);
    } else {
      UnpinnedIff(flat, k, names);
    }
  }

  lemma {:induction false} UnpinnedIff(inp: Inputs, k: Path, names: seq<Path>)
    requires FirstIn(inp.explicits, names).None? && k !in inp.pins
    ensures ResolveIn(inp, k, names).Some? <==>
      !NoHolder(inp.sources, names) || FirstIn(inp.defaults, names).Some?
  {
    Supplied(inp.sources, names);
    SameCount(inp.sources, names);
    if NoHolder(inp.sources, names) {
      NoSupply(inp.sources, names);
    } else {
      var i := HolderIndex(inp.sources, names);
      FirstSupplyIs(inp.sources, names, i);
    }
  }

  /** A key that is no alias has a value in a built snapshot exactly when it is asked for, under some
      spelling, by a layer, a source's list or a bind, and some layer or source that may speak for it has
      one. */
  lemma {:induction false} PresentIff(inp: Inputs, order: seq<Path>, k: Path)
    requires Orders(order, inp.aliases.Keys) && DistinctNames(inp.sources) && k !in inp.aliases
    ensures k in BuildAlong(inp, order).values <==> AskedFor(inp, k) && HasValue(inp, k)
  {
    BuildMeaning(inp, order, k);
    RootIff(inp, k);
    ResolvesIff(inp, k);
  }

  // ---------------------------------------------------------------- with what value

  /** k has value v in s, from the layer l alone or first. */
  ghost predicate Carries(s: Snapshot, k: Path, v: Value, l: Label) {
    && k in s.values && k in s.sources && s.values[k] == WithSource(v, l)
    && s.sources[k] != [] && s.sources[k][0] == l
  }

  lemma {:induction false} ResolvedIsCarried(inp: Inputs, order: seq<Path>, k: Path, v: Value, labels: seq<Label>)
    requires Orders(order, inp.aliases.Keys) && k !in inp.aliases && AskedFor(inp, k) && labels != []
    requires Resolution(Flattened(inp), k) == Some(Resolved(WithSource(v, labels[0]), labels))
    ensures Carries(BuildAlong(inp, order), k, v, labels[0]) && BuildAlong(inp, order).sources[k] == labels
  {
    BuildMeaning(inp, order, k);
    RootIff(inp, k);
  }

  /** An explicit value is what its key holds, whatever else is set, pinned or supplied. */
  lemma {:induction false} ExplicitIsHeld(inp: Inputs, order: seq<Path>, k: Path, v: Value)
    requires Orders(order, inp.aliases.Keys) && k !in inp.aliases && LayerValue(inp, inp.explicits, k, v)
    ensures Carries(BuildAlong(inp, order), k, v, Explicit) && BuildAlong(inp, order).sources[k] == [Explicit]
  {
    var x, n :| FirstSpelling(inp, k, (y: Path) => HasLeaf(inp.explicits, y), x) && LeafIs(inp.explicits, x, n, v);
    assert Mentioned(inp, x);
    LayerHolds(inp, inp.explicits, k);
    assert Spellings(Flattened(inp), k) == Spellings(inp, k);
    ResolvedIsCarried(inp, order, k, v, [Explicit]);
  }

  /** Without one, a pinned key holds what its source supplies. */
  lemma {:induction false} PinnedIsHeld(inp: Inputs, order: seq<Path>, k: Path, i: nat, v: Value)
    requires Orders(order, inp.aliases.Keys) && DistinctNames(inp.sources) && k !in inp.aliases && AskedFor(inp, k)
    requires !ExplicitFor(inp, k) && k in inp.pins && i < |inp.sources| && inp.sources[i].name == inp.pins[k]
    requires SuppliesValue(inp, inp.sources[i], k, v)
    ensures Carries(BuildAlong(inp, order), k, v, Of(inp.pins[k]))
    ensures BuildAlong(inp, order).sources[k] == [Of(inp.pins[k])]
  {
    var names := Spellings(inp, k);
    LayerHolds(inp, inp.explicits, k);
    SourceHolds(inp, inp.sources[i], k);
    PinIs(inp.sources, names, i);
    PinnedResolves(inp, k, names, v);
    ResolvedIsCarried(inp, order, k, v, [Of(inp.pins[k])]);
  }

  lemma {:induction false} PinnedResolves(inp: Inputs, k: Path, names: seq<Path>, v: Value)
    requires names == Spellings(inp, k) && FirstIn(Flatten(inp.explicits), names).None? && k in inp.pins
    requires FromPin(inp.sources, inp.pins[k], names) ==
      Some(Resolved(WithSource(v, Of(inp.pins[k])), [Of(inp.pins[k])]))
    ensures Resolution(Flattened(inp), k) == Some(Resolved(WithSource(v, Of(inp.pins[k])), [Of(inp.pins[k])]))
  {}

  /** And nothing if its source supplies nothing, or is gone: no other layer stands in for it. */
  lemma {:induction false} PinnedIsAbsent(inp: Inputs, order: seq<Path>, k: Path)
    requires Orders(order, inp.aliases.Keys) && DistinctNames(inp.sources) && k !in inp.aliases
    requires !ExplicitFor(inp, k) && k in inp.pins && !PinSupplies(inp, k, inp.pins[k])
    ensures k !in BuildAlong(inp, order).values
  {
    PresentIff(inp, order, k);
  }

  /** Without either, and with the sources shadowing each other, a key holds what the first source that
      answers it supplies. */
  lemma {:induction false} FirstSourceIsHeld(inp: Inputs, order: seq<Path>, k: Path, i: nat, v: Value)
    requires Orders(order, inp.aliases.Keys) && k !in inp.aliases && AskedFor(inp, k)
    requires !ExplicitFor(inp, k) && k !in inp.pins && inp.merge.MergeShadow?
    requires i < |inp.sources| && SuppliesValue(inp, inp.sources[i], k, v)
    requires forall j | 0 <= j < i :: !Supplies(inp, inp.sources[j], k)
    ensures Carries(BuildAlong(inp, order), k, v, Of(inp.sources[i].name))
  {
    var flat, names := Flattened(inp), Spellings(inp, k);
    assert Spellings(flat, k) == names;
    LayerHolds(inp, inp.explicits, k);
    HoldersAre(inp, k);
    SourceHolds(inp, inp.sources[i], k);
    FirstSupplyIs(inp.sources, names, i);
    ResolvedIsCarried(inp, order, k, v, Contributors(inp.sources, names));
  }

  lemma {:induction false} DefaultResolves(inp: Inputs, k: Path, names: seq<Path>, v: Value)
    requires FirstIn(inp.explicits, names).None? && k !in inp.pins && NoHolder(inp.sources, names)
    requires FirstIn(inp.defaults, names) == Some(v)
    ensures ResolveIn(inp, k, names) == Some(Resolved(WithSource(v, Default), [Default]))
  {
    NoSupply(inp.sources, names);
    assert AllContributions(inp, names) == [v] && AllContributors(inp, names) == [Default];
  }

  /** And where no source answers it, its default. */
  lemma {:induction false} DefaultIsHeld(inp: Inputs, order: seq<Path>, k: Path, v: Value)
    requires Orders(order, inp.aliases.Keys) && k !in inp.aliases && LayerValue(inp, inp.defaults, k, v)
    requires !ExplicitFor(inp, k) && k !in inp.pins && !SomeSupplies(inp, k)
    ensures Carries(BuildAlong(inp, order), k, v, Default) && BuildAlong(inp, order).sources[k] == [Default]
  {
    var flat, names := Flattened(inp), Spellings(inp, k);
    var x, n :| FirstSpelling(inp, k, (y: Path) => HasLeaf(inp.defaults, y), x) && LeafIs(inp.defaults, x, n, v);
    assert Mentioned(inp, x) && Spellings(flat, k) == names;
    LayerHolds(inp, inp.explicits, k);
    LayerHolds(inp, inp.defaults, k);
    HoldersAre(inp, k);
    DefaultResolves(flat, k, names, v);
    ResolvedIsCarried(inp, order, k, v, [Default]);
  }

  /** A path that a bind has read takes part in the build although no source lists it: if it is no alias and
      not pinned and some source answers it, it has a value. With no explicit one and sources that shadow
      each other, the value is that of the first source to answer it, if that answers the path itself. */
  lemma {:induction false} BoundPathIsHeld(inp: Inputs, order: seq<Path>, p: Path, i: nat)
    requires Orders(order, inp.aliases.Keys) && DistinctNames(inp.sources)
    requires p in inp.bound && p !in inp.aliases && p !in inp.pins
    requires i < |inp.sources| && inp.sources[i].get(p).Hit?
    ensures p in BuildAlong(inp, order).values
    ensures
      && inp.merge.MergeShadow? && !ExplicitFor(inp, p)
      && (forall j | 0 <= j < i :: !Supplies(inp, inp.sources[j], p)) ==>
           Carries(BuildAlong(inp, order), p, inp.sources[i].get(p).value, Of(inp.sources[i].name))
  {
    assert Spells(inp, p, p) && Mentioned(inp, p);
    assert Supplies(inp, inp.sources[i], p);
    PresentIff(inp, order, p);
    if inp.merge.MergeShadow? && !ExplicitFor(inp, p) && forall j | 0 <= j < i :: !Supplies(inp, inp.sources[j], p) {
      assert FirstSpelling(inp, p, (y: Path) => inp.sources[i].get(y).Hit?, p);
      FirstSourceIsHeld(inp, order, p, i, inp.sources[i].get(p).value);
    }
  }
}
