/** The provenance in a built snapshot: which layer a value is said to come from (snapshot.go,
    precedence.go). */
module Labels {
  import opened Lists
  import opened Paths
  import opened Values
  import opened Aliases
  import opened Layers
  import opened Precedence
  import opened Snapshots
  import opened Stamping
  import opened SnapshotBuild
  import opened BoundPaths
  import opened KeysHeld

  /** l names a layer there is: the explicit or the default one, or a source. */
  ghost predicate LayerLabel(sources: seq<Source>, l: Label) {
    l == Explicit || l == Default || exists i :: 0 <= i < |sources| && l == Of(sources[i].name)
  }

  lemma {:induction false} PinFound(sources: seq<Source>, pin: Bytes, names: seq<Path>)
    requires FromPin(sources, pin, names).Some?
    ensures FromPin(sources, pin, names).value.sources == [Of(pin)] == [FromPin(sources, pin, names).value.value.source]
    ensures exists i :: 0 <= i < |sources| && sources[i].name == pin
  {
    if sources[0].name != pin {
      PinFound(sources[1..], pin, names);
      var i :| 0 <= i < |sources[1..]| && sources[1..][i].name == pin;
      assert sources[i + 1].name == pin;
    }
  }

  /** What a key resolves to is tagged with the layer that heads its provenance: the explicit layer exactly
      when that has a value, the default one exactly when nothing else may or does speak for the key. */
  lemma {:induction false} LabelIs(inp: Inputs, k: Path, names: seq<Path>)
    requires ResolveIn(inp, k, names).Some?
    ensures var r := ResolveIn(inp, k, names).value;
      && r.sources != [] && r.value.source == r.sources[0] && LayerLabel(inp.sources, r.sources[0])
      && (r.sources[0] == Explicit <==> FirstIn(inp.explicits, names).Some?)
      && (r.sources[0] == Default <==>
            FirstIn(inp.explicits, names).None? && k !in inp.pins && NoHolder(inp.sources, names))
  {
    if FirstIn(inp.explicits, names).Some? {
    } else if k in inp.pins {
      PinFound(inp.sources, inp.pins[k], names);
    } else if NoHolder(inp.sources, names) {
      NoSupply(inp.sources, names);
      if FirstIn(inp.defaults, names).Some? { DefaultResolves(inp, k, names, FirstIn(inp.defaults, names).value); }
    } else {
      var i := HolderIndex(inp.sources, names);
      FirstSupplyIs(inp.sources, names, i);
    }
  }

  /** A resolved map with entries comes from a source: the other layers are flattened. */
  lemma {:induction false} MapIsFromSource(inp: Inputs, k: Path, names: seq<Path>)
    requires ResolveIn(Flattened(inp), k, names).Some? && Nested(ResolveIn(Flattened(inp), k, names).value.value)
    ensures var l := ResolveIn(Flattened(inp), k, names).value.sources; l != [] && l[0].Of?
  {
    var flat := Flattened(inp);
    LabelIs(flat, k, names);
    if FirstIn(flat.explicits, names).Some? { FirstInIsFlat(inp.explicits, names); }
    if FirstIn(flat.explicits, names).None? && k !in inp.pins && NoHolder(inp.sources, names) {
      NoSupply(inp.sources, names);
      if FirstIn(flat.defaults, names).Some? {
        DefaultResolves(flat, k, names, FirstIn(flat.defaults, names).value);
        FirstInIsFlat(inp.defaults, names);
      }
    }
  }

  lemma {:induction false} FirstInIsFlat(layer: Layer, names: seq<Path>)
    requires FirstIn(Flatten(layer), names).Some?
    ensures !Nested(FirstIn(Flatten(layer), names).value)
  {
    if names[0] in Flatten(layer) { FlattenedIsFlat(layer, names[0]); } else { FirstInIsFlat(layer, names[1..]); }
  }

  lemma {:induction false} StampedFrom<V>(aliases: Graph<Path>, base: map<Path, V>, order: seq<Path>, k: Path)
    returns (c: Path)
    requires k in StampAlong(aliases, base, order)
    ensures c in base && StampAlong(aliases, base, order)[k] == base[c]
  {
    if order == [] {
      c := k;
    } else {
      var front, a := order[..|order| - 1], order[|order| - 1];
      var full := StampAlong(aliases, base, front);
      c := StampedFrom(aliases, base, front, if k == a && Target(aliases, a) in full then Target(aliases, a) else k);
    }
  }

  /** k's value in s is tagged with the layer that heads its provenance, and that is a source for a map with
      entries. */
  ghost predicate WellLabelled(inp: Inputs, s: Snapshot, k: Path) {
    && k in s.values && k in s.sources && s.sources[k] != [] && s.values[k].source == s.sources[k][0]
    && LayerLabel(inp.sources, s.sources[k][0]) && (Nested(s.values[k]) ==> s.sources[k][0].Of?)
  }

  /** So is every value of a built snapshot, those of aliases included and whatever the alias chains. */
  lemma {:induction false} BuiltLabels(inp: Inputs, order: seq<Path>, k: Path)
    requires k in BuildAlong(inp, order).values
    ensures WellLabelled(inp, BuildAlong(inp, order), k)
  {
    var flat, full := Flattened(inp), FullOf(inp, order);
    var c := StampedFrom(inp.aliases, Canonical(flat), order, k);
    LabelIs(flat, c, Spellings(flat, c));
    if Nested(full[k].value) { MapIsFromSource(inp, c, Spellings(flat, c)); }
  }

  /** The tag of a value says who has one: the explicit layer exactly when it speaks for the key, and the
      defaults exactly when no explicit value, pin or source does. */
  lemma {:induction false} TagTells(inp: Inputs, order: seq<Path>, k: Path)
    requires Orders(order, inp.aliases.Keys) && k !in inp.aliases && k in BuildAlong(inp, order).values
    ensures var l := BuildAlong(inp, order).values[k].source;
      && (l == Explicit <==> ExplicitFor(inp, k))
      && (l == Default <==> !ExplicitFor(inp, k) && k !in inp.pins && !SomeSupplies(inp, k))
  {
    var flat := Flattened(inp);
    BuildMeaning(inp, order, k);
    assert Target(inp.aliases, k) == k && Spellings(flat, k) == Spellings(inp, k);
    LabelIs(flat, k, Spellings(inp, k));
    LayerHolds(inp, inp.explicits, k);
    HoldersAre(inp, k);
  }
}
