/** What a write is for: what the installed snapshot gives back after it (registry_set.go, registry.go,
    registry_bind.go). */
module WriteThenRead {
  import opened Lists
  import opened Paths
  import opened KeyCuts
  import opened Values
  import opened Trees
  import opened Aliases
  import opened Layers
  import opened Precedence
  import opened Snapshots
  import opened Views
  import opened SnapshotBuild
  import opened Registry
  import opened LayerOrder
  import opened KeysHeld
  import opened Listings
  import opened Labels
  import opened Effects

  /** The snapshot a successful rebuild installs was built from the fields it left. */
  lemma {:induction false} InstalledIsBuilt(cfg: Config, st: State, op: Op, cand: Snapshot)
    requires Possible(cfg, st, op, cand) && Step(cfg, st, op, cand).0.rebuilds != st.rebuilds
    ensures var after := Step(cfg, st, op, cand).0;
      after.snapshot == Some(cand) && Built(InputsOf(cfg, after), cand)
  {
    var plan := PlanOf(cfg, st, op);
    if plan.Rebuild? { assert InputsOf(cfg, Install(plan.next, cand)) == InputsOf(cfg, plan.next); }
  }

  lemma {:induction false} OrderOf(inp: Inputs, s: Snapshot) returns (order: seq<Path>)
    requires Built(inp, s)
    ensures Orders(order, inp.aliases.Keys) && s == BuildAlong(inp, order)
    ensures Listed(s) && IndicesRight(s) && s.aliases == inp.aliases && s.sourceNames == Names(inp.sources)
  {
    BuiltMeans(inp, s);
    order :| Orders(order, inp.aliases.Keys) && s == BuildAlong(inp, order);
    BuildReadable(inp, order);
    BuiltFields(inp, s);
  }

  lemma {:induction false} BuiltShape(inp: Inputs, s: Snapshot)
    requires Built(inp, s)
    ensures Listed(s) && IndicesRight(s) && s.aliases == inp.aliases && s.sourceNames == Names(inp.sources)
  {
    var order := OrderOf(inp, s);
  }

  lemma {:induction false} BuiltTag(inp: Inputs, s: Snapshot, k: Path)
    requires Built(inp, s) && k in s.values
    ensures WellLabelled(inp, s, k)
    ensures k !in inp.aliases ==>
      && (s.values[k].source == Explicit <==> ExplicitFor(inp, k))
      && (s.values[k].source == Default <==> !ExplicitFor(inp, k) && k !in inp.pins && !SomeSupplies(inp, k))
  {
    var order := OrderOf(inp, s);
    BuiltLabels(inp, order, k);
    if k !in inp.aliases { TagTells(inp, order, k); }
  }

  // ---------------------------------------------------------------- explicit values

  lemma {:induction false} ExplicitReads(inp: Inputs, s: Snapshot, q: Path, v: Value)
    requires Built(inp, s) && q !in inp.aliases && LayerValue(inp, inp.explicits, q, v)
    ensures Carries(s, q, v, Explicit) && CodeRead(s, q, ReadExact) == Some(WithSource(v, Explicit))
  {
    var order := OrderOf(inp, s);
    ExplicitIsHeld(inp, order, q, v);
    ExplicitIsRead(s, q, ReadExact);
  }

  lemma {:induction false} ExplicitIsListed(inp: Inputs, s: Snapshot, q: Path)
    requires Built(inp, s) && HasLeaf(inp.explicits, q) && q in s.values && From(s, q, Explicit)
    ensures q in s.keys
  {
    var order := OrderOf(inp, s);
    SetIsNotHidden(inp, s, q);
    ListedIff(inp, order, q);
  }

  lemma {:induction false} SetIsNotHidden(inp: Inputs, s: Snapshot, q: Path)
    requires HasLeaf(inp.explicits, q) && From(s, q, Explicit)
    ensures !HasTwin(inp, s, q) && !InParts(inp, s, q)
  {}

  /** The layer's leaf at q is the one inside the entry just written at its first n segments. */
  lemma {:induction false} OwnLeaf(inp: Inputs, layer: Layer, q: Path, n: nat, v: Value)
    requires LeafIs(layer, q, n, v)
    ensures LayerValue(inp, layer, q, v) && HasLeaf(layer, q)
  {
    assert HasLeaf(layer, q);
    assert FirstSpelling(inp, q, (y: Path) => HasLeaf(layer, y), q);
  }

  /** No entry of the layer strictly below k reaches q. */
  ghost predicate NoneDeeper(layer: Layer, k: Path, q: Path) {
    forall n | |k| < n <= |q| :: !Reaches(layer, q, n)
  }

  lemma {:induction false} WrittenLeaf(before: Layer, after: Layer, k: Path, v: Value, r: Path, leaf: Value)
    requires AllChanged(before, after, map[k := Some(v)]) && LeafAt(v, r) == Some(leaf)
    requires NoneDeeper(before, k, k + r)
    ensures LeafIs(after, k + r, |k|, leaf)
  {
    var q := k + r;
    assert q[..|k|] == k && q[|k|..] == r;
    assert Entry(after, k) == Some(v);
    forall m | |k| < m <= |q| ensures !Reaches(after, q, m) {
      assert |q[..m]| == m && !Reaches(before, q, m);
      assert Entry(after, q[..m]) == Entry(before, q[..m]);
    }
  }

  /** After Set(k, v) has been accepted: every leaf of v is what an exact read of its key gives, tagged
      explicit, whatever the sources, pins and defaults say. Only a value set at a key strictly between k and
      the leaf, or at the leaf itself, comes before it; for a v that is no map with entries there is no such
      key, and the leaf is v at k. */
  lemma {:induction false} SetThenRead(cfg: Config, st: State, k: Path, v: Value, r: Path, leaf: Value, cand: Snapshot)
    requires Possible(cfg, st, SetLayer(true, map[k := Some(v)]), cand)
    requires Step(cfg, st, SetLayer(true, map[k := Some(v)]), cand).1
    requires LeafAt(v, r) == Some(leaf) && NoneDeeper(st.explicits, k, k + r) && k + r !in st.aliases
    ensures var after := Step(cfg, st, SetLayer(true, map[k := Some(v)]), cand).0;
      && after.snapshot == Some(cand) && k + r in cand.keys && Carries(cand, k + r, leaf, Explicit)
      && CodeRead(cand, k + r, ReadExact) == Some(WithSource(leaf, Explicit))
  {
    var op := SetLayer(true, map[k := Some(v)]);
    var after := Step(cfg, st, op, cand).0;
    SetLayerEffect(cfg, st, true, map[k := Some(v)], cand);
    assert k in op.values && op.values != map[];
    InstalledIsBuilt(cfg, st, op, cand);
    WrittenLeaf(st.explicits, after.explicits, k, v, r, leaf);
    OwnLeaf(InputsOf(cfg, after), after.explicits, k + r, |k|, leaf);
    ExplicitReads(InputsOf(cfg, after), cand, k + r, leaf);
    ExplicitIsListed(InputsOf(cfg, after), cand, k + r);
  }

  lemma {:induction false} UnsetIsNotExplicit(inp: Inputs, s: Snapshot, x: Path)
    requires Built(inp, s) && x in s.values && x !in inp.aliases && !ExplicitFor(inp, x)
    ensures !From(s, x, Explicit)
  {
    BuiltTag(inp, s, x);
  }

  lemma {:induction false} TagDoesNotShow(v: Value, l: Label)
    ensures Unwrap(WithSource(v, l)) == Unwrap(v)
  {}

  /** And it shows in the single-tree view, where the validator sees it, unless another explicit value lies
      below it: whatever the sources hold above or below its key. */
  lemma {:induction false} ExplicitInTree(inp: Inputs, s: Snapshot, q: Path, v: Value)
    requires Built(inp, s) && Carries(s, q, v, Explicit) && q in s.keys && q !in inp.aliases && q != [] && q != [[]]
    requires Below(q, [[]]) ==> [[]] !in s.keys
    requires forall x | Below(x, q) && x !in inp.aliases :: !ExplicitFor(inp, x)
    ensures At(AsMap(s), q) == Some(Unwrap(v))
  {
    BuiltFields(inp, s);
    forall x | x in s.keys && x !in s.aliases && Below(x, q) ensures !From(s, x, Explicit) {
      UnsetIsNotExplicit(inp, s, x);
    }
    ExplicitShows(s, q);
    TagDoesNotShow(v, Explicit);
  }

  /** After Set(k, v) has been accepted the validator was shown each leaf of v at its key. */
  lemma {:induction false} SetThenShows(cfg: Config, st: State, k: Path, v: Value, r: Path, leaf: Value,
                                        cand: Snapshot)
    requires Possible(cfg, st, SetLayer(true, map[k := Some(v)]), cand)
    requires Step(cfg, st, SetLayer(true, map[k := Some(v)]), cand).1
    requires LeafAt(v, r) == Some(leaf) && NoneDeeper(st.explicits, k, k + r) && k + r !in st.aliases
    requires k + r != [] && k + r != [[]] && (Below(k + r, [[]]) ==> [[]] !in cand.keys)
    requires var after := Step(cfg, st, SetLayer(true, map[k := Some(v)]), cand).0;
      forall x | Below(x, k + r) && x !in st.aliases :: !ExplicitFor(InputsOf(cfg, after), x)
    ensures At(AsMap(cand), k + r) == Some(Unwrap(leaf))
  {
    var op := SetLayer(true, map[k := Some(v)]);
    var after := Step(cfg, st, op, cand).0;
    SetThenRead(cfg, st, k, v, r, leaf, cand);
    SetLayerEffect(cfg, st, true, map[k := Some(v)], cand);
    assert k in op.values && op.values != map[];
    InstalledIsBuilt(cfg, st, op, cand);
    ExplicitInTree(InputsOf(cfg, after), cand, k + r, leaf);
  }

  // ---------------------------------------------------------------- defaults

  /** No value at a key above q holds an entry for q. */
  ghost predicate NoParentHolds(s: Snapshot, q: Path) {
    forall n | 0 < n < |q| :: Held(s, q, n).None?
  }

  lemma {:induction false} NoParents(s: Snapshot, q: Path)
    requires NoParentHolds(s, q)
    ensures FromParents(s, q).None? && !Yields(s, q)
  {
    if q != [] { ScanIsBest(Holds(s, q), RankAt(s, q), |q| - 1); }
  }

  lemma {:induction false} AssembleSome(s: Snapshot, keys: seq<Path>, drop: set<Path>, n: nat, k: Path)
    requires k in keys && k !in drop && k in s.values && |k| > n
    ensures Assemble(s, keys, drop, n) != map[]
  {
    var front, last := keys[..|keys| - 1], keys[|keys| - 1];
    assert keys == front + [last];
    if last == k {
      assert k[n..][0] in Assemble(s, keys, drop, n);
    } else {
      AssembleSome(s, front, drop, n, k);
      if !(last in drop || last !in s.values || |last| < n) && last[n..] != [] {
        assert last[n..][0] in Assemble(s, keys, drop, n);
      }
    }
  }

  /** A section is a map with entries. */
  lemma {:induction false} SectionIsNested(s: Snapshot, q: Path)
    requires Listed(s) && Subtree(s, q).Some?
    ensures Nested(Subtree(s, q).value)
  {
    var keys := SubtreeKeys(s, q);
    SubtreeKeysBelow(s, q);
    SomeoneStays(s, keys);
    var k :| k in keys && k !in Shadowed(s, keys);
    AssembleSome(s, keys, Shadowed(s, keys), |q|, k);
    var t := Assemble(s, keys, Shadowed(s, keys), |q|);
    var x :| x in t;
    assert x in NewValue(Dict(t)).data.entries;
  }

  lemma {:induction false} HolderIsNested(s: Snapshot, q: Path, n: nat)
    requires Regular(q) && 0 < n < |q| && Held(s, q, n).Some?
    ensures var a := Cut(q, n); a in s.values && Nested(s.values[a]) && Held(s, q, n).value.source == s.values[a].source
  {
    assert Rest(q, n) != [];
    assert Rest(q, n)[0] in s.values[Cut(q, n)].data.entries;
  }

  /** An entry inside a value at a key above comes from a source, and is tagged with it. */
  lemma {:induction false} ParentIsSource(inp: Inputs, s: Snapshot, q: Path, n: nat)
    requires Built(inp, s) && Regular(q) && 0 < n < |q| && Held(s, q, n).Some?
    ensures var a := Cut(q, n);
      && a in s.sources && s.sources[a] != [] && s.sources[a][0].Of?
      && Held(s, q, n).value.source == s.sources[a][0] && LayerLabel(inp.sources, s.sources[a][0])
  {
    HolderIsNested(s, q, n);
    BuiltTag(inp, s, Cut(q, n));
  }

  lemma {:induction false} ParentsTag(inp: Inputs, s: Snapshot, q: Path)
    requires Built(inp, s) && Regular(q) && FromParents(s, q).Some?
    ensures FromParents(s, q).value.source.Of?
  {
    ParentIsSource(inp, s, q, Best(s, q, |q| - 1).value);
  }

  /** The keys above q that hold an entry for it hold defaults. */
  ghost predicate OnlyDefaultsAbove(s: Snapshot, q: Path) {
    forall n | 0 < n < |q| && Held(s, q, n).Some? :: From(s, Cut(q, n), Default)
  }

  lemma {:induction false} HolderHasValue(s: Snapshot, q: Path, n: nat)
    requires 0 < n < |q| && Held(s, q, n).Some?
    ensures Cut(q, n) in s.values && Held(s, q, n).value.source == s.values[Cut(q, n)].source
  {}

  /** A key outranked by a is no higher than the defaults, so a is none of them; and whatever is none of them
      outranks a default. */
  lemma {:induction false} DefaultsRankLast(inp: Inputs, s: Snapshot, a: Path, q: Path)
    requires Built(inp, s) && a in s.values && q in s.values
    ensures RankOf(s, a) < RankOf(s, q) ==> s.values[a].source != Default
    ensures From(s, q, Default) ==> (RankOf(s, a) < RankOf(s, q) <==> !From(s, a, Default))
  {
    BuiltShape(inp, s);
    BuiltTag(inp, s, a);
    BuiltTag(inp, s, q);
    var l := s.sources[a][0];
    if i :| 0 <= i < |inp.sources| && l == Of(inp.sources[i].name) {
      assert Names(inp.sources)[i] == inp.sources[i].name;
    }
    RankBounds(s.sourceNames, l);
    RankBounds(s.sourceNames, s.sources[q][0]);
  }

  /** Where a parent outranks a key the read shows what it holds, and that is no default. */
  lemma {:induction false} YieldedIsNoDefault(inp: Inputs, s: Snapshot, q: Path)
    requires Built(inp, s) && q in s.values && Yields(s, q)
    ensures FromParents(s, q).Some? && FromParents(s, q).value.source != Default
  {
    YieldsIffBestWins(s, q);
    var n := Best(s, q, |q| - 1).value;
    HolderHasValue(s, q, n);
    DefaultsRankLast(inp, s, Cut(q, n), q);
  }

  lemma {:induction false} DefaultYieldsIff(inp: Inputs, s: Snapshot, q: Path)
    requires Built(inp, s) && q in s.values && From(s, q, Default)
    ensures Yields(s, q) <==> !OnlyDefaultsAbove(s, q)
  {
    forall n: nat | 0 < n < |q| && Held(s, q, n).Some? ensures ParentWins(s, q, n) <==> !From(s, Cut(q, n), Default) {
      HolderHasValue(s, q, n);
      DefaultsRankLast(inp, s, Cut(q, n), q);
    }
  }

  lemma {:induction false} LayerValueIsFlat(inp: Inputs, layer: Layer, k: Path, v: Value)
    requires LayerValue(inp, layer, k, v)
    ensures !Nested(v)
  {
    var x, n :| FirstSpelling(inp, k, (y: Path) => HasLeaf(layer, y), x) && LeafIs(layer, x, n, v);
    LeafIsFlat(layer[x[..n]], x[n..]);
  }

  /** A read of a regular key that gives a default was of the key's own value. */
  lemma {:induction false} DefaultIsOwn(inp: Inputs, s: Snapshot, q: Path, v: Value)
    requires Built(inp, s) && Regular(q) && q !in inp.aliases && !Nested(v)
    requires CodeRead(s, q, ReadExact) == Some(WithSource(v, Default))
    ensures q in s.values
  {
    BuiltShape(inp, s);
    if FromParents(s, q).Some? { ParentsTag(inp, s, q); }
    if q !in s.values && Subtree(s, q).Some? { SectionIsNested(s, q); }
  }

  lemma {:induction false} RegularAbove(inp: Inputs, s: Snapshot, q: Path)
    requires Built(inp, s) && Regular(q)
    ensures OnlyDefaultsAbove(s, q) <==> NoParentHolds(s, q)
  {
    forall n: nat | 0 < n < |q| && Held(s, q, n).Some? ensures !From(s, Cut(q, n), Default) {
      ParentIsSource(inp, s, q, n);
    }
  }

  lemma {:induction false} DefaultHeldIn(inp: Inputs, s: Snapshot, q: Path, v: Value)
    requires Built(inp, s) && q !in inp.aliases && LayerValue(inp, inp.defaults, q, v)
    requires !ExplicitFor(inp, q) && q !in inp.pins && !SomeSupplies(inp, q)
    ensures Carries(s, q, v, Default)
  {
    var order := OrderOf(inp, s);
    DefaultIsHeld(inp, order, q, v);
  }

  /** The read of a key with a value is either that value or what a parent that outranks it holds. */
  lemma {:induction false} OwnOrParents(inp: Inputs, s: Snapshot, q: Path)
    requires Built(inp, s) && q !in inp.aliases && q in s.values
    ensures Yields(s, q) ==> FromParents(s, q).Some?
    ensures CodeRead(s, q, ReadExact) == if Yields(s, q) then FromParents(s, q) else Some(s.values[q])
  {
    BuiltShape(inp, s);
    YieldsIffParentBest(s, q);
  }

  /** The read of a key with a value is tagged default exactly when the value is and nothing but defaults holds
      the key from above. */
  lemma {:induction false} DefaultTagRead(inp: Inputs, s: Snapshot, q: Path)
    requires Built(inp, s) && q !in inp.aliases && q in s.values
    ensures CodeRead(s, q, ReadExact).Some?
    ensures CodeRead(s, q, ReadExact).value.source == Default <==>
      s.values[q].source == Default && OnlyDefaultsAbove(s, q)
    ensures CodeRead(s, q, ReadExact).value.source == Default ==> CodeRead(s, q, ReadExact) == Some(s.values[q])
  {
    OwnOrParents(inp, s, q);
    BuiltTag(inp, s, q);
    if Yields(s, q) { YieldedIsNoDefault(inp, s, q); }
    if s.values[q].source == Default { DefaultYieldsIff(inp, s, q); }
  }

  /** A key's default is what an exact read of it gives exactly when no explicit value, pin or source speaks
      for the key and no key above it holds it from a layer other than the defaults. Regular keys have a value
      whenever the read gives that default, and no default above them holds them. */
  lemma {:induction false} DefaultReadIff(inp: Inputs, s: Snapshot, q: Path, v: Value)
    requires Built(inp, s) && q !in inp.aliases && LayerValue(inp, inp.defaults, q, v)
    ensures q in s.values && CodeRead(s, q, ReadExact) == Some(WithSource(v, Default)) <==>
      !ExplicitFor(inp, q) && q !in inp.pins && !SomeSupplies(inp, q) && OnlyDefaultsAbove(s, q)
    ensures Regular(q) ==>
      && (CodeRead(s, q, ReadExact) == Some(WithSource(v, Default)) ==> q in s.values)
      && (OnlyDefaultsAbove(s, q) <==> NoParentHolds(s, q))
  {
    if !ExplicitFor(inp, q) && q !in inp.pins && !SomeSupplies(inp, q) {
      DefaultHeldIn(inp, s, q, v);
    }
    if q in s.values {
      DefaultTagRead(inp, s, q);
      BuiltTag(inp, s, q);
    }
    if Regular(q) {
      RegularAbove(inp, s, q);
      LayerValueIsFlat(inp, inp.defaults, q, v);
      if CodeRead(s, q, ReadExact) == Some(WithSource(v, Default)) { DefaultIsOwn(inp, s, q, v); }
    }
  }

  /** So after SetDefault(k, v) has been accepted, a leaf of v is read, tagged default, exactly under that
      condition. */
  lemma {:induction false} SetDefaultThenRead(cfg: Config, st: State, k: Path, v: Value, r: Path, leaf: Value,
                                              cand: Snapshot)
    requires Possible(cfg, st, SetLayer(false, map[k := Some(v)]), cand)
    requires Step(cfg, st, SetLayer(false, map[k := Some(v)]), cand).1
    requires LeafAt(v, r) == Some(leaf) && NoneDeeper(st.defaults, k, k + r) && k + r !in st.aliases
    ensures var after, q := Step(cfg, st, SetLayer(false, map[k := Some(v)]), cand).0, k + r;
      var inp, read := InputsOf(cfg, after), CodeRead(cand, q, ReadExact) == Some(WithSource(leaf, Default));
      && after.snapshot == Some(cand)
      && (q in cand.values && read <==>
            !ExplicitFor(inp, q) && q !in st.pins && !SomeSupplies(inp, q) && OnlyDefaultsAbove(cand, q))
      && (Regular(q) ==> (read ==> q in cand.values) && (OnlyDefaultsAbove(cand, q) <==> NoParentHolds(cand, q)))
  {
    var op := SetLayer(false, map[k := Some(v)]);
    var after := Step(cfg, st, op, cand).0;
    SetLayerEffect(cfg, st, false, map[k := Some(v)], cand);
    assert k in op.values && op.values != map[];
    InstalledIsBuilt(cfg, st, op, cand);
    WrittenLeaf(st.defaults, after.defaults, k, v, r, leaf);
    OwnLeaf(InputsOf(cfg, after), after.defaults, k + r, |k|, leaf);
    DefaultReadIff(InputsOf(cfg, after), cand, k + r, leaf);
  }

  // ---------------------------------------------------------------- pins, aliases, sources and bound paths

  lemma {:induction false} PinnedHeldIn(inp: Inputs, s: Snapshot, k: Path, i: nat, v: Value)
    requires Built(inp, s) && DistinctNames(inp.sources) && k !in inp.aliases && AskedFor(inp, k)
    requires !ExplicitFor(inp, k) && k in inp.pins && i < |inp.sources| && inp.sources[i].name == inp.pins[k]
    ensures SuppliesValue(inp, inp.sources[i], k, v) ==> Carries(s, k, v, Of(inp.pins[k]))
    ensures !Supplies(inp, inp.sources[i], k) ==> k !in s.values
  {
    var order := OrderOf(inp, s);
    if SuppliesValue(inp, inp.sources[i], k, v) { PinnedIsHeld(inp, order, k, i, v); }
    if !Supplies(inp, inp.sources[i], k) {
      forall j | 0 <= j < |inp.sources| && inp.sources[j].name == inp.pins[k] ensures i == j {}
      PinnedIsAbsent(inp, order, k);
    }
  }

  /** After a key has been pinned, and with no explicit value for it, it reads as what the source of that name
      supplies, or as nothing of its own if that supplies nothing, whatever the other sources and the defaults
      say. */
  lemma {:induction false} PinThenRead(cfg: Config, st: State, k: Path, name: Bytes, cand: Snapshot, i: nat, v: Value)
    requires Possible(cfg, st, Op.PinSource(k, name), cand) && Step(cfg, st, Op.PinSource(k, name), cand).1
    requires DistinctNames(st.sources) && i < |st.sources| && st.sources[i].name == name && k !in st.aliases
    requires var inp := InputsOf(cfg, Step(cfg, st, Op.PinSource(k, name), cand).0);
      AskedFor(inp, k) && !ExplicitFor(inp, k)
    ensures var inp := InputsOf(cfg, Step(cfg, st, Op.PinSource(k, name), cand).0);
      && (SuppliesValue(inp, st.sources[i], k, v) ==>
            && Carries(cand, k, v, Of(name))
            && (NoParentHolds(cand, k) ==> CodeRead(cand, k, ReadExact) == Some(WithSource(v, Of(name)))))
      && (!Supplies(inp, st.sources[i], k) ==>
            && k !in cand.values
            && (NoParentHolds(cand, k) ==> CodeRead(cand, k, ReadExact) == Subtree(cand, k)))
  {
    var op := Op.PinSource(k, name);
    var after := Step(cfg, st, op, cand).0;
    PinEffect(cfg, st, k, name, cand);
    InstalledIsBuilt(cfg, st, op, cand);
    assert Entry(after.pins, k) == Some(name);
    PinnedHeldIn(InputsOf(cfg, after), cand, k, i, v);
    PlainExactRead(InputsOf(cfg, after), cand, k);
  }

  /** Where no parent holds an entry, an exact read gives the key's own value, or the section. */
  lemma {:induction false} PlainExactRead(inp: Inputs, s: Snapshot, k: Path)
    requires Built(inp, s) && k !in inp.aliases
    ensures NoParentHolds(s, k) ==>
      CodeRead(s, k, ReadExact) == if k in s.values then Some(s.values[k]) else Subtree(s, k)
  {
    BuiltShape(inp, s);
    if NoParentHolds(s, k) { NoParents(s, k); }
  }

  /** After an alias has been registered it reads, in every mode, as the end of the canonical key's chain,
      if that has a value. */
  lemma {:induction false} AliasThenRead(cfg: Config, st: State, a: Path, c: Path, cand: Snapshot, mode: ReadMode)
    requires Possible(cfg, st, Op.RegisterAlias(a, c), cand) && Step(cfg, st, Op.RegisterAlias(a, c), cand).1
    ensures var e := Target(st.aliases, c);
      && Step(cfg, st, Op.RegisterAlias(a, c), cand).0.snapshot == Some(cand)
      && (e in cand.values ==> CodeRead(cand, a, mode) == CodeRead(cand, e, mode))
  {
    var op := Op.RegisterAlias(a, c);
    var after, e := Step(cfg, st, op, cand).0, Target(st.aliases, c);
    AliasEffect(cfg, st, a, c, cand);
    InstalledIsBuilt(cfg, st, op, cand);
    assert Entry(after.aliases, a) == Some(c);
    if e in cand.values { AliasReads(InputsOf(cfg, after), cand, a, mode); }
  }

  lemma {:induction false} AliasReads(inp: Inputs, s: Snapshot, a: Path, mode: ReadMode)
    requires Built(inp, s) && a in inp.aliases && Target(inp.aliases, a) !in inp.aliases
    requires Target(inp.aliases, a) in s.values
    ensures CodeRead(s, a, mode) == CodeRead(s, Target(inp.aliases, a), mode)
  {
    var order := OrderOf(inp, s);
    BuildMeaning(inp, order, a);
    BuildAgrees(inp, order, a);
    AliasReadsAsTarget(s, a, mode);
  }

  /** After bound paths have been added and a source holds one that is new, the installed snapshot holds every
      bound path, new or old, that some source answers and that is no alias and not pinned. */
  lemma {:induction false} AddBoundThenHeld(cfg: Config, st: State, paths: seq<Path>, cand: Snapshot, p: Path, i: nat)
    requires Possible(cfg, st, Op.AddBound(paths), cand) && Step(cfg, st, Op.AddBound(paths), cand).1
    requires NewlyHeld(st, paths) && DistinctNames(st.sources) && (p in paths || p in st.bound)
    requires p !in st.aliases && p !in st.pins && i < |st.sources| && st.sources[i].get(p).Hit?
    ensures var after := Step(cfg, st, Op.AddBound(paths), cand).0;
      var inp := InputsOf(cfg, after);
      && after.snapshot == Some(cand) && after.rebuilds == st.rebuilds + 1 && p in cand.values
      && (&& cfg.merge.MergeShadow? && !ExplicitFor(inp, p)
          && (forall j | 0 <= j < i :: !Supplies(inp, st.sources[j], p)) ==>
               Carries(cand, p, st.sources[i].get(p).value, Of(st.sources[i].name)))
  {
    var op := Op.AddBound(paths);
    AddBoundEffect(cfg, st, paths, cand);
    InstalledIsBuilt(cfg, st, op, cand);
    var inp := InputsOf(cfg, Step(cfg, st, op, cand).0);
    var order := OrderOf(inp, cand);
    BoundPathIsHeld(inp, order, p, i);
  }

  /** After a source has been removed no value of the installed snapshot comes from it. */
  lemma {:induction false} RemoveThenGone(cfg: Config, st: State, name: Bytes, cand: Snapshot, k: Path)
    requires Possible(cfg, st, Op.RemoveSource(name), cand) && Step(cfg, st, Op.RemoveSource(name), cand).1
    requires DistinctNames(st.sources) && HasSource(st.sources, name) && k in cand.values
    ensures Step(cfg, st, Op.RemoveSource(name), cand).0.snapshot == Some(cand)
    ensures !From(cand, k, Of(name)) && cand.values[k].source != Of(name)
  {
    var op := Op.RemoveSource(name);
    var after := Step(cfg, st, op, cand).0;
    RemoveEffect(cfg, st, name, cand);
    InstalledIsBuilt(cfg, st, op, cand);
    BuiltTag(InputsOf(cfg, after), cand, k);
    assert forall i | 0 <= i < |after.sources| :: after.sources[i] in after.sources;
  }

  /** After a source has been inserted in front, every key it lists and answers, unless it is an alias or
      pinned or has an explicit value, holds what the new source supplies. */
  lemma {:induction false} InsertThenHeld(cfg: Config, st: State, at: int, src: Source, cand: Snapshot,
                                          k: Path, v: Value)
    requires Possible(cfg, st, Op.InsertSource(at, src), cand) && Step(cfg, st, Op.InsertSource(at, src), cand).1
    requires at <= 0 && cfg.merge.MergeShadow? && k in src.keys && src.get(k) == Hit(v)
    requires k !in st.aliases && k !in st.pins
    requires !ExplicitFor(InputsOf(cfg, Step(cfg, st, Op.InsertSource(at, src), cand).0), k)
    ensures Step(cfg, st, Op.InsertSource(at, src), cand).0.snapshot == Some(cand)
    ensures Carries(cand, k, v, Of(src.name))
  {
    var op := Op.InsertSource(at, src);
    InsertEffect(cfg, st, at, src, cand);
    InstalledIsBuilt(cfg, st, op, cand);
    var inp := InputsOf(cfg, Step(cfg, st, op, cand).0);
    var order := OrderOf(inp, cand);
    assert inp.sources[0] == src && Spells(inp, k, k) && Mentioned(inp, k);
    assert FirstSpelling(inp, k, (y: Path) => src.get(y).Hit?, k);
    FirstSourceIsHeld(inp, order, k, 0, v);
  }
}
