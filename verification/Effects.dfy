/** What each operation of the registry does to its fields, entry by entry, and what it leaves alone
    (registry.go, registry_set.go, registry_bind.go, registry_describe.go). */
module Effects {
  import opened Paths
  import opened Values
  import opened Aliases
  import opened Layers
  import opened Precedence
  import opened Snapshots
  import opened Views
  import opened Registry

  /** What a rebuild asks of its candidate: every baselined path still reads an equal value, and the
      validator accepts the view. */
  ghost predicate Passes(cfg: Config, st: State, cand: Snapshot) {
    && (forall p | p in st.baselines :: Honours(cand, p, st.baselines[p]))
    && cfg.accepts(AsMap(cand))
  }

  /** after has cand installed, and the fields that no rebuild touches are as before. */
  ghost predicate Rebuilt(before: State, after: State, cand: Snapshot) {
    && after.snapshot == Some(cand) && after.rebuilds == before.rebuilds + 1
    && after.builtFrom == after.sources && after.builtBound == after.bound
    && after.secretKeys == before.secretKeys && after.baselines == before.baselines && after.closed == before.closed
  }

  /** The operation rebuilds: it succeeds exactly when the candidate passes, and otherwise nothing changes. */
  ghost predicate Attempted(cfg: Config, st: State, cand: Snapshot, r: (State, bool)) {
    && (r.1 <==> Passes(cfg, st, cand))
    && (if r.1 then Rebuilt(st, r.0, cand) else r.0 == st)
  }

  ghost predicate OnlyLayers(a: State, b: State) {
    a.sources == b.sources && a.bound == b.bound && a.aliases == b.aliases && a.pins == b.pins
  }

  ghost predicate OnlyNames(a: State, b: State) {
    a.sources == b.sources && a.bound == b.bound && a.explicits == b.explicits && a.defaults == b.defaults
  }

  ghost predicate OnlySources(a: State, b: State) {
    a.explicits == b.explicits && a.defaults == b.defaults && a.aliases == b.aliases && a.pins == b.pins
  }

  /** k holds v in after, or nothing if v is None, and every other key what it held before. */
  ghost predicate Changed<V>(before: map<Path, V>, after: map<Path, V>, k: Path, v: Option<V>) {
    Entry(after, k) == v && forall x | x != k :: Entry(after, x) == Entry(before, x)
  }

  /** Each of the given keys holds its value, or nothing where that is None; the others hold what they did. */
  ghost predicate AllChanged<V>(before: map<Path, V>, after: map<Path, V>, vs: map<Path, Option<V>>) {
    forall x :: Entry(after, x) == if x in vs then vs[x] else Entry(before, x)
  }

  lemma {:induction false} Attempts(cfg: Config, st: State, op: Op, next: State, cand: Snapshot)
    requires PlanOf(cfg, st, op) == Plan.Rebuild(next)
    requires next.baselines == st.baselines && next.secretKeys == st.secretKeys
    requires next.rebuilds == st.rebuilds && next.closed == st.closed
    ensures Attempted(cfg, st, cand, Step(cfg, st, op, cand))
    ensures Step(cfg, st, op, cand).1 ==> Step(cfg, st, op, cand).0 == Install(next, cand)
  {}

  // ---------------------------------------------------------------- the layers

  lemma {:induction false} PutAllIs(layer: Layer, vs: map<Path, Option<Value>>)
    ensures AllChanged(layer, PutAll(layer, vs), vs)
  {}

  /** Set, SetDefault and their many-key forms: refused on a closed registry; nothing to do for no keys;
      otherwise a rebuild after which the chosen layer, and only that, holds the given values. */
  lemma {:induction false} SetLayerEffect(cfg: Config, st: State, explicit: bool, vs: map<Path, Option<Value>>,
                                          cand: Snapshot)
    ensures var r := Step(cfg, st, SetLayer(explicit, vs), cand);
      if st.closed then r == (st, false)
      else if vs == map[] then r == (st, true)
      else
        && Attempted(cfg, st, cand, r)
        && (r.1 && explicit ==>
              OnlyLayers(st, r.0) && AllChanged(st.explicits, r.0.explicits, vs) && r.0.defaults == st.defaults)
        && (r.1 && !explicit ==>
              OnlyLayers(st, r.0) && AllChanged(st.defaults, r.0.defaults, vs) && r.0.explicits == st.explicits)
  {
    if !st.closed && vs != map[] {
      var next :=
        if explicit then st.(explicits := PutAll(st.explicits, vs)) else st.(defaults := PutAll(st.defaults, vs));
      Attempts(cfg, st, SetLayer(explicit, vs), next, cand);
      PutAllIs(if explicit then st.explicits else st.defaults, vs);
    }
  }

  /** Clearing an explicit value; a key without one is left alone. */
  lemma {:induction false} UnsetEffect(cfg: Config, st: State, k: Path, cand: Snapshot)
    ensures var r := Step(cfg, st, Op.Unset(k), cand);
      if st.closed then r == (st, false)
      else if k !in st.explicits then r == (st, true)
      else
        && Attempted(cfg, st, cand, r)
        && (r.1 ==>
              OnlyLayers(st, r.0) && Changed(st.explicits, r.0.explicits, k, None) && r.0.defaults == st.defaults)
  {
    if !st.closed && k in st.explicits {
      Attempts(cfg, st, Op.Unset(k), st.(explicits := st.explicits - {k}), cand);
    }
  }

  // ---------------------------------------------------------------- aliases and pins

  /** Registering an alias: refused when the canonical key's chain meets the alias or has more than 31 links;
      otherwise the one link is set, and in the new graph both resolve to the end of the canonical's chain. */
  lemma {:induction false} AliasEffect(cfg: Config, st: State, a: Path, c: Path, cand: Snapshot)
    ensures var r := Step(cfg, st, Op.RegisterAlias(a, c), cand);
      if st.closed || !Acceptable(st.aliases, a, c) then r == (st, false)
      else
        && Attempted(cfg, st, cand, r)
        && (r.1 ==>
             && OnlyNames(st, r.0) && r.0.pins == st.pins && Changed(st.aliases, r.0.aliases, a, Some(c))
             && Target(r.0.aliases, a) == Target(r.0.aliases, c) == Target(st.aliases, c)
             && Target(r.0.aliases, a) !in r.0.aliases)
  {
    if !st.closed && Acceptable(st.aliases, a, c) {
      Attempts(cfg, st, Op.RegisterAlias(a, c), st.(aliases := st.aliases[a := c]), cand);
      AliasResolves(st.aliases, a, c);
    }
  }

  lemma {:induction false} SameResolve<K>(g: Graph<K>, alias: K, canonical: K, k: K, n: nat, budget: nat)
    requires Ends(g, k, n) && Avoids(g, alias, k, n)
    ensures Resolve(g[alias := canonical], k, budget) == Resolve(g, k, budget)
    decreases n
  {
    if n > 0 && budget > 0 { SameResolve(g, alias, canonical, g[k], n - 1, budget - 1); }
  }

  lemma {:induction false} EndedResolve<K>(g: Graph<K>, k: K, n: nat, more: nat)
    requires Ends(g, k, n)
    ensures Resolve(g, k, n + more) == Resolve(g, k, n) && Resolve(g, k, n) !in g
    decreases n
  {
    if n > 0 { EndedResolve(g, g[k], n - 1, more); }
  }

  lemma {:induction false} AliasResolves<K>(g: Graph<K>, a: K, c: K)
    requires Acceptable(g, a, c)
    ensures var g' := g[a := c]; Target(g', a) == Target(g', c) == Target(g, c) && Target(g', a) !in g'
  {
    var n: nat :| n < MAX_ALIAS_DEPTH && Ends(g, c, n) && Avoids(g, a, c, n);
    UnchangedChain(g, a, c, c, n);
    SameResolve(g, a, c, c, n, MAX_ALIAS_DEPTH);
    EndedResolve(g[a := c], c, n, MAX_ALIAS_DEPTH - 1 - n);
    EndedResolve(g[a := c], c, n, MAX_ALIAS_DEPTH - n);
  }

  /** Pinning a key to a registered source; an unknown name is refused. */
  lemma {:induction false} PinEffect(cfg: Config, st: State, k: Path, name: Bytes, cand: Snapshot)
    ensures var r := Step(cfg, st, Op.PinSource(k, name), cand);
      if st.closed || !HasSource(st.sources, name) then r == (st, false)
      else
        && Attempted(cfg, st, cand, r)
        && (r.1 ==> OnlyNames(st, r.0) && r.0.aliases == st.aliases && Changed(st.pins, r.0.pins, k, Some(name)))
  {
    if !st.closed && HasSource(st.sources, name) {
      Attempts(cfg, st, Op.PinSource(k, name), st.(pins := st.pins[k := name]), cand);
    }
  }

  lemma {:induction false} UnpinEffect(cfg: Config, st: State, k: Path, cand: Snapshot)
    ensures var r := Step(cfg, st, Op.Unpin(k), cand);
      if st.closed then r == (st, false)
      else if k !in st.pins then r == (st, true)
      else
        && Attempted(cfg, st, cand, r)
        && (r.1 ==> OnlyNames(st, r.0) && r.0.aliases == st.aliases && Changed(st.pins, r.0.pins, k, None))
  {
    if !st.closed && k in st.pins { Attempts(cfg, st, Op.Unpin(k), st.(pins := st.pins - {k}), cand); }
  }

  // ---------------------------------------------------------------- sources

  /** The i-th source of after is s, with those before it in front and the others behind. */
  ghost predicate Inserted(before: seq<Source>, after: seq<Source>, i: nat, s: Source) {
    && i <= |before| && |after| == |before| + 1 && after[i] == s
    && (forall j | 0 <= j < i :: after[j] == before[j])
    && (forall j | i <= j < |before| :: after[j + 1] == before[j])
  }

  lemma {:induction false} InsertedIs(sources: seq<Source>, i: nat, s: Source)
    requires i <= |sources|
    ensures Inserted(sources, InsertAt(sources, i, s), i, s)
  {}

  lemma {:induction false} RemovedIs(sources: seq<Source>, i: nat)
    requires i < |sources|
    ensures Inserted(RemoveAt(sources, i), sources, i, sources[i])
    ensures DistinctNames(sources) ==> forall s | s in RemoveAt(sources, i) :: s.name != sources[i].name
  {}

  /** Inserting a source: refused for a name that is empty, reserved or taken; otherwise it stands at the
      asked index, or at the nearer end when that is out of range. */
  lemma {:induction false} InsertEffect(cfg: Config, st: State, at: int, s: Source, cand: Snapshot)
    ensures var r, n := Step(cfg, st, Op.InsertSource(at, s), cand), |st.sources|;
      if st.closed || s.name == [] || s.name in {EXPLICIT_NAME, DEFAULT_NAME} || HasSource(st.sources, s.name)
      then r == (st, false)
      else
        && Attempted(cfg, st, cand, r)
        && (r.1 ==>
             && OnlySources(st, r.0) && r.0.bound == st.bound
             && Inserted(st.sources, r.0.sources, if at < 0 then 0 else if at < n then at else n, s))
  {
    var i := if at < 0 then 0 else if at < |st.sources| then at else |st.sources|;
    if !st.closed && NameFree(st.sources, s.name) {
      Attempts(cfg, st, Op.InsertSource(at, s), st.(sources := InsertAt(st.sources, i, s)), cand);
      InsertedIs(st.sources, i, s);
    }
  }

  /** after is before without one source of the name, the others in their order. */
  ghost predicate Removed(before: seq<Source>, after: seq<Source>, name: Bytes) {
    && (exists i :: 0 <= i < |before| && before[i].name == name && Inserted(after, before, i, before[i]))
    && (DistinctNames(before) ==> forall s | s in after :: s.name != name)
  }

  /** Removing a source; with distinct names its name is gone. */
  lemma {:induction false} RemoveEffect(cfg: Config, st: State, name: Bytes, cand: Snapshot)
    ensures var r := Step(cfg, st, Op.RemoveSource(name), cand);
      if st.closed then r == (st, false)
      else if !HasSource(st.sources, name) then r == (st, true)
      else
        && Attempted(cfg, st, cand, r)
        && (r.1 ==> OnlySources(st, r.0) && r.0.bound == st.bound && Removed(st.sources, r.0.sources, name))
  {
    var i := FirstNamed(st.sources, name);
    if !st.closed && HasSource(st.sources, name) {
      Attempts(cfg, st, Op.RemoveSource(name), st.(sources := RemoveAt(st.sources, i)), cand);
      RemovedIs(st.sources, i);
    }
  }

  /** A reload rebuilds from what is there. */
  lemma {:induction false} ReloadEffect(cfg: Config, st: State, cand: Snapshot)
    ensures var r := Step(cfg, st, Op.Reload, cand);
      if st.closed then r == (st, false)
      else Attempted(cfg, st, cand, r) && (r.1 ==> OnlyLayers(st, r.0) && OnlyNames(st, r.0))
  {
    if !st.closed { Attempts(cfg, st, Op.Reload, st, cand); }
  }

  /** Some source answers one of the paths that is not bound yet. */
  ghost predicate NewlyHeld(st: State, paths: seq<Path>) {
    exists i, p :: 0 <= i < |st.sources| && p in paths && p !in st.bound && st.sources[i].get(p).Hit?
  }

  lemma {:induction false} NewlyHeldIff(st: State, paths: seq<Path>)
    ensures NewlyHeld(st, paths) <==> AnySourceHas(st.sources, (set p | p in paths) - st.bound)
  {
    var added := (set p | p in paths) - st.bound;
    if i, p :| 0 <= i < |st.sources| && p in paths && p !in st.bound && st.sources[i].get(p).Hit? {
      assert p in added;
    }
  }

  /** Remembering bound paths: a rebuild only where some source holds a new one, and a refused rebuild
      forgets them. */
  lemma {:induction false} AddBoundEffect(cfg: Config, st: State, paths: seq<Path>, cand: Snapshot)
    ensures var r, grown := Step(cfg, st, Op.AddBound(paths), cand), st.bound + set p | p in paths;
      if NewlyHeld(st, paths)
      then Attempted(cfg, st, cand, r)
        && (r.1 ==> OnlySources(st, r.0) && r.0.sources == st.sources && r.0.bound == grown)
      else r == (st.(bound := grown), true)
  {
    var added := (set p | p in paths) - st.bound;
    assert st.bound + added == st.bound + set p | p in paths;
    NewlyHeldIff(st, paths);
    if NewlyHeld(st, paths) {
      assert added != {};
      Attempts(cfg, st, Op.AddBound(paths), st.(bound := st.bound + added), cand);
    } else if added == {} {
      assert st.bound + {} == st.bound;
    }
  }

  // ---------------------------------------------------------------- what needs no rebuild

  /** The secret set grows, in the registry and in the installed snapshot alike. */
  lemma {:induction false} SecretsEffect(cfg: Config, st: State, keys: set<Path>, cand: Snapshot)
    ensures var r, more := Step(cfg, st, Op.MarkSecrets(keys), cand), st.secretKeys + keys;
      && r.1
      && (st.closed || keys <= st.secretKeys ==> r.0 == st)
      && (!st.closed && !(keys <= st.secretKeys) ==>
           && r.0 == st.(secretKeys := more, snapshot := r.0.snapshot)
           && (st.snapshot.None? <==> r.0.snapshot.None?)
           && (st.snapshot.Some? ==> r.0.snapshot.value == st.snapshot.value.(secretKeys := more)))
  {}

  /** A baseline that is not there yet is recorded; one that is there stays, and the root has none. */
  lemma {:induction false} BaselineEffect(cfg: Config, st: State, p: Path, v: Value, cand: Snapshot)
    ensures var r, now := Step(cfg, st, Op.MarkImmutable(p, v), cand), Entry(st.baselines, p);
      && r.1 && r.0 == st.(baselines := r.0.baselines)
      && Changed(st.baselines, r.0.baselines, p, if p == [] || now.Some? then now else Some(v))
  {}

  /** A closed registry refuses every later write. */
  lemma {:induction false} CloseEffect(cfg: Config, st: State, op: Op, cand: Snapshot, cand': Snapshot)
    ensures Step(cfg, st, Op.Close, cand) == (st.(closed := true), true)
    ensures !(op.MarkImmutable? || op.AddBound? || op.MarkSecrets? || op.SourcesChange? || op.Close?) ==>
      Step(cfg, st.(closed := true), op, cand') == (st.(closed := true), false)
  {}
}
