/** The registry's methods: each mutates its fields, rebuilds, and restores what it changed when the
    rebuild is refused. Each is shown to be one atomic step of the state machine. */
module RegistryObject {
  import opened Paths
  import opened Values
  import opened Aliases
  import opened Layers
  import opened Precedence
  import opened Snapshots
  import opened Views
  import opened SnapshotBuild
  import opened Registry
  import opened Effects

  /** A call went from before to after with result ok, exactly as the step for op says. */
  ghost predicate Did(cfg: Config, before: State, op: Op, cand: Snapshot, after: State, ok: bool) {
    Possible(cfg, before, op, cand) && Step(cfg, before, op, cand) == (after, ok)
  }

  lemma {:induction false} RebuildDid(cfg: Config, before: State, op: Op, next: State, cand: Snapshot, ok: bool)
    requires PlanOf(cfg, before, op) == Plan.Rebuild(next) && Built(InputsOf(cfg, next), cand)
    requires ok <==> Accepts(cfg, next, cand)
    ensures Did(cfg, before, op, cand, if ok then Install(next, cand) else before, ok)
  {}

  ghost const NO_SNAPSHOT: Snapshot := Snapshot(map[], map[], [], [], {}, {}, [], map[], {})

  /** The restore helpers: they put back the Entry that a write remembered. */
  function Restore<V>(m: map<Path, V>, k: Path, prev: Option<V>): map<Path, V> {
    if prev.Some? then m[k := prev.value] else m - {k}
  }

  function Put<V>(m: map<Path, V>, k: Path, v: Option<V>): map<Path, V> {
    if v.Some? then m[k := v.value] else m - {k}
  }

  lemma {:induction false} RestoreUndoesPut<V>(m: map<Path, V>, k: Path, v: Option<V>)
    ensures Restore(Put(m, k, v), k, Entry(m, k)) == m
  {}

  lemma {:induction false} PutIsPutAll(m: Layer, k: Path, v: Option<Value>)
    ensures Put(m, k, v) == PutAll(m, map[k := v])
  {}

  lemma {:induction false} PutChanges(m: Layer, k: Path, v: Option<Value>)
    ensures Changed(m, Put(m, k, v), k, v)
  {}

  function Outside(values: map<Path, Option<Value>>, todo: set<Path>): map<Path, Option<Value>> {
    map k | k in values && k !in todo :: values[k]
  }

  lemma {:induction false} NothingWritten(m: Layer, values: map<Path, Option<Value>>)
    ensures PutAll(m, Outside(values, values.Keys)) == m
  {}

  lemma {:induction false} OneMoreWritten(m: Layer, values: map<Path, Option<Value>>, todo: set<Path>, k: Path)
    requires k in todo && k in values
    ensures PutAll(m, Outside(values, todo - {k})) == Put(PutAll(m, Outside(values, todo)), k, values[k])
  {}

  lemma {:induction false} InsertRemove(sources: seq<Source>, at: nat, s: Source)
    requires at <= |sources|
    ensures RemoveAt(InsertAt(sources, at, s), at) == sources
  {}

  lemma {:induction false} RemoveInsert(sources: seq<Source>, at: nat)
    requires at < |sources|
    ensures InsertAt(RemoveAt(sources, at), at, sources[at]) == sources
  {}

  class RegistryState {
    const cfg: Config
    var sources: seq<Source>
    var explicits: Layer
    var defaults: Layer
    var aliases: Graph<Path>
    var pins: map<Path, Bytes>
    var bound: set<Path>
    var secretKeys: set<Path>
    var baselines: map<Path, Value>
    var snapshot: Option<Snapshot>
    var closed: bool
    ghost var builtFrom: seq<Source>
    ghost var builtBound: set<Path>
    ghost var rebuilds: nat

    ghost function View(): State
      reads this
    {
      State(sources, explicits, defaults, aliases, pins, bound, secretKeys, baselines, snapshot, closed,
            builtFrom, builtBound, rebuilds)
    }

    ghost predicate Valid()
      reads this
    {
      Inv(cfg, View())
    }

    constructor (cfg: Config, initial: seq<Source>)
      requires ProperNames(initial)
      ensures Valid() && this.cfg == cfg && View() == Initial(initial)
    {
      this.cfg := cfg;
      sources, explicits, defaults, aliases, pins := initial, map[], map[], map[], map[];
      bound, secretKeys, baselines, snapshot, closed := {}, {}, map[], None, false;
      builtFrom, builtBound, rebuilds := [], {}, 0;
      new;
      forall k ensures Ending(aliases, k) { assert Ends(aliases, k, 0); }
    }

    /** checkImmutableLocked: is every baselined path still read with an equal value? */
    method CheckImmutable(cand: Snapshot) returns (ok: bool)
      requires Listed(cand)
      ensures ok <==> HonoursAll(cand, baselines)
    {
      ok := true;
      var todo := baselines.Keys;
      while todo != {}
        invariant todo <= baselines.Keys
        invariant ok <==> forall p | p in baselines && p !in todo :: Honours(cand, p, baselines[p])
        decreases |todo|
      {
        var p :| p in todo;
        var cur := Read(cand, p, BaselineMode(baselines[p]));
        if cur.None? || !ValuesEqual(baselines[p], cur.value) { ok := false; }
        todo := todo - {p};
      }
    }

    method Candidate() returns (cand: Snapshot)
      requires ProperNames(sources)
      ensures Built(InputsOf(cfg, View()), cand) && Listed(cand)
    {
      cand := BuildSnapshot(Inputs(sources, explicits, defaults, aliases, pins, bound, secretKeys, cfg.merge));
    }

    /** rebuildCandidateLocked: builds, checks, and installs only on success. */
    method RebuildSnapshot() returns (ok: bool, cand: Snapshot)
      requires ProperNames(sources)
      modifies this`snapshot, this`builtFrom, this`builtBound, this`rebuilds
      ensures Built(InputsOf(cfg, old(View())), cand)
      ensures ok <==> Accepts(cfg, old(View()), cand)
      ensures View() == if ok then Install(old(View()), cand) else old(View())
    {
      cand := Candidate();
      var honoured := CheckImmutable(cand);
      var tree := AsMapTree(cand);
      ok := honoured && cfg.accepts(tree);
      if ok {
        snapshot := Some(cand);
        builtFrom, builtBound, rebuilds := sources, bound, rebuilds + 1;
      }
    }

    method Reload() returns (ok: bool, ghost cand: Snapshot)
      requires Valid()
      modifies this
      ensures Did(cfg, old(View()), Op.Reload, cand, View(), ok)
    {
      if closed { return false, NO_SNAPSHOT; }
      ghost var before := View();
      ok, cand := RebuildSnapshot();
      RebuildDid(cfg, before, Op.Reload, before, cand, ok);
    }

    /** Set, with None for nil. */
    method Set(k: Path, v: Option<Value>) returns (ok: bool, ghost cand: Snapshot)
      requires Valid()
      modifies this
      ensures Did(cfg, old(View()), SetLayer(true, map[k := v]), cand, View(), ok)
      ensures ok ==> OnlyLayers(old(View()), View()) && Changed(old(explicits), explicits, k, v)
      ensures defaults == old(defaults)
      ensures !ok ==> View() == old(View())
    {
      if closed { return false, NO_SNAPSHOT; }
      var prev := Entry(explicits, k);
      PutIsPutAll(explicits, k, v);
      PutChanges(explicits, k, v);
      RestoreUndoesPut(explicits, k, v);
      explicits := Put(explicits, k, v);
      ok, cand := RebuildSnapshot();
      if !ok { explicits := Restore(explicits, k, prev); }
    }

    method SetDefault(k: Path, v: Option<Value>) returns (ok: bool, ghost cand: Snapshot)
      requires Valid()
      modifies this
      ensures Did(cfg, old(View()), SetLayer(false, map[k := v]), cand, View(), ok)
      ensures ok ==> OnlyLayers(old(View()), View()) && Changed(old(defaults), defaults, k, v)
      ensures explicits == old(explicits)
      ensures !ok ==> View() == old(View())
    {
      if closed { return false, NO_SNAPSHOT; }
      var prev := Entry(defaults, k);
      PutIsPutAll(defaults, k, v);
      PutChanges(defaults, k, v);
      RestoreUndoesPut(defaults, k, v);
      defaults := Put(defaults, k, v);
      ok, cand := RebuildSnapshot();
      if !ok { defaults := Restore(defaults, k, prev); }
    }

    /** The loop of setLayer over the given values, in any order. */
    static method WriteLayer(layer: Layer, values: map<Path, Option<Value>>) returns (out: Layer)
      ensures out == PutAll(layer, values)
    {
      out := layer;
      var todo := values.Keys;
      NothingWritten(layer, values);
      while todo != {}
        invariant todo <= values.Keys && out == PutAll(layer, Outside(values, todo))
        decreases |todo|
      {
        var k :| k in todo;
        OneMoreWritten(layer, values, todo, k);
        out := Put(out, k, values[k]);
        todo := todo - {k};
      }
      assert Outside(values, {}) == values;
    }

    /** SetValues (explicit) and SetDefaults. */
    method SetValues(explicit: bool, values: map<Path, Option<Value>>) returns (ok: bool, ghost cand: Snapshot)
      requires Valid()
      modifies this
      ensures Did(cfg, old(View()), SetLayer(explicit, values), cand, View(), ok)
      ensures ok ==> OnlyLayers(old(View()), View())
      ensures ok && explicit ==> AllChanged(old(explicits), explicits, values) && defaults == old(defaults)
      ensures ok && !explicit ==> AllChanged(old(defaults), defaults, values) && explicits == old(explicits)
      ensures !ok ==> View() == old(View())
    {
      if closed { return false, NO_SNAPSHOT; }
      if values == map[] { return true, NO_SNAPSHOT; }
      ghost var before := View();
      var prev := if explicit then explicits else defaults;
      var next := WriteLayer(prev, values);
      PutAllIs(prev, values);
      if explicit { explicits := next; } else { defaults := next; }
      ghost var proposed := View();
      ok, cand := RebuildSnapshot();
      RebuildDid(cfg, before, SetLayer(explicit, values), proposed, cand, ok);
      if !ok {
        if explicit { explicits := prev; } else { defaults := prev; }
      }
    }

    method Unset(k: Path) returns (ok: bool, ghost cand: Snapshot)
      requires Valid()
      modifies this
      ensures Did(cfg, old(View()), Op.Unset(k), cand, View(), ok)
    {
      if closed { return false, NO_SNAPSHOT; }
      if k !in explicits { return true, NO_SNAPSHOT; }
      var prev := Entry(explicits, k);
      RestoreUndoesPut(explicits, k, None);
      explicits := explicits - {k};
      ok, cand := RebuildSnapshot();
      if !ok { explicits := Restore(explicits, k, prev); }
    }

    method RegisterAlias(alias: Path, canonical: Path) returns (ok: bool, ghost cand: Snapshot)
      requires Valid()
      modifies this
      ensures Did(cfg, old(View()), Op.RegisterAlias(alias, canonical), cand, View(), ok)
    {
      if closed { return false, NO_SNAPSHOT; }
      var chain := ValidateNoAliasCycle(alias, canonical, aliases);
      if chain != [] { return false, NO_SNAPSHOT; }
      var prev := Entry(aliases, alias);
      RestoreUndoesPut(aliases, alias, Some(canonical));
      aliases := aliases[alias := canonical];
      ok, cand := RebuildSnapshot();
      if !ok { aliases := Restore(aliases, alias, prev); }
    }

    method PinSource(k: Path, name: Bytes) returns (ok: bool, ghost cand: Snapshot)
      requires Valid()
      modifies this
      ensures Did(cfg, old(View()), Op.PinSource(k, name), cand, View(), ok)
    {
      if closed || !HasSource(sources, name) { return false, NO_SNAPSHOT; }
      var prev := Entry(pins, k);
      RestoreUndoesPut(pins, k, Some(name));
      pins := pins[k := name];
      ok, cand := RebuildSnapshot();
      if !ok { pins := Restore(pins, k, prev); }
    }

    method Unpin(k: Path) returns (ok: bool, ghost cand: Snapshot)
      requires Valid()
      modifies this
      ensures Did(cfg, old(View()), Op.Unpin(k), cand, View(), ok)
    {
      if closed { return false, NO_SNAPSHOT; }
      if k !in pins { return true, NO_SNAPSHOT; }
      var prev := Entry(pins, k);
      RestoreUndoesPut(pins, k, None);
      pins := pins - {k};
      ok, cand := RebuildSnapshot();
      if !ok { pins := Restore(pins, k, prev); }
    }

    /** Puts a new source list in place and rebuilds; the caller restores the old one on failure. */
    method TrySources(next: seq<Source>) returns (ok: bool, cand: Snapshot)
      requires ProperNames(next)
      modifies this
      ensures var proposed := old(View()).(sources := next);
        && Built(InputsOf(cfg, proposed), cand) && (ok <==> Accepts(cfg, proposed, cand))
        && View() == if ok then Install(proposed, cand) else proposed
    {
      sources := next;
      ok, cand := RebuildSnapshot();
    }

    method InsertSource(at: int, s: Source) returns (ok: bool, ghost cand: Snapshot)
      requires Valid()
      modifies this
      ensures Did(cfg, old(View()), Op.InsertSource(at, s), cand, View(), ok)
    {
      if closed || !NameFree(sources, s.name) { return false, NO_SNAPSHOT; }
      var i := Clamp(at, |sources|);
      assert ProperNames(InsertAt(sources, i, s)) by { InsertKeepsNames(sources, i, s); }
      ghost var before := View();
      ok, cand := TrySources(InsertAt(sources, i, s));
      if !ok {
        InsertRemove(before.sources, i, s);
        sources := RemoveAt(sources, i);
      }
    }

    /** AddSource appends at the lowest precedence. */
    method AddSource(s: Source) returns (ok: bool, ghost cand: Snapshot)
      requires Valid()
      modifies this
      ensures Did(cfg, old(View()), Op.InsertSource(|old(sources)|, s), cand, View(), ok)
    {
      if closed || !NameFree(sources, s.name) { return false, NO_SNAPSHOT; }
      InsertKeepsNames(sources, |sources|, s);
      assert InsertAt(sources, |sources|, s) == sources + [s];
      sources := sources + [s];
      ok, cand := RebuildSnapshot();
      if !ok {
        sources := sources[..|sources| - 1];
        assert sources == old(sources);
      }
    }

    method RemoveSource(name: Bytes) returns (ok: bool, ghost cand: Snapshot)
      requires Valid()
      modifies this
      ensures Did(cfg, old(View()), Op.RemoveSource(name), cand, View(), ok)
    {
      if closed { return false, NO_SNAPSHOT; }
      var i := FirstNamed(sources, name);
      if i == |sources| { return true, NO_SNAPSHOT; }
      var removed := sources[i];
      RemoveKeepsNames(sources, i);
      RemoveInsert(sources, i);
      sources := RemoveAt(sources, i);
      ok, cand := RebuildSnapshot();
      if !ok { sources := InsertAt(sources, i, removed); }
    }

    /** addBoundPaths: remembers the paths a bind missed; a refused rebuild restores the set. */
    method AddBoundPaths(paths: seq<Path>) returns (ok: bool, ghost cand: Snapshot)
      requires Valid()
      modifies this
      ensures Did(cfg, old(View()), AddBound(paths), cand, View(), ok)
    {
      var added := (set p | p in paths) - bound;
      if added == {} { return true, NO_SNAPSHOT; }
      var prev := bound;
      bound := bound + added;
      var has := AnySourceHasOne(added);
      if !has { return true, NO_SNAPSHOT; }
      ok, cand := RebuildSnapshot();
      if !ok { bound := prev; }
    }

    /** anySourceHasLocked. */
    method AnySourceHasOne(paths: set<Path>) returns (has: bool)
      ensures has <==> AnySourceHas(sources, paths)
    {
      for i := 0 to |sources|
        invariant forall j, p | 0 <= j < i && p in paths :: !sources[j].get(p).Hit?
      {
        var todo := paths;
        while todo != {}
          invariant todo <= paths
          invariant forall p | p in paths && p !in todo :: !sources[i].get(p).Hit?
          decreases |todo|
        {
          var p :| p in todo;
          if sources[i].get(p).Hit? { return true; }
          todo := todo - {p};
        }
      }
      return false;
    }

    /** markSecrets: grows the set and swaps in a copy of the snapshot that carries it. */
    method MarkSecrets(keys: set<Path>) returns (ok: bool)
      requires Valid()
      modifies this
      ensures Did(cfg, old(View()), Op.MarkSecrets(keys), NO_SNAPSHOT, View(), ok)
    {
      ok := true;
      if closed { return; }
      if keys <= secretKeys { return; }
      secretKeys := secretKeys + keys;
      if snapshot.Some? { snapshot := Some(snapshot.value.(secretKeys := secretKeys)); }
    }

    method MarkImmutable(p: Path, baseline: Value) returns (ok: bool)
      requires Valid()
      modifies this
      ensures Did(cfg, old(View()), Op.MarkImmutable(p, baseline), NO_SNAPSHOT, View(), ok)
    {
      ok := true;
      if p == [] || p in baselines { return; }
      baselines := baselines[p := baseline];
    }
  }
}
