/** The registry as a transactional state machine (registry.go, registry_set.go, registry_bind.go,
    registry_describe.go). Each write mutates, rebuilds, then commits or rolls back. */
module Registry {
  import opened Paths
  import opened Values
  import opened Aliases
  import opened Layers
  import opened Trees
  import opened Precedence
  import opened Snapshots
  import opened Views
  import opened SnapshotBuild
  import opened SecretViews
  import opened Runs

  /** The options fixed at construction. The validator is any pure test of the single-tree view. */
  datatype Config = Config(merge: MergeStrategy, accepts: Tree -> bool)

  /** The registry's fields, and three that only record history: the source contents and bound paths the
      installed snapshot was built from, and how many snapshots rebuilds have installed. */
  datatype State = State(
    sources: seq<Source>,
    explicits: Layer,
    defaults: Layer,
    aliases: Graph<Path>,
    pins: map<Path, Bytes>,
    bound: set<Path>,
    secretKeys: set<Path>,
    baselines: map<Path, Value>,
    snapshot: Option<Snapshot>,
    closed: bool,
    builtFrom: seq<Source>,
    builtBound: set<Path>,
    rebuilds: nat)

  /** A registry before its first snapshot. */
  function Initial(sources: seq<Source>): State {
    State(sources, map[], map[], map[], map[], {}, {}, map[], None, false, [], {}, 0)
  }

  function InputsOf(cfg: Config, st: State): Inputs {
    Inputs(st.sources, st.explicits, st.defaults, st.aliases, st.pins, st.bound, st.secretKeys, cfg.merge)
  }

  function BaselineMode(baseline: Value): ReadMode {
    if baseline.data.Map? then ReadSection else ReadExact
  }

  /** s still reads, at p, a value equal to the baseline. */
  ghost predicate Honours(s: Snapshot, p: Path, baseline: Value) {
    var cur := CodeRead(s, p, BaselineMode(baseline));
    cur.Some? && ValuesEqual(baseline, cur.value)
  }

  ghost predicate HonoursAll(s: Snapshot, baselines: map<Path, Value>) {
    forall p | p in baselines :: Honours(s, p, baselines[p])
  }

  /** What a candidate snapshot must pass to be installed. */
  ghost predicate Accepts(cfg: Config, st: State, cand: Snapshot) {
    HonoursAll(cand, st.baselines) && cfg.accepts(AsMap(cand))
  }

  // ---------------------------------------------------------------- transitions

  /** Set, SetDefault, SetValues and SetDefaults are SetLayer, where None clears a key; AddSource is
      InsertSource at the end; SourcesChange is a source's own contents changing. */
  datatype Op =
    | SetLayer(explicit: bool, values: map<Path, Option<Value>>)
    | Unset(key: Path)
    | RegisterAlias(alias: Path, canonical: Path)
    | PinSource(key: Path, name: Bytes)
    | Unpin(key: Path)
    | InsertSource(at: int, source: Source)
    | RemoveSource(name: Bytes)
    | Reload
    | AddBound(paths: seq<Path>)
    | MarkSecrets(keys: set<Path>)
    | MarkImmutable(key: Path, baseline: Value)
    | SourcesChange(contents: seq<Source>)
    | Close

  /** What an operation asks for: refused outright, nothing to do, a state to rebuild from before it is
      committed, or a state that needs no rebuild. */
  datatype Plan = Refuse | Skip | Rebuild(next: State) | Direct(next: State)

  function Entry<V>(m: map<Path, V>, k: Path): Option<V> {
    if k in m then Some(m[k]) else None
  }

  function PutAll(layer: Layer, values: map<Path, Option<Value>>): Layer {
    map k | k in layer.Keys + values.Keys && (k in values ==> values[k].Some?) ::
      if k in values then values[k].value else layer[k]
  }

  const EXPLICIT_NAME: Bytes := [101, 120, 112, 108, 105, 99, 105, 116]
  const DEFAULT_NAME: Bytes := [100, 101, 102, 97, 117, 108, 116]

  predicate NameFree(sources: seq<Source>, name: Bytes) {
    name != [] && name != EXPLICIT_NAME && name != DEFAULT_NAME && !HasSource(sources, name)
  }

  predicate HasSource(sources: seq<Source>, name: Bytes) {
    exists i | 0 <= i < |sources| :: sources[i].name == name
  }

  /** The position of the first source with the name, or |sources|. */
  function FirstNamed(sources: seq<Source>, name: Bytes): (i: nat)
    ensures i <= |sources| && (i < |sources| ==> sources[i].name == name)
    ensures forall j | 0 <= j < i :: sources[j].name != name
  {
    if sources == [] then 0 else if sources[0].name == name then 0 else 1 + FirstNamed(sources[1..], name)
  }

  function Clamp(at: int, n: nat): nat {
    if at < 0 then 0 else if at > n then n else at
  }

  function InsertAt(sources: seq<Source>, at: nat, s: Source): seq<Source>
    requires at <= |sources|
  {
    sources[..at] + [s] + sources[at..]
  }

  function RemoveAt(sources: seq<Source>, at: nat): seq<Source>
    requires at < |sources|
  {
    sources[..at] + sources[at + 1..]
  }

  predicate AnySourceHas(sources: seq<Source>, paths: set<Path>) {
    exists i, p | 0 <= i < |sources| && p in paths :: sources[i].get(p).Hit?
  }

  ghost function PlanOf(cfg: Config, st: State, op: Op): Plan {
    match op
    case SourcesChange(contents) =>
      if Names(contents) == Names(st.sources) then Direct(st.(sources := contents)) else Skip
    case MarkImmutable(p, v) =>
      if p == [] || p in st.baselines then Skip else Direct(st.(baselines := st.baselines[p := v]))
    case AddBound(paths) =>
      var added := (set p | p in paths) - st.bound;
      if added == {} then Skip
      else if AnySourceHas(st.sources, added) then Rebuild(st.(bound := st.bound + added))
      else Direct(st.(bound := st.bound + added))
    case MarkSecrets(keys) =>
      if st.closed || keys <= st.secretKeys then Skip else Direct(WithSecrets(st, st.secretKeys + keys))
    case Close => Direct(st.(closed := true))
    case _ => if st.closed then Refuse else WritePlan(cfg, st, op)
  }

  ghost function WritePlan(cfg: Config, st: State, op: Op): Plan {
    match op
    case SetLayer(explicit, vs) =>
      if vs == map[] then Skip
      else if explicit then Rebuild(st.(explicits := PutAll(st.explicits, vs)))
      else Rebuild(st.(defaults := PutAll(st.defaults, vs)))
    case Unset(k) => if k !in st.explicits then Skip else Rebuild(st.(explicits := st.explicits - {k}))
    case RegisterAlias(a, c) =>
      if Acceptable(st.aliases, a, c) then Rebuild(st.(aliases := st.aliases[a := c])) else Refuse
    case PinSource(k, name) =>
      if HasSource(st.sources, name) then Rebuild(st.(pins := st.pins[k := name])) else Refuse
    case Unpin(k) => if k !in st.pins then Skip else Rebuild(st.(pins := st.pins - {k}))
    case InsertSource(at, s) =>
      if NameFree(st.sources, s.name)
      then Rebuild(st.(sources := InsertAt(st.sources, Clamp(at, |st.sources|), s)))
      else Refuse
    case RemoveSource(name) =>
      var i := FirstNamed(st.sources, name);
      if i == |st.sources| then Skip else Rebuild(st.(sources := RemoveAt(st.sources, i)))
    case _ => Rebuild(st)
  }

  function WithSecrets(st: State, keys: set<Path>): State {
    st.(secretKeys := keys,
        snapshot := if st.snapshot.Some? then Some(st.snapshot.value.(secretKeys := keys)) else None)
  }

  function Install(st: State, cand: Snapshot): State {
    st.(snapshot := Some(cand), builtFrom := st.sources, builtBound := st.bound, rebuilds := st.rebuilds + 1)
  }

  /** An operation as one atomic step: a rebuild that is refused leaves the state it started from. cand is
      the snapshot the rebuild came up with. */
  ghost function Step(cfg: Config, st: State, op: Op, cand: Snapshot): (State, bool) {
    Commit(cfg, st, PlanOf(cfg, st, op), cand)
  }

  /** Committing a plan, or falling back. */
  ghost function Commit(cfg: Config, st: State, plan: Plan, cand: Snapshot): (State, bool) {
    match plan
    case Refuse => (st, false)
    case Skip => (st, true)
    case Direct(next) => (next, true)
    case Rebuild(next) => if Accepts(cfg, next, cand) then (Install(next, cand), true) else (st, false)
  }

  /** cand is one that buildSnapshot could give where op rebuilds. */
  ghost predicate Possible(cfg: Config, st: State, op: Op, cand: Snapshot) {
    PlanOf(cfg, st, op).Rebuild? ==> Built(InputsOf(cfg, PlanOf(cfg, st, op).next), cand)
  }

  // ---------------------------------------------------------------- what every step keeps

  predicate ProperNames(sources: seq<Source>) {
    forall i | 0 <= i < |sources| ::
      sources[i].name != [] && sources[i].name != EXPLICIT_NAME && sources[i].name != DEFAULT_NAME
  }

  /** The installed snapshot is the one built from the current explicit, default, alias and pin maps and
      the current source order, it carries the current secret set, and it satisfied the validator. */
  ghost predicate InStep(cfg: Config, st: State) {
    st.snapshot.Some? ==>
      && Names(st.builtFrom) == Names(st.sources) && st.builtBound <= st.bound
      && Built(InputsOf(cfg, st.(sources := st.builtFrom, bound := st.builtBound)), st.snapshot.value)
      && st.snapshot.value.secretKeys == st.secretKeys
      && cfg.accepts(AsMap(st.snapshot.value))
  }

  ghost predicate Inv(cfg: Config, st: State) {
    ProperNames(st.sources) && Grounded(st.aliases) && InStep(cfg, st)
  }

  lemma {:induction false} SameNamesProper(a: seq<Source>, b: seq<Source>)
    requires Names(a) == Names(b)
    ensures |a| == |b| && forall i | 0 <= i < |a| :: a[i].name == b[i].name
  {
    assert |Names(a)| == |Names(b)|;
    forall i | 0 <= i < |a| ensures a[i].name == b[i].name { assert Names(a)[i] == Names(b)[i]; }
  }

  lemma {:induction false} InsertKeepsNames(sources: seq<Source>, at: nat, s: Source)
    requires ProperNames(sources) && at <= |sources| && NameFree(sources, s.name)
    ensures ProperNames(InsertAt(sources, at, s))
    ensures DistinctNames(sources) ==> DistinctNames(InsertAt(sources, at, s))
  {}

  lemma {:induction false} RemoveKeepsNames(sources: seq<Source>, at: nat)
    requires ProperNames(sources) && at < |sources|
    ensures ProperNames(RemoveAt(sources, at))
    ensures DistinctNames(sources) ==> DistinctNames(RemoveAt(sources, at))
  {}

  ghost predicate NamesKept(a: seq<Source>, b: seq<Source>) {
    ProperNames(a) ==> ProperNames(b) && (DistinctNames(a) ==> DistinctNames(b))
  }

  /** How an operation may change the list of sources. */
  ghost predicate SourcesMove(a: seq<Source>, b: seq<Source>) {
    || Names(a) == Names(b)
    || (exists at, s: Source | 0 <= at <= |a| :: NameFree(a, s.name) && b == InsertAt(a, at, s))
    || (exists at | 0 <= at < |a| :: b == RemoveAt(a, at))
  }

  lemma {:induction false} PlanMovesSources(cfg: Config, st: State, op: Op)
    ensures var plan := PlanOf(cfg, st, op);
      plan.Rebuild? || plan.Direct? ==> SourcesMove(st.sources, plan.next.sources)
  {}

  lemma {:induction false} MoveKeepsNames(a: seq<Source>, b: seq<Source>)
    requires SourcesMove(a, b)
    ensures NamesKept(a, b)
  {
    if Names(a) == Names(b) {
      SameNamesProper(a, b);
    } else if ProperNames(a) {
      if at, s: Source :| 0 <= at <= |a| && NameFree(a, s.name) && b == InsertAt(a, at, s) {
        InsertKeepsNames(a, at, s);
      } else {
        var at :| 0 <= at < |a| && b == RemoveAt(a, at);
        RemoveKeepsNames(a, at);
      }
    }
  }

  lemma {:induction false} PlanKeepsNames(cfg: Config, st: State, op: Op)
    ensures var plan := PlanOf(cfg, st, op);
      plan.Rebuild? || plan.Direct? ==> NamesKept(st.sources, plan.next.sources)
  {
    PlanMovesSources(cfg, st, op);
    var plan := PlanOf(cfg, st, op);
    if plan.Rebuild? || plan.Direct? { MoveKeepsNames(st.sources, plan.next.sources); }
  }

  lemma {:induction false} PlanKeepsGrounded(cfg: Config, st: State, op: Op)
    requires Grounded(st.aliases)
    ensures var plan := PlanOf(cfg, st, op); plan.Rebuild? || plan.Direct? ==> Grounded(plan.next.aliases)
  {
    match op
    case RegisterAlias(a, c) => if Acceptable(st.aliases, a, c) { AcceptedKeepsGrounded(st.aliases, a, c); }
    case _ =>
  }

  /** What a plan may change. A rebuild's proposal leaves the baselines, secrets and snapshot alone; a
      direct change touches only what the snapshot was not built from, or swaps the secret set in. */
  ghost predicate PlanFrame(st: State, plan: Plan) {
    match plan
    case Rebuild(next) =>
      && next.baselines == st.baselines && next.secretKeys == st.secretKeys
      && next.snapshot == st.snapshot && next.rebuilds == st.rebuilds
    case Direct(next) =>
      || next == WithSecrets(st, next.secretKeys)
      || (&& next == st.(sources := next.sources, bound := next.bound,
                         baselines := next.baselines, closed := next.closed)
          && Names(next.sources) == Names(st.sources) && st.bound <= next.bound
          && forall p | p in st.baselines :: p in next.baselines && next.baselines[p] == st.baselines[p])
    case _ => true
  }

  lemma {:induction false} WritePlanIsFramed(cfg: Config, st: State, op: Op)
    ensures PlanFrame(st, WritePlan(cfg, st, op))
  {}

  lemma {:induction false} PlanIsFramed(cfg: Config, st: State, op: Op)
    ensures PlanFrame(st, PlanOf(cfg, st, op))
  {
    WritePlanIsFramed(cfg, st, op);
  }

  lemma {:induction false} SecretsKeepInStep(cfg: Config, st: State, keys: set<Path>)
    requires InStep(cfg, st)
    ensures InStep(cfg, WithSecrets(st, keys))
  {
    if st.snapshot.Some? {
      SecretsDoNotShow(st.snapshot.value, keys);
      BuiltWithSecrets(InputsOf(cfg, st.(sources := st.builtFrom, bound := st.builtBound)), st.snapshot.value, keys);
    }
  }

  lemma {:induction false} CommitKeepsInStep(cfg: Config, st: State, plan: Plan, cand: Snapshot)
    requires InStep(cfg, st) && PlanFrame(st, plan)
    requires plan.Rebuild? ==> Built(InputsOf(cfg, plan.next), cand)
    ensures InStep(cfg, Commit(cfg, st, plan, cand).0)
  {
    if plan.Direct? && plan.next == WithSecrets(st, plan.next.secretKeys) {
      SecretsKeepInStep(cfg, st, plan.next.secretKeys);
    } else if plan.Rebuild? {
      BuiltFields(InputsOf(cfg, plan.next), cand);
    }
  }

  /** Every step, accepted, refused or rolled back, keeps the invariant and the distinctness of names; a
      failed one changes nothing at all. */
  lemma {:induction false} StepKeepsInv(cfg: Config, st: State, op: Op, cand: Snapshot)
    requires Inv(cfg, st) && Possible(cfg, st, op, cand)
    ensures Inv(cfg, Step(cfg, st, op, cand).0)
    ensures !Step(cfg, st, op, cand).1 ==> Step(cfg, st, op, cand).0 == st
    ensures NamesKept(st.sources, Step(cfg, st, op, cand).0.sources)
  {
    PlanIsFramed(cfg, st, op);
    PlanKeepsNames(cfg, st, op);
    PlanKeepsGrounded(cfg, st, op);
    CommitKeepsInStep(cfg, st, PlanOf(cfg, st, op), cand);
  }

  // ---------------------------------------------------------------- runs

  datatype Event = Event(op: Op, cand: Snapshot)

  ghost function Steps(cfg: Config): (State, Event) -> State {
    (st: State, e: Event) => Step(cfg, st, e.op, e.cand).0
  }

  ghost function Possibles(cfg: Config): (State, Event) -> bool {
    (st: State, e: Event) => Possible(cfg, st, e.op, e.cand)
  }

  /** In every reachable state the maps and the snapshot are in step, the alias graph has no cycle, and
      source names that started distinct still are. */
  lemma {:induction false} RunKeepsInv(cfg: Config, st: State, run: seq<Event>, n: nat)
    requires Inv(cfg, st) && IsRun(Steps(cfg), Possibles(cfg), st, run) && n <= |run|
    ensures Inv(cfg, After(Steps(cfg), st, run, n))
    ensures DistinctNames(st.sources) ==> DistinctNames(After(Steps(cfg), st, run, n).sources)
  {
    var first := DistinctNames(st.sources);
    var inv := (s: State) => Inv(cfg, s) && (first ==> DistinctNames(s.sources));
    forall s, e | inv(s) && Possibles(cfg)(s, e) ensures inv(Steps(cfg)(s, e)) {
      StepKeepsInv(cfg, s, e.op, e.cand);
    }
    Invariant(Steps(cfg), Possibles(cfg), inv, st, run, n);
  }

  /** The baseline b of p is in force since the rebuild count was r. */
  ghost predicate InForce(st: State, p: Path, b: Value, r: nat) {
    && p in st.baselines && st.baselines[p] == b && st.rebuilds >= r
    && (st.rebuilds > r ==> st.snapshot.Some? && Honours(st.snapshot.value, p, b))
  }

  lemma {:induction false} CommitKeepsForce(cfg: Config, st: State, plan: Plan, cand: Snapshot,
                                            p: Path, b: Value, r: nat)
    requires InForce(st, p, b, r) && PlanFrame(st, plan)
    ensures InForce(Commit(cfg, st, plan, cand).0, p, b, r)
  {
    if plan.Direct? && st.snapshot.Some? {
      SecretsDoNotRead(st.snapshot.value, plan.next.secretKeys, p, BaselineMode(b));
    }
  }

  /** Once recorded, a baseline never changes, and every snapshot that a later rebuild installs reads a
      value equal to it: dropping the key is refused too. */
  lemma {:induction false} BaselineHolds(cfg: Config, st: State, run: seq<Event>, n: nat, p: Path)
    requires n <= |run| && p in st.baselines && IsRun(Steps(cfg), Possibles(cfg), st, run)
    ensures InForce(After(Steps(cfg), st, run, n), p, st.baselines[p], st.rebuilds)
  {
    var b, r := st.baselines[p], st.rebuilds;
    var inv := (s: State) => InForce(s, p, b, r);
    forall s, e | inv(s) && Possibles(cfg)(s, e) ensures inv(Steps(cfg)(s, e)) {
      PlanIsFramed(cfg, s, e.op);
      CommitKeepsForce(cfg, s, PlanOf(cfg, s, e.op), e.cand, p, b, r);
    }
    Invariant(Steps(cfg), Possibles(cfg), inv, st, run, n);
  }

  /** So after any later rebuild a read of p gives the recorded payload: an exact read, or a map read where the
      baseline is a map. */
  lemma {:induction false} BaselineReads(cfg: Config, st: State, run: seq<Event>, n: nat, p: Path)
    requires n <= |run| && p in st.baselines && IsRun(Steps(cfg), Possibles(cfg), st, run)
    ensures var now := After(Steps(cfg), st, run, n);
      now.rebuilds > st.rebuilds ==>
        && now.snapshot.Some?
        && var r := CodeRead(now.snapshot.value, p, if st.baselines[p].data.Map? then ReadSection else ReadExact);
           r.Some? && r.value.data == st.baselines[p].data
  {
    BaselineHolds(cfg, st, run, n, p);
  }
}
