/** The parts together: what a read returns in any reachable state of the registry, said in terms of the
    registry's own maps and sources (registry.go, snapshot.go, precedence.go). */
module ReachableReads {
  import opened Paths
  import opened KeyCuts
  import opened Lists
  import opened Values
  import opened Aliases
  import opened Precedence
  import opened Snapshots
  import opened Views
  import opened SnapshotBuild
  import opened Runs
  import opened Registry

  /** What the layers hold under k, or under the key k stands for. */
  ghost function LayersHold(inp: Inputs, k: Path): Option<Resolved> {
    var c := Target(inp.aliases, k);
    if c in Roots(Flattened(inp)) then Resolution(Flattened(inp), c) else None
  }

  ghost function LayerRank(inp: Inputs, k: Path): nat {
    var r := LayersHold(inp, k);
    RankFor(Names(inp.sources), if r.Some? && r.value.sources != [] then r.value.sources[0] else Label.Unset)
  }

  /** The value for q that the layers hold under its first n segments: q's own, or the entry for the rest
      inside a map. */
  ghost function LayersHolder(inp: Inputs, q: Path, n: nat): Option<Value>
    requires n <= |q|
  {
    var r := LayersHold(inp, q[..n]);
    if (n == 0 && q != []) || r.None? then None
    else if n == |q| then Some(r.value.value)
    else if !r.value.value.data.Map? then None
    else
      match EntryAt(r.value.value, q[n..])
      case None => None
      case Some(v) => Some(WithSource(v, r.value.value.source))
  }

  /** n holds q and is least in (layer, distance from q) among those that do. */
  ghost predicate LeastLayer(inp: Inputs, q: Path, n: nat) {
    && n <= |q| && LayersHolder(inp, q, n).Some?
    && forall m | 0 <= m <= |q| && LayersHolder(inp, q, m).Some? ::
         LayerRank(inp, q[..n]) < LayerRank(inp, q[..m]) || (LayerRank(inp, q[..n]) == LayerRank(inp, q[..m]) && n >= m)
  }

  /** Neither q nor a key above it is an alias, or else all chains are short. */
  ghost predicate PlainAbove(aliases: Graph<Path>, q: Path) {
    AllShort(aliases) || forall n | 0 <= n <= |q| :: q[..n] !in aliases
  }

  /** s and the layers agree about k. */
  ghost predicate Agree(inp: Inputs, s: Snapshot, k: Path) {
    && (k in s.values <==> LayersHold(inp, k).Some?)
    && (k in s.values ==> k in s.sources && LayersHold(inp, k) == Some(Resolved(s.values[k], s.sources[k])))
    && RankOf(s, k) == LayerRank(inp, k)
  }

  lemma {:induction false} SameKey(inp: Inputs, order: seq<Path>, k: Path)
    requires Orders(order, inp.aliases.Keys) && (AllShort(inp.aliases) || k !in inp.aliases)
    ensures Agree(inp, BuildAlong(inp, order), k)
  {
    BuildMeaning(inp, order, k);
  }

  lemma {:induction false} SameHolder(inp: Inputs, s: Snapshot, q: Path, n: nat)
    requires n <= |q| && Agree(inp, s, q[..n])
    ensures PlainHeld(s, q, n) == LayersHolder(inp, q, n)
  {
    if n == |q| { assert q[..n] == q; }
  }

  /** The read of a built snapshot, by the layers it was built from. */
  lemma {:induction false} BuiltRead(inp: Inputs, s: Snapshot, q: Path)
    requires Built(inp, s) && Regular(q) && q !in inp.aliases && PlainAbove(inp.aliases, q)
    ensures forall n: nat | LeastLayer(inp, q, n) :: CodeRead(s, q, ReadExact) == LayersHolder(inp, q, n)
    ensures (exists n :: 0 <= n <= |q| && LayersHolder(inp, q, n).Some?) ==> exists n :: LeastLayer(inp, q, n)
    ensures (forall n | 0 <= n <= |q| :: LayersHolder(inp, q, n).None?) ==> CodeRead(s, q, ReadExact) == Subtree(s, q)
  {
    BuiltMeans(inp, s);
    var order :| Orders(order, inp.aliases.Keys) && s == BuildAlong(inp, order);
    BuiltFields(inp, s);
    BuildReadable(inp, order);
    forall n: nat | n <= |q|
      ensures PlainHeld(s, q, n) == LayersHolder(inp, q, n) && RankOf(s, q[..n]) == LayerRank(inp, q[..n])
    {
      SameKey(inp, order, q[..n]);
      SameHolder(inp, s, q, n);
    }
    forall n: nat ensures LeastLayer(inp, q, n) <==> LeastHolder(s, q, n) { SameLeast(inp, s, q, n); }
    ExactRead(s, q);
    if n :| 0 <= n <= |q| && LayersHolder(inp, q, n).Some? { assert PlainHeld(s, q, n).Some?; }
  }

  lemma {:induction false} SameLeast(inp: Inputs, s: Snapshot, q: Path, n: nat)
    requires forall m: nat | m <= |q| ::
      PlainHeld(s, q, m) == LayersHolder(inp, q, m) && RankOf(s, q[..m]) == LayerRank(inp, q[..m])
    ensures LeastLayer(inp, q, n) <==> LeastHolder(s, q, n)
  {}

  /** The inputs that a state's snapshot was built from: its current explicit, default, alias and pin maps
      and source order, with the contents the sources had at the rebuild. */
  function BuiltInputs(cfg: Config, st: State): Inputs {
    InputsOf(cfg, st.(sources := st.builtFrom, bound := st.builtBound))
  }

  /** In every reachable state: an exact read of a regular key that is no alias, through the installed
      snapshot, is the value the first of the current layers holds for it, the nearest key deciding within a
      layer; and it is a section only when no layer holds it. */
  lemma {:induction false} ReachableRead(cfg: Config, st: State, run: seq<Event>, n: nat, q: Path)
    requires Inv(cfg, st) && IsRun(Steps(cfg), Possibles(cfg), st, run) && n <= |run| && Regular(q)
    ensures var now := After(Steps(cfg), st, run, n);
      var inp := BuiltInputs(cfg, now);
      now.snapshot.Some? && q !in now.aliases && PlainAbove(now.aliases, q) ==>
        var s := now.snapshot.value;
        && (forall i: nat | LeastLayer(inp, q, i) :: CodeRead(s, q, ReadExact) == LayersHolder(inp, q, i))
        && ((exists i :: 0 <= i <= |q| && LayersHolder(inp, q, i).Some?) ==> exists i :: LeastLayer(inp, q, i))
        && ((forall i | 0 <= i <= |q| :: LayersHolder(inp, q, i).None?) ==>
              CodeRead(s, q, ReadExact) == Subtree(s, q))
  {
    RunKeepsInv(cfg, st, run, n);
    var now := After(Steps(cfg), st, run, n);
    if now.snapshot.Some? && q !in now.aliases && PlainAbove(now.aliases, q) {
      BuiltRead(BuiltInputs(cfg, now), now.snapshot.value, q);
    }
  }
}
