/** Marking keys secret swaps the frozen secret set of a snapshot and nothing else: no view and no read
    depends on it. */
module SecretViews {
  import opened Paths
  import opened Lists
  import opened Precedence
  import opened Snapshots
  import opened Views
  import opened Stamping
  import opened SnapshotBuild

  function Marked(s: Snapshot, keys: set<Path>): Snapshot {
    s.(secretKeys := keys)
  }

  lemma {:induction false} SameShadowed(s: Snapshot, keys: set<Path>, list: seq<Path>)
    ensures Shadowed(Marked(s, keys), list) == Shadowed(s, list)
  {}

  lemma {:induction false} SameAssemble(s: Snapshot, keys: set<Path>, list: seq<Path>, drop: set<Path>, n: nat)
    ensures Assemble(Marked(s, keys), list, drop, n) == Assemble(s, list, drop, n)
  {
    if list != [] { SameAssemble(s, keys, list[..|list| - 1], drop, n); }
  }

  lemma {:induction false} SameTopSource(s: Snapshot, keys: set<Path>, list: seq<Path>, drop: set<Path>)
    ensures TopSource(Marked(s, keys), list, drop) == TopSource(s, list, drop)
  {
    if list != [] { SameTopSource(s, keys, list[..|list| - 1], drop); }
  }

  /** The single-tree view does not show which keys are secret. */
  lemma {:induction false} SecretsDoNotShow(s: Snapshot, keys: set<Path>)
    ensures AsMap(Marked(s, keys)) == AsMap(s)
  {
    SameShadowed(s, keys, Visible(s));
    SameAssemble(s, keys, Visible(s), Shadowed(s, Visible(s)), 0);
  }

  lemma {:induction false} SameSubtree(s: Snapshot, keys: set<Path>, q: Path)
    ensures Subtree(Marked(s, keys), q) == Subtree(s, q)
  {
    var list := SubtreeKeys(s, q);
    SameShadowed(s, keys, list);
    SameAssemble(s, keys, list, Shadowed(s, list), |q|);
    SameTopSource(s, keys, list, Shadowed(s, list));
  }

  lemma {:induction false} SameScan(f: nat -> bool, g: nat -> bool, r: nat -> nat, r': nat -> nat, top: nat)
    requires forall n: nat | n <= top :: f(n) == g(n) && r(n) == r'(n)
    ensures ScanBest(f, r, top) == ScanBest(g, r', top)
  {
    if top > 0 { SameScan(f, g, r, r', top - 1); }
  }

  lemma {:induction false} SameBest(s: Snapshot, keys: set<Path>, q: Path, top: nat)
    requires top <= |q|
    ensures Best(Marked(s, keys), q, top) == Best(s, q, top)
  {
    var t := Marked(s, keys);
    forall n: nat | n <= top ensures Holds(t, q)(n) == Holds(s, q)(n) && RankAt(t, q)(n) == RankAt(s, q)(n) {
      SameHeld(s, keys, q, n);
    }
    SameScan(Holds(t, q), Holds(s, q), RankAt(t, q), RankAt(s, q), top);
  }

  lemma {:induction false} SameFromParents(s: Snapshot, keys: set<Path>, q: Path)
    ensures FromParents(Marked(s, keys), q) == FromParents(s, q)
  {
    if q != [] {
      SameBest(s, keys, q, |q| - 1);
      var b := Best(s, q, |q| - 1);
      if b.Some? { SameHeld(s, keys, q, b.value); }
    }
  }

  lemma {:induction false} SameHeld(s: Snapshot, keys: set<Path>, q: Path, n: nat)
    requires n <= |q|
    ensures Held(Marked(s, keys), q, n) == Held(s, q, n) && HolderRank(Marked(s, keys), q, n) == HolderRank(s, q, n)
  {}

  /** No read, in any mode, depends on which keys are secret. */
  lemma {:induction false} SecretsDoNotRead(s: Snapshot, keys: set<Path>, q: Path, mode: ReadMode)
    ensures CodeRead(Marked(s, keys), q, mode) == CodeRead(s, q, mode)
  {
    SameFromParents(s, keys, q);
    SameSubtree(s, keys, q);
    SameFromParents(s, keys, ReadKey(s, q));
    SameSubtree(s, keys, ReadKey(s, q));
  }

  lemma {:induction false} SameIndices(s: Snapshot, keys: set<Path>)
    ensures InParentSet(Marked(s, keys)) == InParentSet(s) && OverriddenSet(Marked(s, keys)) == OverriddenSet(s)
  {
    var t := Marked(s, keys);
    forall k ensures Yields(t, k) <==> Yields(s, k) {
      forall n ensures ParentWins(t, k, n) <==> ParentWins(s, k, n) {}
    }
    forall a ensures Overridden(t, a) <==> Overridden(s, a) {
      forall k ensures OverriddenBy(t, a, k) <==> OverriddenBy(s, a, k) {}
    }
  }

  /** Swapping the secret set in is building with it, stamping in the same order. */
  lemma {:induction false} BuildWithSecrets(inp: Inputs, order: seq<Path>, keys: set<Path>)
    ensures BuildAlong(inp.(secretKeys := keys), order) == Marked(BuildAlong(inp, order), keys)
  {
    var flat, flat' := Flattened(inp), Flattened(inp.(secretKeys := keys));
    SameCanonical(flat, keys);
    assert flat' == flat.(secretKeys := keys);
    var full := StampAlong(flat.aliases, Canonical(flat), order);
    SameListing(flat, keys, full);
    SameIndices(Frame(flat, full), keys);
    assert Frame(flat', full) == Marked(Frame(flat, full), keys);
  }

  lemma {:induction false} BuiltWithSecrets(inp: Inputs, s: Snapshot, keys: set<Path>)
    requires Built(inp, s)
    ensures Built(inp.(secretKeys := keys), Marked(s, keys))
  {
    BuiltMeans(inp, s);
    var order :| Orders(order, inp.aliases.Keys) && s == BuildAlong(inp, order);
    BuildWithSecrets(inp, order, keys);
    BuiltMeans(inp.(secretKeys := keys), Marked(s, keys));
  }

  lemma {:induction false} SameCanonical(inp: Inputs, keys: set<Path>)
    ensures Canonical(inp.(secretKeys := keys)) == Canonical(inp)
  {
    forall c ensures Resolution(inp.(secretKeys := keys), c) == Resolution(inp, c) { SameResolution(inp, keys, c); }
    assert Roots(inp.(secretKeys := keys)) == Roots(inp);
  }

  lemma {:induction false} SameResolution(inp: Inputs, keys: set<Path>, c: Path)
    ensures Resolution(inp.(secretKeys := keys), c) == Resolution(inp, c)
  {}

  lemma {:induction false} SameListing(inp: Inputs, keys: set<Path>, full: map<Path, Resolved>)
    ensures Listing(inp.(secretKeys := keys), full) == Listing(inp, full)
  {
    var inp' := inp.(secretKeys := keys);
    forall e ensures Duplicate(inp', full, e) <==> Duplicate(inp, full, e) {
      forall b ensures DuplicateOf(inp', full, b, e) <==> DuplicateOf(inp, full, b, e) {}
    }
    assert Duplicates(inp', full) == Duplicates(inp, full);
    var all := PathOrder.SortSet(full.Keys - Duplicates(inp, full));
    KeepSame(all, (k: Path) => !ListedByParts(inp', full, all, k), (k: Path) => !ListedByParts(inp, full, all, k));
  }
}
