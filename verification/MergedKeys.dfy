/** The provenance of a key in a built snapshot, source by source, and what it holds when sources are merged
    (precedence.go, snapshot.go). */
module MergedKeys {
  import opened Paths
  import opened Lists
  import opened Values
  import opened Precedence
  import opened SnapshotBuild
  import opened KeysHeld

  /** The labels of the sources at the given positions. */
  function LabelsAt(sources: seq<Source>, ix: seq<nat>): seq<Label>
    requires forall t | 0 <= t < |ix| :: ix[t] < |sources|
  {
    seq(|ix|, t requires 0 <= t < |ix| => Of(sources[ix[t]].name))
  }

  /** ix are the positions below n that qualify, in order. */
  ghost predicate Picks(has: nat -> bool, n: nat, ix: seq<nat>) {
    && (forall t | 0 <= t < |ix| :: ix[t] < n && has(ix[t])) && (forall t, u | 0 <= t < u < |ix| :: ix[t] < ix[u])
    && (forall i: nat | i < n && has(i) :: i in ix)
  }

  lemma {:induction false} PicksMore(has: nat -> bool, n: nat, ix: seq<nat>)
    requires Picks(has, n, ix)
    ensures has(n) ==> Picks(has, n + 1, ix + [n])
    ensures !has(n) ==> Picks(has, n + 1, ix)
  {
    assert forall i | i in ix :: i in ix + [n];
    assert n in [n] && n in ix + [n];
  }

  function Answers(sources: seq<Source>, names: seq<Path>): nat -> bool {
    (i: nat) => i < |sources| && FirstHit(sources[i], names).Some?
  }

  /** vs are what the sources at ix give under the names. */
  ghost predicate Given(sources: seq<Source>, names: seq<Path>, ix: seq<nat>, vs: seq<Value>) {
    |vs| == |ix| && forall t | 0 <= t < |ix| :: ix[t] < |sources| && FirstHit(sources[ix[t]], names) == Some(vs[t])
  }

  lemma {:induction false} GivenMore(sources: seq<Source>, names: seq<Path>, ix: seq<nat>, vs: seq<Value>, n: nat,
                                     v: Value)
    requires Given(sources, names, ix, vs) && n < |sources| && FirstHit(sources[n], names) == Some(v)
    ensures Given(sources, names, ix + [n], vs + [v])
  {}

  /** ix are the positions below n of the sources that answer one of the names; vs is what they give and
      labels how they are called. */
  ghost predicate Tracks(sources: seq<Source>, names: seq<Path>, n: nat, ix: seq<nat>, vs: seq<Value>,
                         labels: seq<Label>) {
    Picks(Answers(sources, names), n, ix) && Given(sources, names, ix, vs) && labels == LabelsAt(sources, ix)
  }

  lemma {:induction false} LabelsMore(sources: seq<Source>, ix: seq<nat>, n: nat)
    requires n < |sources| && forall t | 0 <= t < |ix| :: ix[t] < |sources|
    ensures forall t | 0 <= t <= |ix| :: (ix + [n])[t] < |sources|
    ensures LabelsAt(sources, ix + [n]) == LabelsAt(sources, ix) + [Of(sources[n].name)]
  {}

  lemma {:induction false} TracksHit(sources: seq<Source>, names: seq<Path>, n: nat, ix: seq<nat>, vs: seq<Value>,
                                     labels: seq<Label>, v: Value)
    requires n < |sources| && Tracks(sources, names, n, ix, vs, labels) && FirstHit(sources[n], names) == Some(v)
    ensures Tracks(sources, names, n + 1, ix + [n], vs + [v], labels + [Of(sources[n].name)])
  {
    assert Answers(sources, names)(n);
    PicksMore(Answers(sources, names), n, ix);
    GivenMore(sources, names, ix, vs, n, v);
    LabelsMore(sources, ix, n);
  }

  lemma {:induction false} TracksMiss(sources: seq<Source>, names: seq<Path>, n: nat, ix: seq<nat>, vs: seq<Value>,
                                      labels: seq<Label>)
    requires n < |sources| && Tracks(sources, names, n, ix, vs, labels) && FirstHit(sources[n], names).None?
    ensures Tracks(sources, names, n + 1, ix, vs, labels)
  {
    assert !Answers(sources, names)(n);
    PicksMore(Answers(sources, names), n, ix);
  }

  lemma {:induction false} PositionsNext(sources: seq<Source>, names: seq<Path>, n: nat, ix: seq<nat>)
    returns (next: seq<nat>)
    requires n < |sources|
    requires Tracks(sources, names, n, ix, Contributions(sources[..n], names), Contributors(sources[..n], names))
    ensures Tracks(sources, names, n + 1, next, Contributions(sources[..n + 1], names),
                   Contributors(sources[..n + 1], names))
  {
    var vs, labels := Contributions(sources[..n], names), Contributors(sources[..n], names);
    SupplySnoc(sources, names, n);
    ContributionSnoc(sources, names, n);
    match FirstHit(sources[n], names)
    case Some(v) =>
      TracksHit(sources, names, n, ix, vs, labels, v);
      next := ix + [n];
    case None =>
      TracksMiss(sources, names, n, ix, vs, labels);
      assert vs + [] == vs && labels + [] == labels;
      next := ix;
  }

  lemma {:induction false} PositionsOf(sources: seq<Source>, names: seq<Path>, n: nat) returns (ix: seq<nat>)
    requires n <= |sources|
    ensures Tracks(sources, names, n, ix, Contributions(sources[..n], names), Contributors(sources[..n], names))
  {
    if n == 0 {
      ix := [];
    } else {
      ix := PositionsOf(sources, names, n - 1);
      ix := PositionsNext(sources, names, n - 1, ix);
    }
  }

  /** ix are the positions of the sources that answer k under some spelling, in order. */
  ghost predicate Suppliers(inp: Inputs, k: Path, ix: seq<nat>) {
    && (forall t | 0 <= t < |ix| :: ix[t] < |inp.sources| && Supplies(inp, inp.sources[ix[t]], k))
    && (forall t, u | 0 <= t < u < |ix| :: ix[t] < ix[u])
    && (forall i | 0 <= i < |inp.sources| && Supplies(inp, inp.sources[i], k) :: i in ix)
  }

  lemma {:induction false} SuppliersOf(inp: Inputs, k: Path) returns (ix: seq<nat>)
    ensures Suppliers(inp, k, ix) && Contributors(inp.sources, Spellings(inp, k)) == LabelsAt(inp.sources, ix)
    ensures |Contributions(inp.sources, Spellings(inp, k))| == |ix|
    ensures forall t, v | 0 <= t < |ix| && SuppliesValue(inp, inp.sources[ix[t]], k, v) ::
      Contributions(inp.sources, Spellings(inp, k))[t] == v
  {
    var names := Spellings(inp, k);
    ix := PositionsOf(inp.sources, names, |inp.sources|);
    assert inp.sources[..|inp.sources|] == inp.sources;
    HoldersAre(inp, k);
    forall i: nat ensures Answers(inp.sources, names)(i) <==> i < |inp.sources| && Supplies(inp, inp.sources[i], k) {}
    forall t, v | 0 <= t < |ix| && SuppliesValue(inp, inp.sources[ix[t]], k, v)
      ensures Contributions(inp.sources, names)[t] == v
    {
      SourceHolds(inp, inp.sources[ix[t]], k);
    }
  }

  /** Shadowed or not, every source that answers a key is in its provenance, in order; under shadowing these
      are all. */
  lemma {:induction false} ShadowProvenance(inp: Inputs, order: seq<Path>, k: Path) returns (ix: seq<nat>)
    requires Orders(order, inp.aliases.Keys) && k !in inp.aliases && AskedFor(inp, k)
    requires !ExplicitFor(inp, k) && k !in inp.pins && inp.merge.MergeShadow? && SomeSupplies(inp, k)
    ensures Suppliers(inp, k, ix) && k in BuildAlong(inp, order).sources
    ensures BuildAlong(inp, order).sources[k] == LabelsAt(inp.sources, ix)
  {
    var flat, names := Flattened(inp), Spellings(inp, k);
    assert Spellings(flat, k) == names;
    LayerHolds(inp, inp.explicits, k);
    HoldersAre(inp, k);
    ix := SuppliersOf(inp, k);
    var i := HolderIndex(inp.sources, names);
    FirstSupplyIs(inp.sources, names, i);
    ResolvedIsCarried(inp, order, k, FirstHit(inp.sources[i], names).value, Contributors(inp.sources, names));
  }

  /** cs are what the sources at ix supply for k, and then the default, if there is one. */
  ghost predicate Gathered(inp: Inputs, k: Path, ix: seq<nat>, cs: seq<Value>) {
    && Suppliers(inp, k, ix) && |cs| == |ix| + (if DefaultFor(inp, k) then 1 else 0)
    && (forall t, v | 0 <= t < |ix| && SuppliesValue(inp, inp.sources[ix[t]], k, v) :: cs[t] == v)
    && (DefaultFor(inp, k) ==> forall v | LayerValue(inp, inp.defaults, k, v) :: cs[|ix|] == v)
  }

  lemma {:induction false} GatheredFrom(inp: Inputs, k: Path) returns (ix: seq<nat>)
    ensures Gathered(inp, k, ix, AllContributions(Flattened(inp), Spellings(inp, k)))
    ensures AllContributors(Flattened(inp), Spellings(inp, k)) ==
      LabelsAt(inp.sources, ix) + if DefaultFor(inp, k) then [Default] else []
  {
    ix := SuppliersOf(inp, k);
    LayerHolds(inp, inp.defaults, k);
  }

  lemma {:induction false} MergedResolves(inp: Inputs, k: Path, names: seq<Path>, cs: seq<Value>, labels: seq<Label>)
    requires FirstIn(inp.explicits, names).None? && k !in inp.pins && inp.merge.MergeAppend?
    requires cs == AllContributions(inp, names) && labels == AllContributors(inp, names) && cs != [] && labels != []
    ensures ResolveIn(inp, k, names) == Some(Resolved(WithSource(FoldMerge(cs), labels[0]), labels))
  {}

  lemma {:induction false} SomeGathered(inp: Inputs, k: Path, ix: seq<nat>, cs: seq<Value>)
    requires Gathered(inp, k, ix, cs) && (SomeSupplies(inp, k) || DefaultFor(inp, k))
    ensures cs != []
  {
    if SomeSupplies(inp, k) {
      var i :| 0 <= i < |inp.sources| && Supplies(inp, inp.sources[i], k);
      assert i in ix;
    }
  }

  /** Under merging a key holds the fold of what every source that answers it supplies, highest first, and of
      its default, with all their labels. */
  lemma {:induction false} MergedIsHeld(inp: Inputs, order: seq<Path>, k: Path)
    returns (ix: seq<nat>, cs: seq<Value>)
    requires Orders(order, inp.aliases.Keys) && k !in inp.aliases && AskedFor(inp, k) && inp.merge.MergeAppend?
    requires !ExplicitFor(inp, k) && k !in inp.pins && (SomeSupplies(inp, k) || DefaultFor(inp, k))
    ensures Gathered(inp, k, ix, cs) && cs != [] && Unwrap(FoldMerge(cs)) == FoldAny(UnwrapAll(cs))
    ensures var s := BuildAlong(inp, order);
      var labels := LabelsAt(inp.sources, ix) + if DefaultFor(inp, k) then [Default] else [];
      labels != [] && Carries(s, k, FoldMerge(cs), labels[0]) && s.sources[k] == labels
  {
    var flat, names := Flattened(inp), Spellings(inp, k);
    assert Spellings(flat, k) == names;
    LayerHolds(inp, inp.explicits, k);
    ix := GatheredFrom(inp, k);
    cs := AllContributions(flat, names);
    SomeGathered(inp, k, ix, cs);
    FoldUnwraps(cs);
    MergedResolves(flat, k, names, cs, AllContributors(flat, names));
    ResolvedIsCarried(inp, order, k, FoldMerge(cs), AllContributors(flat, names));
  }
}
