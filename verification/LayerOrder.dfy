/** What the order of the layers means for conflicts and reads, in terms of the layers themselves: explicit
    over the sources in their order over the defaults (snapshot.go). */
module LayerOrder {
  import opened Paths
  import opened PathOrder
  import opened KeyCuts
  import opened Values
  import opened Trees
  import opened Snapshots
  import opened Views

  /** The value of k comes from layer l: l heads its provenance. */
  predicate From(s: Snapshot, k: Path, l: Label) {
    k in s.sources && s.sources[k] != [] && s.sources[k][0] == l
  }

  /** a stands above b: explicit above everything else, a registered source above the defaults, and of two
      sources the one registered first. */
  predicate Higher(names: seq<Bytes>, a: Label, b: Label) {
    || (a == Explicit && b != Explicit)
    || (a.Of? && a.name in names && b == Default)
    || (exists i, j | 0 <= i < j < |names| :: a == Of(names[i]) && b == Of(names[j]))
  }

  predicate DistinctSources(s: Snapshot) {
    forall i, j | 0 <= i < j < |s.sourceNames| :: s.sourceNames[i] != s.sourceNames[j]
  }

  lemma {:induction false} HigherRanks(s: Snapshot, k: Path, k': Path, a: Label, b: Label)
    requires From(s, k, a) && From(s, k', b) && Higher(s.sourceNames, a, b) && (a.Of? && b.Of? ==> DistinctSources(s))
    ensures RankOf(s, k) < RankOf(s, k')
  {
    RankBounds(s.sourceNames, a);
    RankBounds(s.sourceNames, b);
    if i, j :| 0 <= i < j < |s.sourceNames| && a == Of(s.sourceNames[i]) && b == Of(s.sourceNames[j]) {
      RankOrder(s.sourceNames, i);
      RankOrder(s.sourceNames, j);
    }
  }

  lemma {:induction false} ExplicitIsLeast(s: Snapshot, k: Path, k': Path)
    requires From(s, k, Explicit)
    ensures RankOf(s, k) <= RankOf(s, k')
    ensures !From(s, k', Explicit) ==> RankOf(s, k) < RankOf(s, k')
  {
    RankBounds(s.sourceNames, if k' in s.sources && s.sources[k'] != [] then s.sources[k'][0] else Unset);
  }

  // ---------------------------------------------------------------- conflicts

  /** Of two listed keys one of which lies beneath the other, the one from the lower layer is dropped, and
      not on account of the other way round. */
  lemma {:induction false} HigherLayerWins(s: Snapshot, keys: seq<Path>, k: Path, k': Path, a: Label, b: Label)
    requires k in keys && k' in keys && (Beneath(k, k') || Beneath(k', k))
    requires From(s, k, a) && From(s, k', b) && Higher(s.sourceNames, a, b) && (a.Of? && b.Of? ==> DistinctSources(s))
    ensures k' in Shadowed(s, keys) && !LosesTo(s, k, k')
  {
    HigherRanks(s, k, k', a, b);
    ConflictIsNesting(k', k);
    assert LosesTo(s, k', k);
  }

  /** An explicit value is never dropped from the single-tree view, nor replaced by an entry of a parent. */
  lemma {:induction false} ExplicitStays(s: Snapshot, keys: seq<Path>, k: Path)
    requires From(s, k, Explicit)
    ensures k !in Shadowed(s, keys) && k !in InParentSet(s)
  {
    forall k' ensures !LosesTo(s, k, k') && RankOf(s, k) <= RankOf(s, k') { ExplicitIsLeast(s, k, k'); }
    forall n: nat ensures !ParentWins(s, k, n) {
      if 0 < n < |k| { ExplicitIsLeast(s, k, Cut(k, n)); }
    }
  }

  /** So it is what an exact read of its key gives, and with no explicit key below it what every read of its
      key gives. */
  lemma {:induction false} ExplicitIsRead(s: Snapshot, k: Path, mode: ReadMode)
    requires IndicesRight(s) && k in s.values && k !in s.aliases && From(s, k, Explicit)
    ensures CodeRead(s, k, ReadExact) == Some(s.values[k])
    ensures (forall k' | k' in s.keys && Beneath(k', k) :: !From(s, k', Explicit)) ==>
              CodeRead(s, k, mode) == Some(s.values[k])
  {
    ExplicitStays(s, [], k);
    if k in s.overridden {
      assert Overridden(s, k);
      var k' :| OverriddenBy(s, k, k');
      ParentIsAbove(k', k);
      ExplicitIsLeast(s, k, k');
    }
  }

  /** An explicit value with no explicit key below it is in the single-tree view at its own path, whatever
      the sources and defaults hold above or below. */
  lemma {:induction false} ExplicitShows(s: Snapshot, k: Path)
    requires Listed(s) && k in s.keys && k !in s.aliases && k != [] && k != [[]]
    requires Below(k, [[]]) ==> [[]] !in s.keys
    requires From(s, k, Explicit)
    requires forall k' | k' in s.keys && k' !in s.aliases && Below(k', k) :: !From(s, k', Explicit)
    ensures At(AsMap(s), k) == Some(Unwrap(s.values[k]))
  {
    VisibleKeys(s);
    ExplicitStays(s, Visible(s), k);
    assert k in Visible(s);
    forall k' | k' in s.keys && k' !in s.aliases && Below(k', k) ensures Loses(s, Visible(s), k') {
      ConflictIsNesting(k', k);
      ExplicitIsLeast(s, k, k');
      assert LosesTo(s, k', k);
    }
    AsMapHoldsLeaf(s, k);
  }

  // ---------------------------------------------------------------- a key and the keys below it

  /** k', listed below k, comes from k's own layer or from a higher one. */
  ghost predicate NotLower(s: Snapshot, k: Path, k': Path, a: Label, b: Label) {
    && k' in s.keys && k' !in s.aliases && Beneath(k', k)
    && From(s, k, a) && From(s, k', b) && (a == b || Higher(s.sourceNames, b, a))
  }

  /** A key with a value that is no map, and a key below it from its own layer or a higher one: a map read
      gives the section, an exact read the value, and a plain read the value unless it is null. Where the
      value is a map the key below takes over from a higher layer only. */
  lemma {:induction false} SectionTakesOver(s: Snapshot, k: Path, k': Path, a: Label, b: Label)
    requires Listed(s) && IndicesRight(s) && (a.Of? && b.Of? ==> DistinctSources(s))
    requires k in s.values && k !in s.aliases && k !in s.inParent && k != []
    requires NotLower(s, k, k', a, b) && (s.values[k].data.Map? ==> a != b)
    ensures Subtree(s, k).Some? && CodeRead(s, k, ReadSection) == Subtree(s, k)
    ensures CodeRead(s, k, ReadExact) == Some(s.values[k])
    ensures CodeRead(s, k, ReadGet) == if s.values[k].data.Null? then Subtree(s, k) else Some(s.values[k])
  {
    ParentIsAbove(k', k);
    if a != b { HigherRanks(s, k', k, b, a); }
    assert OverriddenBy(s, k, k');
    assert Overridden(s, k);
    UnderMember(s.keys, s.aliases.Keys, k, k');
  }

  /** A key all of whose listed keys below come from lower layers, or from its own while it holds a map, is
      read as its own value in every mode. */
  lemma {:induction false} ValueStays(s: Snapshot, k: Path, mode: ReadMode, a: Label)
    requires IndicesRight(s) && (a.Of? ==> DistinctSources(s))
    requires k in s.values && k !in s.aliases && k !in s.inParent && From(s, k, a)
    requires forall k' | k' in s.keys && k' !in s.aliases && Beneath(k', k) ::
      exists b :: From(s, k', b) && (Higher(s.sourceNames, a, b) || (a == b && s.values[k].data.Map?))
    ensures CodeRead(s, k, mode) == Some(s.values[k])
  {
    forall k' ensures !OverriddenBy(s, k, k') {
      ParentIsAbove(k', k);
      if k' in s.keys && k' !in s.aliases && Beneath(k', k) {
        var b :| From(s, k', b) && (Higher(s.sourceNames, a, b) || (a == b && s.values[k].data.Map?));
        if Higher(s.sourceNames, a, b) { HigherRanks(s, k, k', a, b); }
      }
    }
    assert !Overridden(s, k);
  }

  /** An entry of a map at a parent from a higher layer takes the place of k's own value. */
  lemma {:induction false} ParentTakesOver(s: Snapshot, k: Path, n: nat, a: Label, b: Label)
    requires IndicesRight(s) && k in s.values && k !in s.aliases && (a.Of? && b.Of? ==> DistinctSources(s))
    requires 0 < n < |k| && EntryUnder(s, Cut(k, n), Rest(k, n)).Some?
    requires From(s, k, a) && From(s, Cut(k, n), b) && Higher(s.sourceNames, b, a)
    ensures k in s.inParent && FromParents(s, k).Some?
    ensures forall mode :: CodeRead(s, k, mode) == FromParents(s, k)
  {
    HigherRanks(s, Cut(k, n), k, b, a);
    assert ParentWins(s, k, n);
    YieldsIffParentBest(s, k);
  }

  // ---------------------------------------------------------------- the tag of a section

  /** l is the tag of the kept key at i, which ranks before those of the kept keys in front of it and not
      after those of the others. */
  ghost predicate TagAt(s: Snapshot, keys: seq<Path>, drop: set<Path>, l: Label, i: nat) {
    && i < |keys| && keys[i] !in drop && keys[i] in s.values && s.values[keys[i]].source == l
    && forall j | 0 <= j < |keys| && keys[j] !in drop && keys[j] in s.values ::
         var r := RankFor(s.sourceNames, s.values[keys[j]].source);
         if j < i then RankFor(s.sourceNames, l) < r else RankFor(s.sourceNames, l) <= r
  }

  ghost predicate TopTag(s: Snapshot, keys: seq<Path>, drop: set<Path>, l: Label) {
    exists i :: TagAt(s, keys, drop, l, i)
  }

  lemma {:induction false} TopSourceIs(s: Snapshot, keys: seq<Path>, drop: set<Path>)
    ensures TopSource(s, keys, drop).None? <==> forall k | k in keys :: k in drop || k !in s.values
    ensures TopSource(s, keys, drop).Some? ==> TopTag(s, keys, drop, TopSource(s, keys, drop).value)
  {
    if keys != [] {
      var n := |keys| - 1;
      var front, top := keys[..n], TopSource(s, keys, drop);
      assert forall k :: k in keys <==> k in front || k == keys[n];
      TopSourceIs(s, front, drop);
      if top.Some? {
        if TopSource(s, front, drop) == top {
          var i: nat :| TagAt(s, front, drop, top.value, i);
          assert TagAt(s, keys, drop, top.value, i);
        } else {
          assert TagAt(s, keys, drop, top.value, n);
        }
      }
    }
  }

  /** A section carries the tag of one of the keys it is assembled from, of the highest layer among those it
      keeps; some key is always kept. */
  lemma {:induction false} SectionTag(s: Snapshot, q: Path)
    requires Listed(s) && Subtree(s, q).Some?
    ensures TopTag(s, SubtreeKeys(s, q), Shadowed(s, SubtreeKeys(s, q)), Subtree(s, q).value.source)
  {
    var keys := SubtreeKeys(s, q);
    SubtreeKeysBelow(s, q);
    SomeoneStays(s, keys);
    TopSourceIs(s, keys, Shadowed(s, keys));
  }
}
