/** Remembering bound paths without a rebuild: addBoundPaths rebuilds only when some source holds one of
    the new paths. When none does, a rebuild would resolve nothing new (registry_bind.go). */
module BoundPaths {
  import opened Paths
  import opened PathOrder
  import opened Lists
  import opened Values
  import opened Aliases
  import opened Layers
  import opened Precedence
  import opened Snapshots
  import opened Views
  import opened Stamping
  import opened SnapshotBuild
  import opened Registry

  function WithBound(inp: Inputs, added: set<Path>): Inputs {
    inp.(bound := inp.bound + added)
  }

  lemma {:induction false} NoPin(sources: seq<Source>, names: seq<Path>, pin: Bytes)
    requires NoHolder(sources, names)
    ensures FromPin(sources, pin, names).None?
  {
    if sources != [] { NoPin(sources[1..], names, pin); }
  }

  lemma {:induction false} NothingResolved(inp: Inputs, c: Path, names: seq<Path>)
    requires FirstIn(inp.explicits, names).None? && FirstIn(inp.defaults, names).None?
    requires NoHolder(inp.sources, names)
    ensures ResolveIn(inp, c, names) == None
  {
    NoSupply(inp.sources, names);
    if c in inp.pins { NoPin(inp.sources, names, inp.pins[c]); }
  }

  /** A path that no layer, source or alias knows has one spelling, and no value under it. */
  lemma {:induction false} UnknownPath(inp: Inputs, p: Path)
    requires p !in Candidates(inp) && p !in Roots(inp)
    requires forall i | 0 <= i < |inp.sources| :: !inp.sources[i].get(p).Hit?
    ensures Resolution(inp, p) == None
  {
    assert (set a | a in inp.aliases && Target(inp.aliases, a) == p) == {} by {
      forall a | a in inp.aliases ensures Target(inp.aliases, a) != p { assert a in Candidates(inp); }
    }
    assert AliasesOf(inp.aliases, p) == [] && [p] + [] == [p] && [p][1..] == [];
    forall i | 0 <= i < |inp.sources| ensures FirstHit(inp.sources[i], [p]).None? {}
    NothingResolved(inp, p, [p]);
  }

  lemma {:induction false} SameCanonical(inp: Inputs, added: set<Path>)
    requires !AnySourceHas(inp.sources, added)
    ensures Canonical(WithBound(inp, added)) == Canonical(inp)
  {
    var more := WithBound(inp, added);
    assert Candidates(more) == Candidates(inp) + added;
    forall c ensures Resolution(more, c) == Resolution(inp, c) {}
    forall c | c in Roots(more) && Resolution(inp, c).Some? ensures c in Roots(inp) {
      var p :| p in Candidates(more) && Target(inp.aliases, p) == c;
      if p !in Candidates(inp) {
        assert p !in inp.aliases && c == p;
        if c !in Roots(inp) { UnknownPath(inp, p); }
      }
    }
    forall c | c in Roots(inp) ensures c in Roots(more) {
      var p :| p in Candidates(inp) && Target(inp.aliases, p) == c;
      assert p in Candidates(more);
    }
  }

  // ---------------------------------------------------------------- the listing

  /** The keys up for listing, in order. */
  ghost function Unlisted(inp: Inputs, full: map<Path, Resolved>): seq<Path> {
    SortSet(full.Keys - Duplicates(inp, full))
  }

  lemma {:induction false} ListingMember(inp: Inputs, full: map<Path, Resolved>, k: Path)
    ensures k in Listing(inp, full) <==>
      k in full && !Duplicate(inp, full, k) && !ListedByParts(inp, full, Unlisted(inp, full), k)
  {
    var all := Unlisted(inp, full);
    KeepMember(all, k => !ListedByParts(inp, full, all, k), k);
  }

  /** Binding the added paths too makes no listed key a second spelling of one of them, and puts no added
      path with a value aside for the keys below it. */
  ghost predicate NothingHidden(inp: Inputs, added: set<Path>, full: map<Path, Resolved>) {
    && (forall e | Duplicate(WithBound(inp, added), full, e) :: Duplicate(inp, full, e))
    && (forall p | p in added && ListedByParts(WithBound(inp, added), full, Unlisted(inp, full), p) :: p in inp.bound)
  }

  lemma {:induction false} BoundGrows(inp: Inputs, added: set<Path>, full: map<Path, Resolved>)
    ensures forall k :: BoundOnly(WithBound(inp, added), k) <==>
      BoundOnly(inp, k) || (k in added && BoundOnly(inp.(bound := {k}), k))
    ensures forall e | Duplicate(inp, full, e) :: Duplicate(WithBound(inp, added), full, e)
  {
    forall e | Duplicate(inp, full, e) ensures Duplicate(WithBound(inp, added), full, e) {
      var b :| DuplicateOf(inp, full, b, e);
      assert DuplicateOf(WithBound(inp, added), full, b, e);
    }
  }

  lemma {:induction false} SameListing(inp: Inputs, added: set<Path>, full: map<Path, Resolved>)
    requires NothingHidden(inp, added, full)
    ensures Listing(WithBound(inp, added), full) == Listing(inp, full)
  {
    var more := WithBound(inp, added);
    BoundGrows(inp, added, full);
    assert Duplicates(more, full) == Duplicates(inp, full);
    var all := Unlisted(inp, full);
    forall k ensures ListedByParts(more, full, all, k) <==> ListedByParts(inp, full, all, k) {}
    KeepSame(all, k => !ListedByParts(more, full, all, k), k => !ListedByParts(inp, full, all, k));
  }

  lemma {:induction false} HiddenIsMissed(inp: Inputs, added: set<Path>, full: map<Path, Resolved>)
    requires !NothingHidden(inp, added, full)
    ensures Listing(WithBound(inp, added), full) != Listing(inp, full)
  {
    var more := WithBound(inp, added);
    if e :| Duplicate(more, full, e) && !Duplicate(inp, full, e) {
      var b :| DuplicateOf(more, full, b, e);
      ListingMember(inp, full, e);
      ListingMember(more, full, e);
    } else {
      var p :| p in added && ListedByParts(more, full, Unlisted(inp, full), p) && p !in inp.bound;
      BoundGrows(inp, added, full);
      assert Duplicates(more, full) == Duplicates(inp, full);
      forall b ensures !DuplicateOf(inp, full, b, p) {}
      ListingMember(inp, full, p);
      ListingMember(more, full, p);
    }
  }

  lemma {:induction false} FrameByListing(inp: Inputs, added: set<Path>, full: map<Path, Resolved>)
    ensures Indexed(Frame(WithBound(inp, added), full)) == Indexed(Frame(inp, full)) <==>
      Listing(WithBound(inp, added), full) == Listing(inp, full)
  {
    var s, t := Frame(WithBound(inp, added), full), Frame(inp, full);
    assert Indexed(s).keys == s.keys && Indexed(t).keys == t.keys;
    if s.keys == t.keys { assert s == t; }
  }

  // ---------------------------------------------------------------- what a rebuild would change

  ghost function FullOf(inp: Inputs, order: seq<Path>): map<Path, Resolved> {
    StampAlong(inp.aliases, Canonical(Flattened(inp)), order)
  }

  /** Bound paths that no source holds give a rebuild no new value and no new provenance; and it gives
      the very same snapshot exactly when nothing is hidden by them. */
  lemma {:induction false} UnheldBoundPaths(inp: Inputs, order: seq<Path>, added: set<Path>)
    requires !AnySourceHas(inp.sources, added)
    ensures var before, after := BuildAlong(inp, order), BuildAlong(WithBound(inp, added), order);
      && after.values == before.values && after.sources == before.sources && after.lookupKeys == before.lookupKeys
      && (after == before <==> NothingHidden(Flattened(inp), added, FullOf(inp, order)))
  {
    var flat, full := Flattened(inp), FullOf(inp, order);
    assert Flattened(WithBound(inp, added)) == WithBound(flat, added);
    SameCanonical(flat, added);
    FrameByListing(flat, added, full);
    if NothingHidden(flat, added, full) { SameListing(flat, added, full); } else { HiddenIsMissed(flat, added, full); }
  }

  // A path p with an empty map, held under its alias a, and a listed key p.x below it.
  const A: Path := [[97]]
  const P: Path := [[112]]
  const PX: Path := [[112], [120]]
  const EMPTY_MAP := Value(Map(map[]), Label.Unset)
  const NULL := Value(Null, Label.Unset)
  const ALIASED := Inputs([], map[A := EMPTY_MAP, PX := NULL], map[], map[A := P], map[], {}, {}, MergeShadow)

  lemma {:induction false} AliasedResolves()
    ensures P in Canonical(ALIASED) && Canonical(ALIASED)[P].value.data.Map? && PX in Canonical(ALIASED)
  {
    var g := ALIASED.aliases;
    assert Target(g, A) == Resolve(g, P, 31) == P && Target(g, PX) == PX;
    assert A in Candidates(ALIASED) && PX in Candidates(ALIASED);
    assert P in Roots(ALIASED) && PX in Roots(ALIASED);
    assert AliasesOf(g, P) == [A] by {
      assert (set a | a in g && Target(g, a) == P) == {A};
      InOrderUnique(AliasesOf(g, P), [A]);
    }
    assert ([P] + [A])[1..] == [A];
    assert FirstIn(ALIASED.explicits, [P] + AliasesOf(g, P)) == Some(EMPTY_MAP);
    assert FirstIn(ALIASED.explicits, [PX] + AliasesOf(g, PX)) == Some(NULL);
  }

  lemma {:induction false} AliasedFull()
    ensures Flattened(ALIASED) == ALIASED
    ensures var full := FullOf(ALIASED, [A]); P in full && full[P].value.data.Map? && PX in full
  {
    FlattenFlat(ALIASED.explicits);
    FlattenFlat(ALIASED.defaults);
    AliasedResolves();
    StampsElsewhere(ALIASED.aliases, Canonical(ALIASED), [A], P);
    StampsElsewhere(ALIASED.aliases, Canonical(ALIASED), [A], PX);
  }

  lemma {:induction false} NoSourceNoDuplicate(inp: Inputs, full: map<Path, Resolved>, e: Path)
    requires inp.sources == []
    ensures !Duplicate(inp, full, e)
  {
    forall b ensures !DuplicateOf(inp, full, b, e) {}
  }

  lemma {:induction false} AliasedListing(full: map<Path, Resolved>)
    requires P in full && full[P].value.data.Map? && PX in full
    ensures P in Listing(ALIASED, full) && P !in Listing(WithBound(ALIASED, {P}), full)
  {
    var more := WithBound(ALIASED, {P});
    forall e ensures !Duplicate(ALIASED, full, e) && !Duplicate(more, full, e) {
      NoSourceNoDuplicate(ALIASED, full, e);
      NoSourceNoDuplicate(more, full, e);
    }
    BelowStarts(P, PX);
    assert PX in Unlisted(more, full);
    ListingMember(ALIASED, full, P);
    ListingMember(more, full, P);
  }

  /** A bound path that does have a value, here through an alias, can be listed now and hidden by the next
      rebuild, although no source holds it. */
  lemma {:induction false} AliasedPathIsHidden()
    ensures !AnySourceHas(ALIASED.sources, {P}) && Orders([A], ALIASED.aliases.Keys)
    ensures P in BuildAlong(ALIASED, [A]).keys && P !in BuildAlong(WithBound(ALIASED, {P}), [A]).keys
  {
    AliasedFull();
    assert Flattened(WithBound(ALIASED, {P})) == WithBound(ALIASED, {P});
    SameCanonical(ALIASED, {P});
    AliasedListing(FullOf(ALIASED, [A]));
  }

  lemma {:induction false} ValuelessHideNothing(inp: Inputs, added: set<Path>, full: map<Path, Resolved>)
    requires forall p | p in added :: p !in full
    ensures NothingHidden(inp, added, full)
  {
    forall e | Duplicate(WithBound(inp, added), full, e) ensures Duplicate(inp, full, e) {
      var b :| DuplicateOf(WithBound(inp, added), full, b, e);
      assert DuplicateOf(inp, full, b, e);
    }
  }

  lemma {:induction false} UnansweredHasNoValue(s: Snapshot, p: Path)
    requires CodeRead(s, p, ReadGet).None?
    ensures p !in s.values
  {}

  /** A bind adds only paths its snapshot does not answer. These have no value, and then a rebuild would
      give the snapshot already installed. */
  lemma {:induction false} UnansweredBoundPaths(inp: Inputs, order: seq<Path>, added: set<Path>)
    requires !AnySourceHas(inp.sources, added)
    requires forall p | p in added :: CodeRead(BuildAlong(inp, order), p, ReadGet).None?
    ensures BuildAlong(WithBound(inp, added), order) == BuildAlong(inp, order)
  {
    var s, full := BuildAlong(inp, order), FullOf(inp, order);
    forall p | p in added ensures p !in full {
      UnansweredHasNoValue(s, p);
      assert s.values.Keys == full.Keys;
    }
    ValuelessHideNothing(Flattened(inp), added, full);
    UnheldBoundPaths(inp, order, added);
  }
}
