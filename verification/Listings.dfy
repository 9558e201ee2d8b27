/** Which of the keys with a value a built snapshot lists, in terms of the inputs and its values alone
    (snapshot.go). */
module Listings {
  import opened Paths
  import opened Values
  import opened Layers
  import opened Precedence
  import opened Snapshots
  import opened SnapshotBuild
  import opened BoundPaths
  import opened KeysHeld
  import opened LayerOrder

  /** A bind has read k, and nothing else mentions it. */
  ghost predicate OnlyBound(inp: Inputs, k: Path) {
    && k in inp.bound && k !in inp.aliases && !HasLeaf(inp.explicits, k) && !HasLeaf(inp.defaults, k)
    && forall i | 0 <= i < |inp.sources| :: k !in inp.sources[i].keys
  }

  ghost predicate SourceListed(inp: Inputs, e: Path) {
    exists i :: 0 <= i < |inp.sources| && e in inp.sources[i].keys
  }

  /** The i-th source, the first with its name, supplies both b and e and reads the same entry of its store
      for them. */
  ghost predicate SameEntry(inp: Inputs, s: Snapshot, i: nat, b: Path, e: Path) {
    && i < |inp.sources| && (forall j | 0 <= j < i :: inp.sources[j].name != inp.sources[i].name)
    && From(s, b, Of(inp.sources[i].name)) && From(s, e, Of(inp.sources[i].name))
    && inp.sources[i].native.Some? && inp.sources[i].native.value(b) == inp.sources[i].native.value(e)
  }

  /** e, which a source lists, is a second spelling of b, which only a bind has read. */
  ghost predicate Twin(inp: Inputs, s: Snapshot, b: Path, e: Path) {
    && b != e && OnlyBound(inp, b) && SourceListed(inp, e) && b in s.values && e in s.values
    && exists i: nat :: SameEntry(inp, s, i, b, e)
  }

  ghost predicate HasTwin(inp: Inputs, s: Snapshot, e: Path) {
    exists b :: Twin(inp, s, b, e)
  }

  /** k holds a map that only a bind has read, and there are keys with values below it. */
  ghost predicate InParts(inp: Inputs, s: Snapshot, k: Path) {
    && k in s.values && s.values[k].data.Map? && OnlyBound(inp, k) && k != [[]]
    && exists q :: q in s.values && !HasTwin(inp, s, q) && (if k == [] then RootStarts(q) else Below(q, k))
  }

  /** q's string starts with a dot: the string in front of it is that of the root. */
  predicate RootStarts(q: Path) {
    |q| >= 2 && q[0] == []
  }

  lemma {:induction false} StartsAtRoot(q: Path)
    ensures StartsWith(Canon(q), Canon([]) + [DOT]) <==> RootStarts(q)
  {
    assert Canon([]) + [DOT] == [DOT];
    if |q| >= 1 { assert q[0] == [] ==> Segment(q[0]) == []; }
    if |q| == 1 && q != [[]] { SegmentStart(q[0]); }
    if |q| >= 2 && q[0] != [] { SegmentStart(q[0]); }
  }

  lemma {:induction false} SegmentStart(seg: Bytes)
    requires seg != []
    ensures Segment(seg) != [] && Segment(seg)[0] != DOT
  {
    if NeedsBrackets(seg) {} else { assert seg[0] in seg; }
  }

  lemma {:induction false} NativeIs(sources: seq<Source>, i: nat)
    requires i < |sources| && forall j | 0 <= j < i :: sources[j].name != sources[i].name
    ensures NativeOf(sources, Of(sources[i].name)) == sources[i].native
  {
    if i > 0 { NativeIs(sources[1..], i - 1); }
  }

  lemma {:induction false} NativeFound(sources: seq<Source>, who: Label) returns (i: nat)
    requires NativeOf(sources, who).Some?
    ensures i < |sources| && Of(sources[i].name) == who && forall j | 0 <= j < i :: sources[j].name != sources[i].name
  {
    if Of(sources[0].name) == who {
      i := 0;
    } else {
      i := NativeFound(sources[1..], who);
      i := i + 1;
    }
  }

  lemma {:induction false} OnlyBoundIff(inp: Inputs, k: Path)
    ensures BoundOnly(Flattened(inp), k) <==> OnlyBound(inp, k)
    ensures k in SourceKeys(inp.sources) <==> SourceListed(inp, k)
  {
    FlattenMeaning(inp.explicits, k);
    FlattenMeaning(inp.defaults, k);
    SourceKeysAre(inp.sources, k);
  }

  /** s carries what full says. */
  ghost predicate Shows(s: Snapshot, full: map<Path, Resolved>) {
    && s.values == (map k | k in full :: full[k].value) && s.sources == map k | k in full :: full[k].sources
  }

  lemma {:induction false} TwinIff(inp: Inputs, s: Snapshot, full: map<Path, Resolved>, b: Path, e: Path)
    requires Shows(s, full)
    ensures DuplicateOf(Flattened(inp), full, b, e) <==> Twin(inp, s, b, e)
  {
    OnlyBoundIff(inp, b);
    OnlyBoundIff(inp, e);
    if DuplicateOf(Flattened(inp), full, b, e) {
      var i := NativeFound(inp.sources, full[b].sources[0]);
      NativeIs(inp.sources, i);
      assert SameEntry(inp, s, i, b, e);
    }
    if Twin(inp, s, b, e) {
      var i: nat :| SameEntry(inp, s, i, b, e);
      NativeIs(inp.sources, i);
    }
  }

  lemma {:induction false} HasTwinIff(inp: Inputs, s: Snapshot, full: map<Path, Resolved>, e: Path)
    requires Shows(s, full)
    ensures Duplicate(Flattened(inp), full, e) <==> HasTwin(inp, s, e)
  {
    forall b ensures DuplicateOf(Flattened(inp), full, b, e) <==> Twin(inp, s, b, e) { TwinIff(inp, s, full, b, e); }
  }

  lemma {:induction false} InPartsIff(inp: Inputs, s: Snapshot, full: map<Path, Resolved>, k: Path)
    requires Shows(s, full)
    ensures ListedByParts(Flattened(inp), full, Unlisted(Flattened(inp), full), k) <==> InParts(inp, s, k)
  {
    var all := Unlisted(Flattened(inp), full);
    OnlyBoundIff(inp, k);
    forall q
      ensures q in all <==> q in s.values && !HasTwin(inp, s, q)
      ensures StartsWith(Canon(q), Canon(k) + [DOT]) <==> k != [[]] && if k == [] then RootStarts(q) else Below(q, k)
    {
      HasTwinIff(inp, s, full, q);
      if k == [] { StartsAtRoot(q); } else if k == [[]] { NothingBelowEmpty(q); } else { StartsIffBelow(k, q); }
    }
  }

  lemma {:induction false} StartsIffBelow(k: Path, q: Path)
    requires k != [] && k != [[]]
    ensures StartsWith(Canon(q), Canon(k) + [DOT]) <==> Below(q, k)
  {
    StringPrefixIsPathPrefix(k);
  }

  /** A built snapshot lists a key exactly when it has a value and is neither the second spelling of a bound
      key nor a bound map whose parts are there themselves. */
  lemma {:induction false} ListedIff(inp: Inputs, order: seq<Path>, k: Path)
    ensures var s := BuildAlong(inp, order);
      k in s.keys <==> k in s.values && !HasTwin(inp, s, k) && !InParts(inp, s, k)
  {
    var s, full := BuildAlong(inp, order), FullOf(inp, order);
    assert Shows(s, full);
    HasTwinIff(inp, s, full, k);
    InPartsIff(inp, s, full, k);
    ListingMember(Flattened(inp), full, k);
  }
}
