/** What the single-tree view and a section do not hold, when there is a section, and what an entry inside a
    value is (snapshot.go). */
module TreeContents {
  import opened Paths
  import opened PathOrder
  import opened Values
  import opened Trees
  import opened Snapshots
  import opened Views

  /** The entry at r inside a value is the part at r of the plain data that the value holds. */
  lemma {:induction false} EntryIsPart(v: Value, r: Path)
    requires r != []
    ensures EntryAt(v, r).Some? <==> v.data.Map? && At(Unwrap(v).fields, r).Some?
    ensures EntryAt(v, r).Some? ==> At(Unwrap(v).fields, r) == Some(Unwrap(EntryAt(v, r).value))
    decreases |r|
  {
    if v.data.Map? && r[0] in v.data.entries && |r| > 1 { EntryIsPart(v.data.entries[r[0]], r[1..]); }
  }

  /** The tree holds nothing at a path that no kept key lies at, above or below. */
  lemma {:induction false} NothingElseWritten(s: Snapshot, keys: seq<Path>, drop: set<Path>, q: Path)
    requires q != [] && forall k | k in keys && k !in drop && k in s.values :: !Related(k, q)
    ensures At(Assemble(s, keys, drop, 0), q) == None
  {
    if keys == [] {
      AtEmpty(q);
    } else {
      var front, k := keys[..|keys| - 1], keys[|keys| - 1];
      assert forall x | x in front :: x in keys;
      NothingElseWritten(s, front, drop, q);
      assert k in keys && k[0..] == k;
      if k !in drop && k in s.values { SetElsewhere(Assemble(s, front, drop, 0), k, Unwrap(s.values[k]), q); }
    }
  }

  /** So the single-tree view shows something at a path only on account of a listed key at, above or below it
      that is no alias and that no conflicting key outranks. */
  lemma {:induction false} ShownIsListed(s: Snapshot, q: Path) returns (k: Path)
    requires Listed(s) && q != [] && At(AsMap(s), q).Some?
    ensures k in s.keys && k !in s.aliases && Related(k, q) && !Outranked(s, Visible(s), k)
  {
    var keys := Visible(s);
    var drop := Shadowed(s, keys);
    VisibleKeys(s);
    if forall x | x in keys && x !in drop && x in s.values :: !Related(x, q) { NothingElseWritten(s, keys, drop, q); }
    k :| k in keys && k !in drop && k in s.values && Related(k, q);
    DroppedIffOutranked(s, keys, k);
  }

  lemma {:induction false} Elements(ps: seq<Path>)
    requires InOrder(ps)
    ensures |set k | k in ps| == |ps|
  {
    if ps != [] {
      var rest := ps[1..];
      Elements(rest);
      forall i | 0 <= i < |rest| ensures rest[i] != ps[0] { BeforeTotal(ps[0], ps[i + 1]); }
      ElementsCons(ps[0], rest);
      assert ps == [ps[0]] + rest;
    }
  }

  lemma {:induction false} ElementsCons(p: Path, rest: seq<Path>)
    requires forall i | 0 <= i < |rest| :: rest[i] != p
    ensures |set k | k in [p] + rest| == 1 + |set k | k in rest|
  {
    assert (set k | k in [p] + rest) == {p} + set k | k in rest;
  }

  lemma {:induction false} MoreResolved(a: seq<Path>, b: seq<Path>, k: Path)
    requires InOrder(a) && InOrder(b) && (forall x | x in a :: x in b) && k in b && k !in a
    ensures |a| < |b|
  {
    Elements(a);
    Elements(b);
    var sa, sb := set x | x in a, set x | x in b;
    assert sa <= sb - {k};
    SubsetSize(sa, sb - {k});
  }

  lemma {:induction false} SubsetSize(a: set<Path>, b: set<Path>)
    requires a <= b
    ensures |a| <= |b|
  {
    if a != {} {
      var x :| x in a;
      SubsetSize(a - {x}, b - {x});
    }
  }

  /** There is a section at q exactly when some key below q has a value, listed or not, and is no alias; the
      root and the single empty segment have none. */
  lemma {:induction false} SectionIff(s: Snapshot, q: Path)
    requires Listed(s)
    ensures Subtree(s, q).Some? <==>
      q != [] && q != [[]] && exists k :: k in s.values && k !in s.aliases && Below(k, q)
  {
    if Subtree(s, q).Some? {
      SubtreeKeysBelow(s, q);
      assert SubtreeKeys(s, q)[0] in SubtreeKeys(s, q);
    }
    if k :| k in s.values && k !in s.aliases && Below(k, q) {
      UnderMember(s.keys, s.aliases.Keys, q, k);
      UnderMember(s.lookupKeys, s.aliases.Keys, q, k);
      if k !in s.keys { MoreResolved(s.keys, s.lookupKeys, k); }
    }
  }

  /** It is assembled from the listed keys below q, or, if there are none, from those that are resolved but
      not listed. */
  lemma {:induction false} SectionKeys(s: Snapshot, q: Path, k: Path)
    requires Listed(s) && q != [] && q != [[]]
    ensures k in SubtreeKeys(s, q) <==>
      && k in s.values && k !in s.aliases && Below(k, q)
      && (k in s.keys || forall x | x in s.keys && x !in s.aliases :: !Below(x, q))
  {
    var listed := Under(s.keys, s.aliases.Keys, q);
    UnderMember(s.keys, s.aliases.Keys, q, k);
    UnderMember(s.lookupKeys, s.aliases.Keys, q, k);
    forall x ensures x in listed <==> x in s.keys && x !in s.aliases && Below(x, q) {
      UnderMember(s.keys, s.aliases.Keys, q, x);
    }
    assert listed != [] ==> listed[0] in listed;
    if k in s.values && k !in s.keys { MoreResolved(s.keys, s.lookupKeys, k); }
  }
}
