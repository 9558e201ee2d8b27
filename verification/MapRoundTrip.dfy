/** From a nested map through a map source, a built snapshot and its single-tree view: the leaves that
    went in are the leaves that come out (source_map.go, snapshot.go). */
module MapRoundTrip {
  import opened Paths
  import opened PathOrder
  import opened Lists
  import opened Values
  import opened Aliases
  import opened Layers
  import opened Trees
  import opened Precedence
  import opened Snapshots
  import opened Views
  import opened Stamping
  import opened SnapshotBuild
  import M = MapSources

  // ---------------------------------------------------------------- leaves of trees

  lemma {:induction false} AtAbove(m: Tree, q: Path, p: Path)
    requires At(m, q).Some? && Below(q, p)
    ensures At(m, p).Some? && At(m, p).value.Dict?
    decreases |p|
  {
    if p != [] {
      assert q[0] == p[0] && |q| > 1;
      PrefixTail(q, p);
      AtAbove(m[q[0]].fields, q[1..], p[1..]);
      if |p| == 1 { assert p[1..] == []; }
    }
  }

  /** No leaf lies below another. */
  lemma {:induction false} LeavesApart(m: Tree, p: Path, q: Path)
    requires M.IsLeaf(m, p) && M.IsLeaf(m, q) && p != q
    ensures !Related(p, q)
  {
    if |p| == |q| { assert p[..|p|] == p && q[..|q|] == q; }
    if Below(q, p) { AtAbove(m, q, p); }
    if Below(p, q) { AtAbove(m, p, q); }
  }

  ghost predicate Free(t: Tree, k: Path) {
    forall q | M.IsLeaf(t, q) :: !Related(q, k)
  }

  lemma {:induction false} LeafDown(t: Tree, seg: Bytes, q: Path)
    requires q != []
    ensures M.IsLeaf(t, [seg] + q) <==> M.IsLeaf(Child(t, seg), q)
  {}

  lemma {:induction false} FreeDown(t: Tree, k: Path)
    requires |k| > 1 && Free(t, k)
    ensures Free(Child(t, k[0]), k[1..])
  {
    forall q | M.IsLeaf(Child(t, k[0]), q) ensures !Related(q, k[1..]) {
      var p := [k[0]] + q;
      LeafDown(t, k[0], q);
      assert p[1..] == q;
      RelatedTail(p, k);
    }
  }

  /** Writing a plain value where nothing is in the way adds one leaf and keeps the others. */
  lemma {:induction false} SetLeaf(t: Tree, k: Path, v: Any, q: Path)
    requires k != [] && !v.Dict? && Free(t, k)
    ensures M.IsLeaf(SetNested(t, k, v), q) <==> q == k || M.IsLeaf(t, q)
    decreases |k|
  {
    if q != [] && q[0] == k[0] {
      if |k| == 1 {
        assert q[..1] == k && HasPrefix(q, k);
        assert !M.IsLeaf(t, q);
      } else if |q| == 1 {
        assert k[..1] == q && HasPrefix(k, q);
        assert !M.IsLeaf(t, q);
      } else {
        FreeDown(t, k);
        SetLeaf(Child(t, k[0]), k[1..], v, q[1..]);
        assert q == [k[0]] + q[1..] && k == [k[0]] + k[1..];
        LeafDown(t, k[0], q[1..]);
        LeafDown(SetNested(t, k, v), k[0], q[1..]);
      }
    }
  }

  /** No nested map is empty. */
  ghost predicate Solid(a: Any) {
    a.Dict? ==> forall k | k in a.fields :: Solid(a.fields[k]) && (a.fields[k].Dict? ==> a.fields[k].fields != map[])
  }

  lemma {:induction false} SetSolid(t: Tree, k: Path, v: Any)
    requires k != [] && !v.Dict? && Solid(Dict(t))
    ensures Solid(Dict(SetNested(t, k, v))) && SetNested(t, k, v) != map[]
    decreases |k|
  {
    assert k[0] in SetNested(t, k, v);
    if |k| > 1 {
      assert Solid(Dict(Child(t, k[0])));
      SetSolid(Child(t, k[0]), k[1..], v);
    }
  }

  lemma {:induction false} HasLeaf(a: Any) returns (q: Path)
    requires a.Dict? && a.fields != map[] && Solid(a)
    ensures M.IsLeaf(a.fields, q)
    decreases a
  {
    var k :| k in a.fields;
    if a.fields[k].Dict? {
      var rest := HasLeaf(a.fields[k]);
      LeafDown(a.fields, k, rest);
      q := [k] + rest;
    } else {
      q := [k];
    }
  }

  ghost predicate SameLeaves(a: Tree, b: Tree) {
    forall q :: (M.IsLeaf(a, q) <==> M.IsLeaf(b, q)) && (M.IsLeaf(a, q) ==> At(a, q) == At(b, q))
  }

  lemma {:induction false} AtDown(t: Tree, seg: Bytes, q: Path)
    requires q != []
    ensures At(t, [seg] + q) == At(Child(t, seg), q)
  {}

  lemma {:induction false} ChildLeaves(a: Tree, b: Tree, k: Bytes)
    requires SameLeaves(a, b)
    ensures SameLeaves(Child(a, k), Child(b, k))
  {
    forall q
      ensures M.IsLeaf(Child(a, k), q) <==> M.IsLeaf(Child(b, k), q)
      ensures M.IsLeaf(Child(a, k), q) ==> At(Child(a, k), q) == At(Child(b, k), q)
    {
      if q != [] {
        var p := [k] + q;
        assert (M.IsLeaf(a, p) <==> M.IsLeaf(b, p)) && (M.IsLeaf(a, p) ==> At(a, p) == At(b, p));
        LeafDown(a, k, q);
        LeafDown(b, k, q);
        AtDown(a, k, q);
        AtDown(b, k, q);
      }
    }
  }

  lemma {:induction false} LeafMatches(a: Tree, b: Tree, k: Bytes)
    requires SameLeaves(a, b) && k in a && !a[k].Dict?
    ensures k in b && b[k] == a[k]
  {
    assert M.IsLeaf(a, [k]) && At(a, [k]) == At(b, [k]);
  }

  lemma {:induction false} SectionMatches(a: Tree, b: Tree, k: Bytes)
    requires SameLeaves(a, b) && k in a && a[k].Dict? && Solid(Dict(a))
    ensures k in b && b[k].Dict?
  {
    var q := HasLeaf(a[k]);
    LeafDown(a, k, q);
    assert M.IsLeaf(a, [k] + q) && M.IsLeaf(b, [k] + q);
    AtDown(b, k, q);
    LeafDown(b, k, q);
    if !(k in b && b[k].Dict?) { AtEmpty(q); }
  }

  /** Trees without empty maps are determined by their leaves. */
  lemma {:induction false} LeavesDetermine(a: Any, b: Any)
    requires a.Dict? && b.Dict? && Solid(a) && Solid(b) && SameLeaves(a.fields, b.fields)
    ensures a == b
    decreases a
  {
    forall k | k in a.fields ensures k in b.fields && a.fields[k] == b.fields[k] {
      if a.fields[k].Dict? {
        SectionMatches(a.fields, b.fields, k);
        ChildLeaves(a.fields, b.fields, k);
        LeavesDetermine(a.fields[k], b.fields[k]);
      } else {
        LeafMatches(a.fields, b.fields, k);
      }
    }
    forall k | k in b.fields ensures k in a.fields {
      if b.fields[k].Dict? { SectionMatches(b.fields, a.fields, k); } else { LeafMatches(b.fields, a.fields, k); }
    }
    assert a.fields == b.fields;
  }

  // ---------------------------------------------------------------- the snapshot of one map source

  ghost predicate IsMapSource(s: Source, m: Tree) {
    && M.ListsLeaves(s.keys, m)
    && forall p :: s.get(p) == if M.Find(m, p).Some? then Hit(M.Find(m, p).value) else Miss
  }

  function Alone(s: Source, merge: MergeStrategy): Inputs {
    Inputs([s], map[], map[], map[], map[], {}, {}, merge)
  }

  ghost function LeafValue(s: Source, m: Tree, p: Path): Resolved
    requires M.IsLeaf(m, p)
  {
    Resolved(WithSource(NewValue(At(m, p).value), Of(s.name)), [Of(s.name)])
  }

  lemma {:induction false} AloneResolves(s: Source, m: Tree, merge: MergeStrategy, p: Path)
    requires IsMapSource(s, m) && M.IsLeaf(m, p)
    ensures Resolution(Alone(s, merge), p) == Some(LeafValue(s, m, p))
  {
    var inp := Alone(s, merge);
    assert (set a | a in inp.aliases && Target(inp.aliases, a) == p) == {};
    assert AliasesOf(inp.aliases, p) == [] && [p] + [] == [p];
    assert FirstHit(s, [p]) == Some(NewValue(At(m, p).value));
    AloneSupplies(s, [p]);
    assert [p][1..] == [] && FirstIn(inp.explicits, [p]).None? && FirstIn(inp.defaults, [p]).None?;
    assert AllContributors(inp, [p]) == [Of(s.name)];
    assert AllContributions(inp, [p]) == [NewValue(At(m, p).value)];
  }

  lemma {:induction false} AloneSupplies(s: Source, names: seq<Path>)
    requires FirstHit(s, names).Some?
    ensures Contributors([s], names) == [Of(s.name)] && Contributions([s], names) == [FirstHit(s, names).value]
    ensures FirstSupply([s], names) == Some(WithSource(FirstHit(s, names).value, Of(s.name)))
  {}

  lemma {:induction false} AloneFull(s: Source, m: Tree, merge: MergeStrategy, p: Path)
    requires IsMapSource(s, m)
    ensures var full := Stamped(map[], Canonical(Alone(s, merge)));
      (p in full <==> M.IsLeaf(m, p)) && (p in full ==> full[p] == LeafValue(s, m, p))
  {
    var inp := Alone(s, merge);
    assert [s][1..] == [];
    assert SourceKeys([s]) == set q | q in s.keys;
    assert Candidates(inp) == set q | q in s.keys;
    assert Target(inp.aliases, p) == p;
    if p in Roots(inp) {
      var k :| k in Candidates(inp) && Target(inp.aliases, k) == p;
      assert k == p;
    }
    if M.IsLeaf(m, p) {
      assert p in s.keys && p in Candidates(inp);
      AloneResolves(s, m, merge, p);
    }
  }

  /** The leaves of the map are the keys of the snapshot, all listed, all from the one source. */
  lemma {:induction false} AloneBuild(s: Source, m: Tree, merge: MergeStrategy)
    requires IsMapSource(s, m)
    ensures var b := Build(Alone(s, merge));
      && b.aliases == map[] && InOrder(b.keys) && (forall p :: p in b.keys <==> M.IsLeaf(m, p))
      && forall p | M.IsLeaf(m, p) ::
           && p in b.values && Unwrap(b.values[p]) == Plain(At(m, p).value)
           && p in b.sources && b.sources[p] == [Of(s.name)]
  {
    var inp := Alone(s, merge);
    FlattenFlat(map[]);
    assert Flattened(inp) == inp;
    var full := Stamped(inp.aliases, Canonical(inp));
    forall p ensures (p in full <==> M.IsLeaf(m, p)) && (p in full ==> full[p] == LeafValue(s, m, p)) {
      AloneFull(s, m, merge, p);
    }
    forall p | M.IsLeaf(m, p) ensures Unwrap(full[p].value) == Plain(At(m, p).value) {
      UnwrapTagged(At(m, p).value, Of(s.name));
    }
    AllListed(inp, full);
  }

  lemma {:induction false} UnwrapTagged(a: Any, who: Label)
    ensures Unwrap(WithSource(NewValue(a), who)) == Plain(a)
  {
    UnwrapNew(a);
  }

  lemma {:induction false} AllListed(inp: Inputs, full: map<Path, Resolved>)
    requires inp.bound == {}
    ensures Listing(inp, full) == SortSet(full.Keys)
  {
    assert Duplicates(inp, full) == {} by {
      forall e ensures !Duplicate(inp, full, e) {
        forall b ensures !DuplicateOf(inp, full, b, e) {}
      }
    }
    assert full.Keys - {} == full.Keys;
    var all := SortSet(full.Keys);
    KeepAll(all, k => !ListedByParts(inp, full, all, k));
  }

  // ---------------------------------------------------------------- its tree

  /** What writing the keys one after the other leaves in the tree. */
  ghost predicate Holds(t: Tree, keys: seq<Path>, m: Tree) {
    && Solid(Dict(t))
    && forall q :: (M.IsLeaf(t, q) <==> q in keys) && (q in keys ==> At(t, q) == At(m, q))
  }

  lemma {:induction false} WriteOne(t: Tree, keys: seq<Path>, k: Path, m: Tree)
    requires Holds(t, keys, m) && k !in keys && M.IsLeaf(m, k) && forall q | q in keys :: M.IsLeaf(m, q)
    ensures Holds(SetNested(t, k, At(m, k).value), keys + [k], m)
  {
    var v := At(m, k).value;
    forall q | M.IsLeaf(t, q) ensures !Related(q, k) { LeavesApart(m, q, k); }
    SetSolid(t, k, v);
    SetThenAt(t, k, v);
    forall q
      ensures M.IsLeaf(SetNested(t, k, v), q) <==> q in keys + [k]
      ensures q in keys + [k] ==> At(SetNested(t, k, v), q) == At(m, q)
    {
      SetLeaf(t, k, v, q);
      if q in keys {
        LeavesApart(m, k, q);
        SetElsewhere(t, k, v, q);
      }
    }
  }

  /** The tree that writing m's own leaves at the keys gives, typed maps left as they are. */
  ghost function Written(m: Tree, keys: seq<Path>): Tree {
    if keys == [] then map[]
    else
      var t, a := Written(m, keys[..|keys| - 1]), At(m, keys[|keys| - 1]);
      if a.Some? then SetNested(t, keys[|keys| - 1], a.value) else t
  }

  lemma {:induction false} WriteAll(m: Tree, keys: seq<Path>)
    requires InOrder(keys) && forall p | p in keys :: M.IsLeaf(m, p)
    ensures Holds(Written(m, keys), keys, m)
  {
    if keys == [] {
      forall q: Path ensures !M.IsLeaf(map[], q) { if q != [] { AtEmpty(q); } }
    } else {
      var front, k := keys[..|keys| - 1], keys[|keys| - 1];
      assert keys == front + [k];
      WriteAll(m, front);
      LastApart(keys);
      WriteOne(Written(m, front), front, k, m);
    }
  }

  lemma {:induction false} LastApart(keys: seq<Path>)
    requires InOrder(keys) && keys != []
    ensures keys[|keys| - 1] !in keys[..|keys| - 1]
  {
    var n := |keys| - 1;
    forall i | 0 <= i < n ensures keys[i] != keys[n] {
      assert Before(keys[i], keys[n]);
      BeforeTotal(keys[i], keys[n]);
    }
  }

  /** Nothing is dropped: every key comes from the same source. */
  lemma {:induction false} NothingShadowed(s: Snapshot, keys: seq<Path>, who: Label)
    requires forall k | k in keys :: k in s.sources && s.sources[k] == [who]
    ensures Shadowed(s, keys) == {}
  {}

  // ---------------------------------------------------------------- typed maps become plain

  function PlainTree(t: Tree): Tree {
    map k | k in t :: Plain(t[k])
  }

  lemma {:induction false} UpdatePlain(t: Tree, seg: Bytes, a: Any)
    ensures PlainTree(t[seg := a]) == PlainTree(t)[seg := Plain(a)]
  {}

  lemma {:induction false} ChildPlain(t: Tree, seg: Bytes)
    requires seg in t ==> t[seg].Dict?
    ensures Child(PlainTree(t), seg) == PlainTree(Child(t, seg))
  {}

  lemma {:induction false} SetPlain(t: Tree, k: Path, v: Any)
    requires k != [] && Free(t, k)
    ensures PlainTree(SetNested(t, k, v)) == SetNested(PlainTree(t), k, Plain(v))
    decreases |k|
  {
    if |k| == 1 {
      UpdatePlain(t, k[0], v);
    } else {
      var seg := k[0];
      assert seg in t ==> t[seg].Dict? by {
        assert k[..1] == [seg] && HasPrefix(k, [seg]);
        if seg in t && !t[seg].Dict? { assert M.IsLeaf(t, [seg]); }
      }
      FreeDown(t, k);
      SetPlain(Child(t, seg), k[1..], v);
      ChildPlain(t, seg);
      var sub := SetNested(Child(t, seg), k[1..], v);
      UpdatePlain(t, seg, Dict(sub));
      assert Plain(Dict(sub)) == Dict(PlainTree(sub));
    }
  }

  lemma {:induction false} PlainAt(t: Tree, q: Path)
    requires q != [] && At(t, q).Some?
    ensures At(PlainTree(t), q) == Some(Plain(At(t, q).value))
    decreases |q|
  {
    if |q| > 1 {
      assert Plain(t[q[0]]) == Dict(PlainTree(t[q[0]].fields));
      PlainAt(t[q[0]].fields, q[1..]);
    }
  }

  /** The view's tree is the plain form of the written one. */
  lemma {:induction false} AssembleIsPlain(s: Snapshot, m: Tree, keys: seq<Path>)
    requires InOrder(keys)
    requires forall p | p in keys :: M.IsLeaf(m, p) && p in s.values && Unwrap(s.values[p]) == Plain(At(m, p).value)
    ensures Assemble(s, keys, {}, 0) == PlainTree(Written(m, keys))
  {
    if keys != [] {
      var front, k := keys[..|keys| - 1], keys[|keys| - 1];
      assert keys == front + [k] && k[0..] == k && k in keys;
      AssembleIsPlain(s, m, front);
      AssembleSnoc(s, front, k, {}, 0);
      LastApart(keys);
      WrittenFree(m, front, k);
      SetPlain(Written(m, front), k, At(m, k).value);
    }
  }

  lemma {:induction false} WrittenFree(m: Tree, front: seq<Path>, k: Path)
    requires InOrder(front) && (forall p | p in front :: M.IsLeaf(m, p)) && M.IsLeaf(m, k) && k !in front
    ensures Free(Written(m, front), k)
  {
    WriteAll(m, front);
    forall q | M.IsLeaf(Written(m, front), q) ensures !Related(q, k) { LeavesApart(m, q, k); }
  }

  lemma {:induction false} WrittenUntyped(m: Tree, keys: seq<Path>)
    requires Untyped(Dict(m)) && forall p | p in keys :: M.IsLeaf(m, p)
    ensures Untyped(Dict(Written(m, keys)))
  {
    if keys != [] {
      var front, k := keys[..|keys| - 1], keys[|keys| - 1];
      assert keys == front + [k] && k in keys;
      WrittenUntyped(m, front);
      UntypedAt(m, k);
      SetUntyped(Written(m, front), k, At(m, k).value);
    }
  }

  lemma {:induction false} UntypedAt(m: Tree, q: Path)
    requires Untyped(Dict(m)) && At(m, q).Some?
    ensures Untyped(At(m, q).value)
    decreases |q|
  {
    if |q| > 1 { UntypedAt(m[q[0]].fields, q[1..]); }
  }

  lemma {:induction false} PlainTreeUntyped(t: Tree)
    requires Untyped(Dict(t))
    ensures PlainTree(t) == t
  {
    PlainUntyped(Dict(t));
    assert Plain(Dict(t)) == Dict(PlainTree(t));
  }

  /** With the same leaves, the plain forms tell the trees apart. */
  lemma {:induction false} PlainTells(a: Any, b: Any)
    requires a.Dict? && b.Dict? && SameLeaves(a.fields, b.fields) && PlainTree(a.fields) == PlainTree(b.fields)
    ensures a == b
    decreases a
  {
    assert a.fields.Keys == PlainTree(a.fields).Keys == PlainTree(b.fields).Keys == b.fields.Keys;
    forall k | k in a.fields ensures a.fields[k] == b.fields[k] {
      if !a.fields[k].Dict? {
        LeafMatches(a.fields, b.fields, k);
      } else if !b.fields[k].Dict? {
        LeafMatches(b.fields, a.fields, k);
      } else {
        assert PlainTree(a.fields)[k] == PlainTree(b.fields)[k];
        ChildLeaves(a.fields, b.fields, k);
        PlainTells(a.fields[k], b.fields[k]);
      }
    }
  }

  // ---------------------------------------------------------------- and back

  /** A map source alone. The view is the plain form of a tree that has exactly the map's leaves, with their
      values; it is the plain form of the map itself if and only if the map holds no empty nested map. So a
      map without typed maps comes back with the same leaves, and identical under the same condition. */
  lemma {:induction false} MapComesBack(s: Source, m: Tree, merge: MergeStrategy)
    requires IsMapSource(s, m)
    ensures var t := AsMap(Build(Alone(s, merge)));
      && (exists w :: SameLeaves(w, m) && t == PlainTree(w))
      && (forall q | M.IsLeaf(m, q) :: At(t, q) == Some(Plain(At(m, q).value)))
      && (t == PlainTree(m) <==> Solid(Dict(m)))
      && (Untyped(Dict(m)) ==> SameLeaves(t, m) && (t == m <==> Solid(Dict(m))))
  {
    var b := Build(Alone(s, merge));
    AloneBuild(s, m, merge);
    var t, w := AsMap(b), Written(m, b.keys);
    KeepAll(b.keys, NotIn(b.aliases.Keys));
    assert Visible(b) == b.keys;
    NothingShadowed(b, b.keys, Of(s.name));
    AssembleIsPlain(b, m, b.keys);
    WriteAll(m, b.keys);
    assert t == PlainTree(w) && SameLeaves(w, m);
    forall q | M.IsLeaf(m, q) ensures At(t, q) == Some(Plain(At(m, q).value)) { PlainAt(w, q); }
    SolidOrNot(w, m);
    if Untyped(Dict(m)) {
      WrittenUntyped(m, b.keys);
      PlainTreeUntyped(w);
      PlainTreeUntyped(m);
    }
  }

  lemma {:induction false} SolidOrNot(w: Tree, m: Tree)
    requires Solid(Dict(w)) && SameLeaves(w, m)
    ensures PlainTree(w) == PlainTree(m) <==> Solid(Dict(m))
  {
    if Solid(Dict(m)) { LeavesDetermine(Dict(w), Dict(m)); }
    if PlainTree(w) == PlainTree(m) { PlainTells(Dict(w), Dict(m)); }
  }
}
