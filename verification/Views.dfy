/** The single-tree view of a snapshot and the reads: AsMap, lookupSubtree and read (snapshot.go). */
module Views {
  import opened Paths
  import opened PathOrder
  import opened KeyCuts
  import opened Lists
  import opened Values
  import opened Aliases
  import opened Trees
  import opened Snapshots

  // ---------------------------------------------------------------- conflicts

  /** One key's string is cut from the other's at a segment boundary. */
  ghost predicate Conflict(k: Path, k': Path) {
    IsParent(k', k) || IsParent(k, k')
  }

  /** k loses to k': they conflict and k' comes from a layer of higher precedence. */
  ghost predicate LosesTo(s: Snapshot, k: Path, k': Path) {
    Conflict(k, k') && RankOf(s, k') < RankOf(s, k)
  }

  ghost predicate Loses(s: Snapshot, keys: seq<Path>, k: Path) {
    exists k' :: k' in keys && LosesTo(s, k, k')
  }

  ghost function Shadowed(s: Snapshot, keys: seq<Path>): set<Path> {
    set k | k in keys && Loses(s, keys, k)
  }

  /** k lies strictly below a, as cutting its key string has it: the string in front of a leading empty
      segment is empty, so such a key lies below the root and not below [[]]. */
  predicate Beneath(k: Path, a: Path) {
    if a == [] then Below(k, [[]]) else a != [[]] && Below(k, a)
  }

  /** A conflict is one key lying beneath the other. */
  lemma {:induction false} ConflictIsNesting(k: Path, k': Path)
    ensures Conflict(k, k') <==> Beneath(k, k') || Beneath(k', k)
  {
    ParentIsAbove(k, k');
    ParentIsAbove(k', k);
  }

  lemma {:induction false} ParentIsAbove(k: Path, a: Path)
    ensures IsParent(a, k) <==> Beneath(k, a)
  {
    if Beneath(k, a) {
      assert ParentAt(a, k, if a == [] then 1 else |a|);
    }
    if n: nat :| ParentAt(a, k, n) {
      assert |k[..n]| == n;
    }
  }

  /** One key of the outer loop of shadowedKeys against its parents in the list. */
  method DropAlong(s: Snapshot, keys: seq<Path>, k: Path) returns (out: set<Path>)
    requires k in keys
    ensures forall x | x in out :: x in keys && Loses(s, keys, x)
    ensures Settled(s, keys, out, k)
  {
    out := {};
    if k == [] { return; }
    for n := 1 to |k|
      invariant forall x | x in out :: x in keys && Loses(s, keys, x)
      invariant forall m | 0 < m < n :: SettledAt(s, keys, out, k, Cut(k, m))
    {
      var a := Cut(k, n);
      assert ParentAt(a, k, n);
      if a !in keys { continue; }
      if RankOf(s, a) < RankOf(s, k) {
        assert LosesTo(s, k, a);
        out := out + {k};
      } else if RankOf(s, k) < RankOf(s, a) {
        assert LosesTo(s, a, k);
        out := out + {a};
      }
    }
  }

  /** The conflict between k and its parent a has been decided in out. */
  ghost predicate SettledAt(s: Snapshot, keys: seq<Path>, out: set<Path>, k: Path, a: Path) {
    a in keys ==> (RankOf(s, a) < RankOf(s, k) ==> k in out) && (RankOf(s, k) < RankOf(s, a) ==> a in out)
  }

  ghost predicate Settled(s: Snapshot, keys: seq<Path>, out: set<Path>, k: Path) {
    forall a | IsParent(a, k) :: SettledAt(s, keys, out, k, a)
  }

  /** shadowedKeys drops exactly the keys that lose a conflict in the list. */
  method ShadowedKeys(s: Snapshot, keys: seq<Path>) returns (out: set<Path>)
    ensures out == Shadowed(s, keys)
  {
    out := {};
    for i := 0 to |keys|
      invariant forall x | x in out :: x in keys && Loses(s, keys, x)
      invariant forall j | 0 <= j < i :: Settled(s, keys, out, keys[j])
    {
      var drop := DropAlong(s, keys, keys[i]);
      ghost var before := out;
      out := out + drop;
      forall j | 0 <= j <= i ensures Settled(s, keys, out, keys[j]) {
        SettledMore(s, keys, if j < i then before else drop, out, keys[j]);
      }
    }
    AllSettled(s, keys, out);
  }

  lemma {:induction false} SettledMore(s: Snapshot, keys: seq<Path>, out: set<Path>, more: set<Path>, k: Path)
    requires Settled(s, keys, out, k) && out <= more
    ensures Settled(s, keys, more, k)
  {}

  lemma {:induction false} AllSettled(s: Snapshot, keys: seq<Path>, out: set<Path>)
    requires forall j | 0 <= j < |keys| :: Settled(s, keys, out, keys[j])
    requires forall x | x in out :: x in keys && Loses(s, keys, x)
    ensures out == Shadowed(s, keys)
  {}

  // ---------------------------------------------------------------- the tree

  /** The tree written from keys in order, skipping drop, with the first n segments cut off. */
  function Assemble(s: Snapshot, keys: seq<Path>, drop: set<Path>, n: nat): Tree {
    if keys == [] then map[]
    else
      var k, t := keys[|keys| - 1], Assemble(s, keys[..|keys| - 1], drop, n);
      if k in drop || k !in s.values || |k| < n then t else SetNested(t, k[n..], Unwrap(s.values[k]))
  }

  method WriteTree(s: Snapshot, keys: seq<Path>, drop: set<Path>, n: nat) returns (out: Tree)
    requires forall k | k in keys :: k in s.values && |k| >= n
    ensures out == Assemble(s, keys, drop, n)
  {
    out := map[];
    for i := 0 to |keys|
      invariant out == Assemble(s, keys[..i], drop, n)
    {
      var k := keys[i];
      assert k in keys && keys[..i + 1][..i] == keys[..i] && keys[..i + 1][i] == k;
      if k in drop { continue; }
      out := SetNested(out, k[n..], Unwrap(s.values[k]));
    }
    assert keys[..|keys|] == keys;
  }

  /** The listed keys that are not aliases. */
  function Visible(s: Snapshot): seq<Path> {
    Keep(s.keys, NotIn(s.aliases.Keys))
  }

  ghost function AsMap(s: Snapshot): Tree {
    Assemble(s, Visible(s), Shadowed(s, Visible(s)), 0)
  }

  method AsMapTree(s: Snapshot) returns (out: Tree)
    requires forall k | k in s.keys :: k in s.values
    ensures out == AsMap(s)
  {
    var keys := Select(s.keys, 0, |s.keys|, NotIn(s.aliases.Keys));
    assert s.keys[0..|s.keys|] == s.keys;
    forall k | k in keys ensures k in s.keys { KeepMember(s.keys, NotIn(s.aliases.Keys), k); }
    var shadowed := ShadowedKeys(s, keys);
    out := WriteTree(s, keys, shadowed, 0);
  }

  /** What is written stays when nothing related to it is written later. */
  lemma {:induction false} WrittenStays(s: Snapshot, keys: seq<Path>, drop: set<Path>, i: nat)
    requires forall j | 0 <= j < |keys| :: keys[j] in s.values
    requires i < |keys| && keys[i] !in drop && keys[i] != []
    requires forall j | i < j < |keys| && keys[j] !in drop :: !Related(keys[j], keys[i])
    ensures At(Assemble(s, keys, drop, 0), keys[i]) == Some(Unwrap(s.values[keys[i]]))
  {
    var n := |keys| - 1;
    var k, front := keys[n], keys[..n];
    assert keys == front + [k] && k[0..] == k;
    AssembleSnoc(s, front, k, drop, 0);
    var t := Assemble(s, front, drop, 0);
    if i == n {
      SetThenAt(t, k, Unwrap(s.values[k]));
    } else {
      WrittenStays(s, front, drop, i);
      if k !in drop { SetElsewhere(t, k, Unwrap(s.values[k]), keys[i]); }
    }
  }

  /** In the tree written from keys in order, every key that stays with no key below it staying is found
      at its own path with its own value. Only [[]], which sorts after the keys below it, could be written
      over it later. */
  lemma {:induction false} LeavesInTree(s: Snapshot, keys: seq<Path>, drop: set<Path>, i: nat)
    requires InOrder(keys) && forall k | k in keys :: k in s.values
    requires i < |keys| && keys[i] != [] && keys[i] !in drop
    requires forall k | k in keys && k !in drop :: !Below(k, keys[i])
    requires Below(keys[i], [[]]) && [[]] in keys ==> [[]] in drop
    ensures At(Assemble(s, keys, drop, 0), keys[i]) == Some(Unwrap(s.values[keys[i]]))
  {
    forall j | 0 <= j < |keys| ensures keys[j] in s.values { assert keys[j] in keys; }
    forall j | i < j < |keys| && keys[j] !in drop ensures !Related(keys[j], keys[i]) {
      assert keys[j] in keys;
      LaterUnrelated(keys, i, j);
    }
    WrittenStays(s, keys, drop, i);
  }

  lemma {:induction false} LaterUnrelated(keys: seq<Path>, i: nat, n: nat)
    requires InOrder(keys) && i < n < |keys| && keys[i] != [] && !Below(keys[n], keys[i])
    requires Below(keys[i], [[]]) ==> keys[n] != [[]]
    ensures !Related(keys[n], keys[i])
  {
    var p, q := keys[n], keys[i];
    assert Before(q, p);
    BeforeTotal(p, q);
    if p == [] {
      RootBefore(q);
    } else if Below(q, p) {
      ParentBefore(p, q);
    }
    if |p| == |q| { assert p[..|p|] == p && q[..|q|] == q; }
  }

  lemma {:induction false} RootBefore(q: Path)
    requires q != []
    ensures Before([], q)
  {
    JoinEmpty(q);
  }

  lemma {:induction false} VisibleKeys(s: Snapshot)
    requires InOrder(s.keys)
    ensures InOrder(Visible(s)) && forall k :: k in Visible(s) <==> k in s.keys && k !in s.aliases
  {
    KeepInOrder(s.keys, NotIn(s.aliases.Keys));
    forall k ensures k in Visible(s) <==> k in s.keys && k !in s.aliases {
      KeepMember(s.keys, NotIn(s.aliases.Keys), k);
    }
  }

  /** Some key of the list lies beneath k or has k beneath it, and comes from a strictly higher-precedence
      layer. */
  ghost predicate Outranked(s: Snapshot, keys: seq<Path>, k: Path) {
    exists k' :: k' in keys && (Beneath(k, k') || Beneath(k', k)) && RankOf(s, k') < RankOf(s, k)
  }

  /** The same by plain nesting of paths. */
  ghost predicate OutrankedByNesting(s: Snapshot, keys: seq<Path>, k: Path) {
    exists k' :: k' in keys && (Below(k, k') || Below(k', k)) && RankOf(s, k') < RankOf(s, k)
  }

  /** A key is dropped from the single-tree view exactly when an ancestor or a descendant outranks it; in a
      list without [] and [[]], these are plainly the keys above and below it. */
  lemma {:induction false} DroppedIffOutranked(s: Snapshot, keys: seq<Path>, k: Path)
    requires k in keys
    ensures k in Shadowed(s, keys) <==> Outranked(s, keys, k)
    ensures [] !in keys && [[]] !in keys ==> (Outranked(s, keys, k) <==> OutrankedByNesting(s, keys, k))
  {
    forall k' ensures Conflict(k, k') <==> Beneath(k, k') || Beneath(k', k) { ConflictIsNesting(k, k'); }
    if Outranked(s, keys, k) {
      var k' :| k' in keys && (Beneath(k, k') || Beneath(k', k)) && RankOf(s, k') < RankOf(s, k);
      assert LosesTo(s, k, k');
    }
    if [] !in keys && [[]] !in keys && OutrankedByNesting(s, keys, k) {
      var k' :| k' in keys && (Below(k, k') || Below(k', k)) && RankOf(s, k') < RankOf(s, k);
      assert Beneath(k, k') || Beneath(k', k);
    }
  }

  /** LeavesInTree for AsMap. */
  lemma {:induction false} AsMapHoldsLeaf(s: Snapshot, q: Path)
    requires InOrder(s.keys) && forall k | k in s.keys :: k in s.values
    requires q != [] && q in s.keys && q !in s.aliases && !Loses(s, Visible(s), q)
    requires forall k | k in s.keys && k !in s.aliases && Below(k, q) :: Loses(s, Visible(s), k)
    requires Below(q, [[]]) && [[]] in s.keys && [[]] !in s.aliases ==> Loses(s, Visible(s), [[]])
    ensures At(AsMap(s), q) == Some(Unwrap(s.values[q]))
  {
    VisibleKeys(s);
    var i :| 0 <= i < |Visible(s)| && Visible(s)[i] == q;
    LeavesInTree(s, Visible(s), Shadowed(s, Visible(s)), i);
  }

  /** Two listed keys of one layer: [[]] and the key b below it. They do not conflict, yet [[]] is written
      last and takes the whole entry, so b is not found at its own path. */
  lemma {:induction false} EmptySegmentErases(s: Snapshot, b: Bytes, v: Value, w: Value)
    requires s.keys == [[[], b], [[]]] && s.values == map[[[], b] := v, [[]] := w]
    requires s.aliases == map[] && s.sources == map[] && w.data.Scalar?
    ensures Visible(s) == s.keys && Shadowed(s, s.keys) == {} && At(AsMap(s), [[], b]) == None
  {
    KeepAll(s.keys, NotIn(s.aliases.Keys));
    forall k, k' | k in s.keys && k' in s.keys ensures !LosesTo(s, k, k') {
      assert RankOf(s, k) == RankOf(s, k');
    }
    assert Visible(s) == s.keys;
    assert Shadowed(s, s.keys) == {};
    var below: Path, above: Path := [[], b], [[]];
    var t := Assemble(s, [below], {}, 0);
    AssembleSnoc(s, [below], above, {}, 0);
    assert [below] + [above] == s.keys && above[0..] == above;
    assert AsMap(s) == SetNested(t, above, Unwrap(w));
  }

  // ---------------------------------------------------------------- the part below a key

  /** The layer of highest precedence among the kept keys, the first one on ties. */
  function TopSource(s: Snapshot, keys: seq<Path>, drop: set<Path>): Option<Label> {
    if keys == [] then None
    else
      var k, best := keys[|keys| - 1], TopSource(s, keys[..|keys| - 1], drop);
      if k in drop || k !in s.values then best
      else if best.None? || RankFor(s.sourceNames, s.values[k].source) < RankFor(s.sourceNames, best.value)
      then Some(s.values[k].source)
      else best
  }

  /** The keys lookupSubtree assembles: the listed ones below q, else every resolved one below q. */
  function SubtreeKeys(s: Snapshot, q: Path): seq<Path> {
    if q == [] || q == [[]] then []
    else
      var listed := Under(s.keys, s.aliases.Keys, q);
      if listed == [] && |s.lookupKeys| > |s.keys| then Under(s.lookupKeys, s.aliases.Keys, q) else listed
  }

  ghost function Subtree(s: Snapshot, q: Path): Option<Value> {
    var keys := SubtreeKeys(s, q);
    if keys == [] then None
    else
      var drop := Shadowed(s, keys);
      var top := TopSource(s, keys, drop);
      Some(WithSource(NewValue(Dict(Assemble(s, keys, drop, |q|))), if top.Some? then top.value else Unset))
  }

  ghost predicate Listed(s: Snapshot) {
    && InOrder(s.keys) && InOrder(s.lookupKeys)
    && (forall k | k in s.keys :: k in s.values)
    && (forall k :: k in s.lookupKeys <==> k in s.values)
  }

  lemma {:induction false} CanonsSorted(ps: seq<Path>)
    requires InOrder(ps)
    ensures Sorted(Canons(ps))
  {}

  method FindSubtreeKeys(s: Snapshot, q: Path) returns (keys: seq<Path>)
    requires Listed(s) && q != []
    ensures keys == SubtreeKeys(s, q)
  {
    CanonsSorted(s.keys);
    keys := KeysBelow(Canons(s.keys), s.keys, s.aliases.Keys, q);
    if keys == [] && |s.lookupKeys| > |s.keys| {
      CanonsSorted(s.lookupKeys);
      keys := KeysBelow(Canons(s.lookupKeys), s.lookupKeys, s.aliases.Keys, q);
    }
  }

  lemma {:induction false} SubtreeKeysBelow(s: Snapshot, q: Path)
    requires Listed(s)
    ensures forall k | k in SubtreeKeys(s, q) :: k in s.values && k !in s.aliases && Below(k, q)
  {
    forall k | k in SubtreeKeys(s, q) ensures k in s.values && k !in s.aliases && Below(k, q) {
      UnderMember(s.keys, s.aliases.Keys, q, k);
      UnderMember(s.lookupKeys, s.aliases.Keys, q, k);
    }
  }

  method PickSource(s: Snapshot, keys: seq<Path>, drop: set<Path>) returns (best: Option<Label>)
    ensures best == TopSource(s, keys, drop)
  {
    best := None;
    for i := 0 to |keys|
      invariant best == TopSource(s, keys[..i], drop)
    {
      var k := keys[i];
      assert keys[..i + 1][..i] == keys[..i] && keys[..i + 1][i] == k;
      if k in drop || k !in s.values { continue; }
      if best.None? || RankFor(s.sourceNames, s.values[k].source) < RankFor(s.sourceNames, best.value) {
        best := Some(s.values[k].source);
      }
    }
    assert keys[..|keys|] == keys;
  }

  /** lookupSubtree. */
  method LookupSubtree(s: Snapshot, q: Path) returns (r: Option<Value>)
    requires Listed(s)
    ensures r == Subtree(s, q)
  {
    if q == [] { return None; }
    var keys := FindSubtreeKeys(s, q);
    if keys == [] { return None; }
    SubtreeKeysBelow(s, q);
    var shadowed := ShadowedKeys(s, keys);
    var out := WriteTree(s, keys, shadowed, |q|);
    var best := PickSource(s, keys, shadowed);
    r := Some(WithSource(NewValue(Dict(out)), if best.Some? then best.value else Unset));
  }

  lemma {:induction false} LeastRanked(s: Snapshot, keys: seq<Path>) returns (k: Path)
    requires keys != []
    ensures k in keys && forall k' | k' in keys :: RankOf(s, k) <= RankOf(s, k')
  {
    k := keys[0];
    if |keys| > 1 {
      var k' := LeastRanked(s, keys[1..]);
      if RankOf(s, k') < RankOf(s, k) { k := k'; }
    }
  }

  lemma {:induction false} AssembleSnoc(s: Snapshot, keys: seq<Path>, k: Path, drop: set<Path>, n: nat)
    requires k in s.values && |k| >= n
    ensures Assemble(s, keys + [k], drop, n) ==
      var t := Assemble(s, keys, drop, n);
      if k in drop then t else SetNested(t, k[n..], Unwrap(s.values[k]))
  {}

  lemma {:induction false} UnderSnoc(keys: seq<Path>, k: Path, p: Path)
    ensures Under(keys + [k], {}, p) == if Below(k, p) then Under(keys, {}, p) + [k] else Under(keys, {}, p)
  {
    KeepConcat(keys, [k], BelowBut(p, {}));
  }

  predicate KeptBelow(keys: seq<Path>, drop: set<Path>, p: Path) {
    exists k :: k in keys && k !in drop && Below(k, p)
  }

  /** A value that leaves room for the keys below its key: anything but a map with entries. */
  predicate Bare(v: Value) {
    v.data.Map? ==> v.data.entries == map[]
  }

  /** The keys are in order and have values, no key lies above p, a key at p itself is dropped or bare, and
      below p the two sets drop the same keys. */
  ghost predicate Partable(s: Snapshot, keys: seq<Path>, drop: set<Path>, drop': set<Path>, p: Path) {
    && InOrder(keys) && (forall k | k in keys :: k in s.values)
    && (forall k | k in keys && HasPrefix(p, k) :: k == p && (k in drop || Bare(s.values[k])))
    && (forall k | k in keys && Below(k, p) :: k in drop <==> k in drop')
  }

  lemma {:induction false} PartableFront(s: Snapshot, front: seq<Path>, k: Path, drop: set<Path>,
                                         drop': set<Path>, p: Path)
    requires Partable(s, front + [k], drop, drop', p)
    ensures Partable(s, front, drop, drop', p) && k in s.values && InOrder(front + [k])
    ensures HasPrefix(p, k) ==> k == p && (p in drop || Bare(s.values[p]))
    ensures Below(k, p) ==> (k in drop <==> k in drop')
  {
    var keys := front + [k];
    assert forall x | x in front :: x in keys;
    assert k in keys;
    forall i, j | 0 <= i < j < |front| ensures Before(front[i], front[j]) { assert Before(keys[i], keys[j]); }
  }

  /** The part at p of a tree is written by the keys below p alone. A key at p itself is written before
      them, and does not show if it is bare. */
  lemma {:induction false} TreePart(s: Snapshot, keys: seq<Path>, drop: set<Path>, drop': set<Path>, p: Path)
    requires p != [] && p != [[]] && Partable(s, keys, drop, drop', p)
    ensures Sub(Assemble(s, keys, drop, 0), p) == Assemble(s, Under(keys, {}, p), drop', |p|)
    ensures KeptBelow(keys, drop, p) ==>
              At(Assemble(s, keys, drop, 0), p) == Some(Dict(Sub(Assemble(s, keys, drop, 0), p)))
  {
    if keys == [] {
      SubEmpty(p);
    } else {
      var k, front := keys[|keys| - 1], keys[..|keys| - 1];
      assert keys == front + [k];
      PartableFront(s, front, k, drop, drop', p);
      TreePart(s, front, drop, drop', p);
      if k == p {
        TreePartKey(s, front, drop, drop', p);
      } else {
        TreePartOther(s, front, k, drop, drop', p);
      }
    }
  }

  lemma {:induction false} TreePartOther(s: Snapshot, front: seq<Path>, k: Path, drop: set<Path>,
                                         drop': set<Path>, p: Path)
    requires p != [] && k in s.values && !HasPrefix(p, k) && (Below(k, p) ==> (k in drop <==> k in drop'))
    requires Sub(Assemble(s, front, drop, 0), p) == Assemble(s, Under(front, {}, p), drop', |p|)
    requires KeptBelow(front, drop, p) ==>
               At(Assemble(s, front, drop, 0), p) == Some(Dict(Sub(Assemble(s, front, drop, 0), p)))
    ensures var t := Assemble(s, front + [k], drop, 0);
      && Sub(t, p) == Assemble(s, Under(front + [k], {}, p), drop', |p|)
      && (KeptBelow(front + [k], drop, p) ==> At(t, p) == Some(Dict(Sub(t, p))))
  {
    AssembleSnoc(s, front, k, drop, 0);
    UnderSnoc(front, k, p);
    if Below(k, p) { AssembleSnoc(s, Under(front, {}, p), k, drop', |p|); }
    assert k[0..] == k;
    TreePartStep(s, Assemble(s, front, drop, 0), p, k);
  }

  lemma {:induction false} TreePartKey(s: Snapshot, front: seq<Path>, drop: set<Path>, drop': set<Path>, p: Path)
    requires p != [] && p != [[]] && InOrder(front + [p]) && p in s.values && (p in drop || Bare(s.values[p]))
    requires Sub(Assemble(s, front, drop, 0), p) == Assemble(s, Under(front, {}, p), drop', |p|)
    ensures Sub(Assemble(s, front + [p], drop, 0), p) == map[] && Under(front + [p], {}, p) == []
    ensures !KeptBelow(front + [p], drop, p)
  {
    var keys := front + [p];
    assert keys[..|keys| - 1] == front && p[0..] == p;
    NothingBelowYet(keys, p);
    UnderSnoc(front, p, p);
    AssembleSnoc(s, front, p, drop, 0);
    if p !in drop { BareShowsNothing(Assemble(s, front, drop, 0), p, s.values[p]); }
  }

  lemma {:induction false} NothingBelowYet(keys: seq<Path>, p: Path)
    requires InOrder(keys) && keys != [] && keys[|keys| - 1] == p && p != [] && p != [[]]
    ensures Under(keys[..|keys| - 1], {}, p) == [] && forall k | k in keys :: !Below(k, p)
  {
    var n := |keys| - 1;
    forall i | 0 <= i <= n ensures !Below(keys[i], p) {
      if Below(keys[i], p) {
        ParentBefore(p, keys[i]);
        BeforeTotal(p, keys[i]);
      }
    }
    KeepNone(keys[..n], BelowBut(p, {}));
  }

  lemma {:induction false} BareShowsNothing(t: Tree, p: Path, v: Value)
    requires p != [] && Bare(v)
    ensures Sub(SetNested(t, p, Unwrap(v)), p) == map[]
  {
    SetThenAt(t, p, Unwrap(v));
    SubIsAt(SetNested(t, p, Unwrap(v)), p);
  }

  lemma {:induction false} SubEmpty(p: Path)
    ensures Sub(map[], p) == map[]
  {
    if p != [] { SubEmpty(p[1..]); }
  }

  lemma {:induction false} TreePartStep(s: Snapshot, t: Tree, p: Path, k: Path)
    requires p != [] && k in s.values && !HasPrefix(p, k)
    ensures var t' := SetNested(t, k, Unwrap(s.values[k]));
      if Below(k, p) then
        var sub := SetNested(Sub(t, p), k[|p|..], Unwrap(s.values[k]));
        Sub(t', p) == sub && At(t', p) == Some(Dict(sub))
      else Sub(t', p) == Sub(t, p) && At(t', p) == At(t, p)
  {
    SubIsAt(t, p);
    SubIsAt(SetNested(t, k, Unwrap(s.values[k])), p);
    if Below(k, p) {
      SetBelow(t, p, k, Unwrap(s.values[k]));
    } else {
      if |k| == |p| { assert k[..|k|] == k && p[..|p|] == p; }
      SetElsewhere(t, k, Unwrap(s.values[k]), p);
    }
  }

  lemma {:induction false} SameLosers(s: Snapshot, all: seq<Path>, p: Path, k: Path)
    requires forall x | x in all && HasPrefix(p, x) :: x == p && RankOf(s, k) <= RankOf(s, p)
    requires p != [] && k in all && Below(k, p)
    ensures k in Shadowed(s, all) <==> k in Shadowed(s, Under(all, {}, p))
  {
    var part := Under(all, {}, p);
    forall x ensures x in part <==> x in all && Below(x, p) {
      UnderMember(all, {}, p, x);
    }
    if Loses(s, all, k) {
      var x :| x in all && LosesTo(s, k, x);
      ConflictIsNesting(k, x);
      assert HasPrefix(p, []) && x != [];
      if Beneath(x, k) { assert x[..|k|][..|p|] == x[..|p|]; } else { TwoAbove(k, p, x); }
      assert x in part;
    }
  }

  lemma {:induction false} TwoAbove(k: Path, p: Path, x: Path)
    requires Below(k, p) && Below(k, x)
    ensures HasPrefix(p, x) || Below(x, p)
  {}

  /** A section read is the matching part of the single-tree view, wherever no listed key at or above p
      takes part in the conflict. */
  lemma {:induction false} SubtreeIsPartOfTree(s: Snapshot, p: Path)
    requires Listed(s) && p != [] && p != [[]]
    requires Under(s.keys, s.aliases.Keys, p) != []
    requires forall k | k in s.keys && k !in s.aliases :: !HasPrefix(p, k)
    ensures Subtree(s, p).Some? && At(AsMap(s), p) == Some(Unwrap(Subtree(s, p).value))
  {
    var all, part := Visible(s), Under(s.keys, s.aliases.Keys, p);
    PartOfVisible(s, p);
    forall k | k in all && Below(k, p) ensures k in Shadowed(s, all) <==> k in Shadowed(s, part) {
      SameLosers(s, all, p, k);
    }
    VisibleKeys(s);
    TreePart(s, all, Shadowed(s, all), Shadowed(s, part), p);
    assert KeptBelow(all, Shadowed(s, all), p) by { SomeoneStays(s, part); }
    SubtreeTree(s, p);
  }

  lemma {:induction false} SubtreeTree(s: Snapshot, p: Path)
    requires p != [] && p != [[]] && Under(s.keys, s.aliases.Keys, p) != []
    ensures var part := Under(s.keys, s.aliases.Keys, p);
      Subtree(s, p).Some? && Unwrap(Subtree(s, p).value) == Dict(Assemble(s, part, Shadowed(s, part), |p|))
  {
    var part := Under(s.keys, s.aliases.Keys, p);
    var t := Dict(Assemble(s, part, Shadowed(s, part), |p|));
    UnwrapNew(t);
    AssembleUntyped(s, part, Shadowed(s, part), |p|);
    PlainUntyped(t);
  }

  lemma {:induction false} AssembleUntyped(s: Snapshot, keys: seq<Path>, drop: set<Path>, n: nat)
    ensures Untyped(Dict(Assemble(s, keys, drop, n)))
  {
    if keys != [] {
      var k, t := keys[|keys| - 1], Assemble(s, keys[..|keys| - 1], drop, n);
      AssembleUntyped(s, keys[..|keys| - 1], drop, n);
      if k in s.values && |k| >= n {
        UnwrapIsUntyped(s.values[k]);
        SetUntyped(t, k[n..], Unwrap(s.values[k]));
      }
    }
  }

  lemma {:induction false} PartOfVisible(s: Snapshot, p: Path)
    requires InOrder(s.keys)
    ensures Under(s.keys, s.aliases.Keys, p) == Under(Visible(s), {}, p)
    ensures forall k :: k in Under(s.keys, s.aliases.Keys, p) <==> k in Visible(s) && Below(k, p)
    ensures forall k :: k in Visible(s) <==> k in s.keys && k !in s.aliases
  {
    VisibleKeys(s);
    KeepKeep(s.keys, NotIn(s.aliases.Keys), BelowBut(p, {}), BelowBut(p, s.aliases.Keys));
    forall k ensures k in Under(s.keys, s.aliases.Keys, p) <==> k in Visible(s) && Below(k, p) {
      UnderMember(s.keys, s.aliases.Keys, p, k);
    }
  }

  lemma {:induction false} SomeoneStays(s: Snapshot, keys: seq<Path>)
    requires keys != []
    ensures exists k :: k in keys && k !in Shadowed(s, keys)
  {
    var m := LeastRanked(s, keys);
    assert m !in Shadowed(s, keys);
  }

  // ---------------------------------------------------------------- reads

  /** Both precomputed indices say what they should. */
  ghost predicate IndicesRight(s: Snapshot) {
    s.inParent == InParentSet(s) && s.overridden == OverriddenSet(s)
  }

  /** If a is an alias with a value, its target is no alias and has the same value. */
  ghost predicate AliasAgrees(s: Snapshot, a: Path) {
    var c := Target(s.aliases, a);
    a in s.aliases && a in s.values ==> c !in s.aliases && c in s.values && s.values[c] == s.values[a]
  }

  /** The key a read of q is about: an alias with a value stands for its target. */
  function ReadKey(s: Snapshot, q: Path): Path {
    if q in s.aliases && q in s.values then Target(s.aliases, q) else q
  }

  /** The meaning of a read, without the indices: the best holder decides; the key's own value gives way
      to the keys below it when the mode asks for a section and they take its place; a key nothing holds
      is assembled from the keys below it. */
  ghost function Meaning(s: Snapshot, q: Path, mode: ReadMode): Option<Value> {
    var c := ReadKey(s, q);
    match Best(s, c, |c|)
    case None => Subtree(s, c)
    case Some(n) =>
      if n == |c| && c in s.values && WantsSection(mode, s.values[c]) && Overridden(s, c) && Subtree(s, c).Some?
      then Subtree(s, c)
      else Held(s, c, n)
  }

  predicate WantsSection(mode: ReadMode, v: Value) {
    mode == ReadSection || (mode == ReadGet && v.data.Null?)
  }

  lemma {:induction false} YieldsIffBestWins(s: Snapshot, c: Path)
    requires c != []
    ensures var b := Best(s, c, |c| - 1);
      Yields(s, c) <==> b.Some? && HolderRank(s, c, b.value) < RankOf(s, c)
  {
    var held, rank := Holds(s, c), RankAt(s, c);
    var b := Best(s, c, |c| - 1);
    ScanIsBest(held, rank, |c| - 1);
    if n :| ParentWins(s, c, n) { assert held(n) && rank(b.value) <= rank(n); }
    if b.Some? && HolderRank(s, c, b.value) < RankOf(s, c) { assert ParentWins(s, c, b.value); }
  }

  /** For a key with a value, the best holder is a parent exactly when some parent outranks it, and then
      it is the one found among the parents alone. */
  lemma {:induction false} YieldsIffParentBest(s: Snapshot, c: Path)
    requires c in s.values
    ensures Best(s, c, |c|).Some?
    ensures Yields(s, c) <==> Best(s, c, |c|).value < |c|
    ensures Yields(s, c) ==> FromParents(s, c).Some? && FromParents(s, c) == Held(s, c, Best(s, c, |c|).value)
  {
    if c != [] { YieldsIffBestWins(s, c); }
  }

  lemma {:induction false} NoOwnValue(s: Snapshot, q: Path)
    requires q !in s.values
    ensures if FromParents(s, q).Some? then Best(s, q, |q|).Some? && Best(s, q, |q|).value < |q|
              && FromParents(s, q) == Held(s, q, Best(s, q, |q|).value)
            else Best(s, q, |q|).None?
  {}

  /** read as the code runs it, with its index shortcuts. */
  ghost function CodeRead(s: Snapshot, q: Path, mode: ReadMode): Option<Value> {
    if q in s.values then
      var v, canon := s.values[q], ReadKey(s, q);
      if canon in s.inParent && FromParents(s, canon).Some? then FromParents(s, canon)
      else if WantsSection(mode, v) && canon in s.overridden && Subtree(s, canon).Some? then Subtree(s, canon)
      else Some(v)
    else if FromParents(s, q).Some? then FromParents(s, q)
    else Subtree(s, q)
  }

  method Read(s: Snapshot, q: Path, mode: ReadMode) returns (r: Option<Value>)
    requires Listed(s)
    ensures r == CodeRead(s, q, mode)
  {
    if q !in s.values {
      r := LookupInParent(s, q);
      if r.None? { r := LookupSubtree(s, q); }
      return;
    }
    var v := s.values[q];
    if s.inParent == {} && !WantsSection(mode, v) { return Some(v); }
    var canon := q;
    if q in s.aliases { canon := ResolveAliasChain(q, s.aliases); }
    if canon in s.inParent {
      r := LookupInParent(s, canon);
      if r.Some? { return; }
    }
    if !WantsSection(mode, v) || canon !in s.overridden { return Some(v); }
    r := LookupSubtree(s, canon);
    if r.None? { r := Some(v); }
  }

  /** Whenever the indices are right, the indexed read of any key that is no alias is the meaning of a
      read; and of an alias too, if it agrees with its target. */
  lemma {:induction false} ReadIsMeaning(s: Snapshot, q: Path, mode: ReadMode)
    requires IndicesRight(s) && AliasAgrees(s, q)
    ensures CodeRead(s, q, mode) == Meaning(s, q, mode)
  {
    if q in s.values { MeaningOfSet(s, q, mode); } else { NoOwnValue(s, q); }
  }

  /** The meaning of a read of a key with a value, by the indices. */
  lemma {:induction false} MeaningOfSet(s: Snapshot, q: Path, mode: ReadMode)
    requires IndicesRight(s) && AliasAgrees(s, q) && q in s.values
    ensures var c, v := ReadKey(s, q), s.values[q];
      if c in s.inParent then FromParents(s, c).Some? && Meaning(s, q, mode) == FromParents(s, c)
      else if WantsSection(mode, v) && c in s.overridden && Subtree(s, c).Some?
      then Meaning(s, q, mode) == Subtree(s, c)
      else Meaning(s, q, mode) == Some(v)
  {
    var c := ReadKey(s, q);
    YieldsIffParentBest(s, c);
    assert c in InParentSet(s) <==> Lost(s, c);
    assert c in OverriddenSet(s) <==> Overridden(s, c);
  }

  /** An alias that agrees with its target reads as the target, in every mode. */
  lemma {:induction false} AliasReadsAsTarget(s: Snapshot, a: Path, mode: ReadMode)
    requires IndicesRight(s) && AliasAgrees(s, a)
    ensures a in s.aliases && a in s.values ==> CodeRead(s, a, mode) == CodeRead(s, Target(s.aliases, a), mode)
  {
    if a in s.aliases && a in s.values {
      ReadIsMeaning(s, a, mode);
      ReadIsMeaning(s, Target(s.aliases, a), mode);
    }
  }

  /** The value for q held by the key of its first n segments. */
  function PlainHeld(s: Snapshot, q: Path, n: nat): Option<Value>
    requires n <= |q|
  {
    if n == |q| then (if q in s.values then Some(s.values[q]) else None)
    else if n == 0 then None
    else EntryUnder(s, q[..n], q[n..])
  }

  /** n holds q and is least in (precedence rank, distance from q) among the holders of q. */
  ghost predicate LeastHolder(s: Snapshot, q: Path, n: nat) {
    && n <= |q| && PlainHeld(s, q, n).Some?
    && forall m | 0 <= m <= |q| && PlainHeld(s, q, m).Some? ::
         RankOf(s, q[..n]) < RankOf(s, q[..m]) || (RankOf(s, q[..n]) == RankOf(s, q[..m]) && n >= m)
  }

  lemma {:induction false} RegularHolders(s: Snapshot, q: Path, n: nat)
    requires Regular(q) && n <= |q|
    ensures Held(s, q, n) == PlainHeld(s, q, n)
    ensures Held(s, q, n).Some? ==> Holder(q, n) == q[..n]
  {}

  /** An exact read of a key that is not an alias returns the least holder's value, and is assembled from
      the keys below only when nothing holds the key. */
  lemma {:induction false} ExactRead(s: Snapshot, q: Path)
    requires IndicesRight(s) && q !in s.aliases && Regular(q)
    ensures forall n: nat | LeastHolder(s, q, n) :: CodeRead(s, q, ReadExact) == PlainHeld(s, q, n)
    ensures (forall n | 0 <= n <= |q| :: PlainHeld(s, q, n).None?) ==> CodeRead(s, q, ReadExact) == Subtree(s, q)
    ensures (exists n :: 0 <= n <= |q| && PlainHeld(s, q, n).Some?) ==> exists n :: LeastHolder(s, q, n)
  {
    ReadIsMeaning(s, q, ReadExact);
    var held, rank := Holds(s, q), RankAt(s, q);
    ScanIsBest(held, rank, |q|);
    forall n: nat | n <= |q|
      ensures held(n) <==> PlainHeld(s, q, n).Some?
      ensures LeastHolder(s, q, n) <==> IsBest(held, rank, |q|, n)
      ensures Held(s, q, n) == PlainHeld(s, q, n)
    {
      LeastIsBest(s, q, n);
    }
    forall n: nat | LeastHolder(s, q, n) ensures Best(s, q, |q|) == Some(n) { BestIsUnique(held, rank, |q|, n); }
    if Best(s, q, |q|).Some? { assert LeastHolder(s, q, Best(s, q, |q|).value); }
  }

  lemma {:induction false} LeastIsBest(s: Snapshot, q: Path, n: nat)
    requires Regular(q) && n <= |q|
    ensures Holds(s, q)(n) <==> PlainHeld(s, q, n).Some?
    ensures Held(s, q, n) == PlainHeld(s, q, n)
    ensures LeastHolder(s, q, n) <==> IsBest(Holds(s, q), RankAt(s, q), |q|, n)
  {
    forall m: nat | m <= |q|
      ensures Holds(s, q)(m) <==> PlainHeld(s, q, m).Some?
      ensures Holds(s, q)(m) ==> RankAt(s, q)(m) == RankOf(s, q[..m])
    {
      RegularHolders(s, q, m);
    }
    RegularHolders(s, q, n);
  }
}
