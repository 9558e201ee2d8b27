/** Flattening of the explicit and default layers (flattenLayer in snapshot.go): every map value is
    replaced by one entry per leaf. */
module Layers {
  import opened Paths
  import opened Values

  type Layer = map<Path, Value>

  predicate Nested(v: Value) {
    v.data.Map? && v.data.entries != map[]
  }

  /** The leaf at path r inside v. */
  function LeafAt(v: Value, r: Path): Option<Value> {
    if !Nested(v) then (if r == [] then Some(v) else None)
    else if r == [] || r[0] !in v.data.entries then None
    else LeafAt(v.data.entries[r[0]], r[1..])
  }

  /** The paths of the leaves of v when it sits at path p. */
  function LeafPaths(p: Path, v: Value): set<Path>
    decreases v
  {
    if !Nested(v) then {p}
    else set k, x | k in v.data.entries && x in LeafPaths(p + [k], v.data.entries[k]) :: x
  }

  /** The entry of the layer at q's first n segments reaches the leaf q. */
  predicate Reaches(layer: Layer, q: Path, n: nat) {
    n <= |q| && q[..n] in layer && LeafAt(layer[q[..n]], q[n..]).Some?
  }

  function DeepestUpTo(layer: Layer, q: Path, n: nat): Option<Value>
    requires n <= |q|
  {
    if Reaches(layer, q, n) then LeafAt(layer[q[..n]], q[n..])
    else if n == 0 then None
    else DeepestUpTo(layer, q, n - 1)
  }

  /** What a flattened layer holds at q: the leaf reached from the deepest key. */
  function Deepest(layer: Layer, q: Path): Option<Value> {
    DeepestUpTo(layer, q, |q|)
  }

  function Flatten(layer: Layer): Layer {
    map q | q in FlatPaths(layer) && Deepest(layer, q).Some? :: Deepest(layer, q).value
  }

  function FlatPaths(layer: Layer): set<Path> {
    set p, q | p in layer && q in LeafPaths(p, layer[p]) :: q
  }

  // ---------------------------------------------------------------- leaves

  lemma {:induction false} LeafPathsIff(p: Path, v: Value, q: Path)
    ensures q in LeafPaths(p, v) <==> HasPrefix(q, p) && LeafAt(v, q[|p|..]).Some?
    decreases v
  {
    if !Nested(v) {
      assert HasPrefix(q, p) && q[|p|..] == [] <==> q == p;
    } else {
      if q in LeafPaths(p, v) {
        var k :| k in v.data.entries && q in LeafPaths(p + [k], v.data.entries[k]);
        LeafPathsIff(p + [k], v.data.entries[k], q);
        PrefixSnoc(q, p, k);
      }
      if HasPrefix(q, p) && LeafAt(v, q[|p|..]).Some? {
        var k := q[|p|..][0];
        LeafPathsIff(p + [k], v.data.entries[k], q);
        PrefixSnoc(q, p, k);
        assert q in LeafPaths(p + [k], v.data.entries[k]);
      }
    }
  }

  lemma {:induction false} PrefixSnoc(q: Path, p: Path, k: Bytes)
    ensures HasPrefix(q, p + [k]) <==> Below(q, p) && q[|p|] == k
    ensures Below(q, p) ==> q[|p|..][0] == q[|p|] && q[|p|..][1..] == q[|p| + 1..]
  {}

  // ---------------------------------------------------------------- the deepest entry

  lemma {:induction false} DeepestIs(layer: Layer, q: Path, top: nat, n: nat)
    requires n <= top <= |q| && Reaches(layer, q, n)
    requires forall m | n < m <= top :: !Reaches(layer, q, m)
    ensures DeepestUpTo(layer, q, top) == LeafAt(layer[q[..n]], q[n..])
  {
    if top > n { DeepestIs(layer, q, top - 1, n); }
  }

  lemma {:induction false} DeepestFinds(layer: Layer, q: Path, top: nat) returns (n: nat)
    requires top <= |q| && DeepestUpTo(layer, q, top).Some?
    ensures n <= top && Reaches(layer, q, n)
    ensures DeepestUpTo(layer, q, top) == LeafAt(layer[q[..n]], q[n..])
    ensures forall m | n < m <= top :: !Reaches(layer, q, m)
  {
    if Reaches(layer, q, top) { n := top; } else { n := DeepestFinds(layer, q, top - 1); }
  }

  lemma {:induction false} DeepestNone(layer: Layer, q: Path, top: nat)
    requires top <= |q|
    ensures DeepestUpTo(layer, q, top).None? <==> forall m | 0 <= m <= top :: !Reaches(layer, q, m)
  {
    if top > 0 { DeepestNone(layer, q, top - 1); }
  }

  lemma {:induction false} ReachedIsFlat(layer: Layer, q: Path, n: nat)
    requires Reaches(layer, q, n)
    ensures q in FlatPaths(layer)
  {
    LeafPathsIff(q[..n], layer[q[..n]], q);
    assert q in LeafPaths(q[..n], layer[q[..n]]);
  }

  lemma {:induction false} FlattenIsDeepest(layer: Layer, q: Path)
    ensures q in Flatten(layer) <==> Deepest(layer, q).Some?
    ensures q in Flatten(layer) ==> Some(Flatten(layer)[q]) == Deepest(layer, q)
  {
    if Deepest(layer, q).Some? {
      var n := DeepestFinds(layer, q, |q|);
      ReachedIsFlat(layer, q, n);
    }
  }

  /** A flattened layer loses no leaf that some entry reaches, holds nothing else, and where several
      entries reach a leaf keeps the one set at the deepest key. */
  lemma {:induction false} FlattenMeaning(layer: Layer, q: Path)
    ensures q in Flatten(layer) <==> exists n :: 0 <= n <= |q| && Reaches(layer, q, n)
    ensures forall n | 0 <= n <= |q| && Reaches(layer, q, n) && (forall m | n < m <= |q| :: !Reaches(layer, q, m)) ::
              q in Flatten(layer) && Some(Flatten(layer)[q]) == LeafAt(layer[q[..n]], q[n..])
  {
    FlattenIsDeepest(layer, q);
    DeepestNone(layer, q, |q|);
    forall n | 0 <= n <= |q| && Reaches(layer, q, n) && (forall m | n < m <= |q| :: !Reaches(layer, q, m))
      ensures Deepest(layer, q) == LeafAt(layer[q[..n]], q[n..])
    {
      DeepestIs(layer, q, |q|, n);
    }
  }

  /** After flattening, no value is a map with entries. */
  lemma {:induction false} FlattenedIsFlat(layer: Layer, q: Path)
    requires q in Flatten(layer)
    ensures !Nested(Flatten(layer)[q])
  {
    FlattenIsDeepest(layer, q);
    var n := DeepestFinds(layer, q, |q|);
    LeafIsFlat(layer[q[..n]], q[n..]);
  }

  lemma {:induction false} LeafIsFlat(v: Value, r: Path)
    requires LeafAt(v, r).Some?
    ensures !Nested(LeafAt(v, r).value)
  {
    if Nested(v) { LeafIsFlat(v.data.entries[r[0]], r[1..]); }
  }

  // ---------------------------------------------------------------- the source's loops

  /** The entries flattenInto writes for v at p. */
  function Leaves(p: Path, v: Value): Layer {
    map q | q in LeafPaths(p, v) && HasPrefix(q, p) && LeafAt(v, q[|p|..]).Some? :: LeafAt(v, q[|p|..]).value
  }

  lemma {:induction false} LeavesAt(p: Path, v: Value, q: Path)
    ensures q in Leaves(p, v) <==> HasPrefix(q, p) && LeafAt(v, q[|p|..]).Some?
    ensures q in Leaves(p, v) ==> Some(Leaves(p, v)[q]) == LeafAt(v, q[|p|..])
  {
    LeafPathsIff(p, v, q);
  }

  /** The leaves under the entries of v whose keys are in ks. */
  function LeavesUnder(p: Path, v: Value, ks: set<Bytes>): Layer {
    map q | q in Leaves(p, v) && |q| > |p| && q[|p|] in ks :: Leaves(p, v)[q]
  }

  lemma {:induction false} LeavesStepAt(p: Path, v: Value, k: Bytes, q: Path)
    requires Nested(v) && k in v.data.entries
    ensures var sub := Leaves(p + [k], v.data.entries[k]);
      && (q in Leaves(p, v) && |q| > |p| && q[|p|] == k <==> q in sub)
      && (q in sub ==> q in Leaves(p, v) && Leaves(p, v)[q] == sub[q])
  {
    LeavesAt(p, v, q);
    LeavesAt(p + [k], v.data.entries[k], q);
    PrefixSnoc(q, p, k);
  }

  lemma {:induction false} LeavesStep(p: Path, v: Value, ks: set<Bytes>, k: Bytes)
    requires Nested(v) && k in v.data.entries
    ensures LeavesUnder(p, v, ks + {k}) == LeavesUnder(p, v, ks) + Leaves(p + [k], v.data.entries[k])
  {
    var all, sub := Leaves(p, v), Leaves(p + [k], v.data.entries[k]);
    var a, b := LeavesUnder(p, v, ks + {k}), LeavesUnder(p, v, ks);
    forall q ensures q in a <==> q in b || q in sub { LeavesStepAt(p, v, k, q); }
    forall q | q in a ensures a[q] == (b + sub)[q] { LeavesStepAt(p, v, k, q); }
  }

  lemma {:induction false} AllLeavesUnder(p: Path, v: Value)
    requires Nested(v)
    ensures LeavesUnder(p, v, v.data.entries.Keys) == Leaves(p, v)
  {}

  lemma {:induction false} SingleLeaf(p: Path, v: Value)
    requires !Nested(v)
    ensures Leaves(p, v) == map[p := v]
  {}

  lemma {:induction false} PlusAssoc(a: Layer, b: Layer, c: Layer)
    ensures (a + b) + c == a + (b + c)
  {}

  method FlattenInto(out0: Layer, p: Path, v: Value) returns (out: Layer)
    ensures out == out0 + Leaves(p, v)
    decreases v, 1
  {
    if Nested(v) {
      out := FlattenEntries(out0, p, v);
    } else {
      SingleLeaf(p, v);
      out := out0[p := v];
    }
  }

  method FlattenEntries(out0: Layer, p: Path, v: Value) returns (out: Layer)
    requires Nested(v)
    ensures out == out0 + Leaves(p, v)
    decreases v, 0
  {
    out := out0;
    var all := v.data.entries.Keys;
    var todo := all;
    assert LeavesUnder(p, v, all - todo) == map[];
    while todo != {}
      invariant todo <= all
      invariant out == out0 + LeavesUnder(p, v, all - todo)
      decreases |todo|
    {
      var k :| k in todo;
      out := FlattenInto(out, p + [k], v.data.entries[k]);
      LeavesStep(p, v, all - todo, k);
      PlusAssoc(out0, LeavesUnder(p, v, all - todo), Leaves(p + [k], v.data.entries[k]));
      assert all - todo + {k} == all - (todo - {k});
      todo := todo - {k};
    }
    AllLeavesUnder(p, v);
    assert all - {} == all;
  }

  function Restrict(layer: Layer, ks: set<Path>): Layer {
    map k | k in layer && k in ks :: layer[k]
  }

  /** Writing one more entry's leaves over those of entries that are no deeper, or writing a value that
      is its own leaf, is flattening with that entry added. */
  lemma {:induction false} FlattenAdd(layer: Layer, k: Path, v: Value)
    requires k !in layer
    requires !Nested(v) || forall k' | k' in layer :: |k'| <= |k|
    ensures Flatten(layer[k := v]) == Flatten(layer) + Leaves(k, v)
  {
    var a, b := Flatten(layer[k := v]), Flatten(layer) + Leaves(k, v);
    forall q: Path ensures q in a <==> q in b {
      FlattenAddAt(layer, k, v, q);
    }
    forall q | q in a ensures a[q] == b[q] {
      FlattenAddAt(layer, k, v, q);
    }
  }

  lemma {:induction false} FlattenAddAt(layer: Layer, k: Path, v: Value, q: Path)
    requires k !in layer
    requires !Nested(v) || forall k' | k' in layer :: |k'| <= |k|
    ensures q in Flatten(layer[k := v]) <==> q in Flatten(layer) || q in Leaves(k, v)
    ensures q in Flatten(layer[k := v]) ==>
      Flatten(layer[k := v])[q] == if q in Leaves(k, v) then Leaves(k, v)[q] else Flatten(layer)[q]
  {
    var layer' := layer[k := v];
    FlattenIsDeepest(layer, q);
    FlattenIsDeepest(layer', q);
    LeavesAt(k, v, q);
    if HasPrefix(q, k) && LeafAt(v, q[|k|..]).Some? {
      assert Reaches(layer', q, |k|);
      DeepestIs(layer', q, |q|, |k|);
    } else {
      SameReach(layer, layer', q, |q|);
    }
  }

  lemma {:induction false} SameReach(a: Layer, b: Layer, q: Path, top: nat)
    requires top <= |q|
    requires forall n | 0 <= n <= |q| :: Reaches(a, q, n) <==> Reaches(b, q, n)
    requires forall n | 0 <= n <= |q| && Reaches(a, q, n) && Reaches(b, q, n) :: a[q[..n]] == b[q[..n]]
    ensures DeepestUpTo(a, q, top) == DeepestUpTo(b, q, top)
  {
    if top > 0 { SameReach(a, b, q, top - 1); }
  }

  lemma {:induction false} FlattenOne(m: Layer, ks: set<Path>, k: Path)
    requires k in m && k !in ks
    requires !Nested(m[k]) || forall k' | k' in ks && k' in m :: |k'| <= |k|
    ensures Flatten(Restrict(m, ks + {k})) == Flatten(Restrict(m, ks)) + Leaves(k, m[k])
  {
    FlattenAdd(Restrict(m, ks), k, m[k]);
    assert Restrict(m, ks)[k := m[k]] == Restrict(m, ks + {k});
  }

  lemma {:induction false} FlattenPlain(m: Layer, ks: set<Path>, k: Path)
    requires k in m && k !in ks && !Nested(m[k])
    ensures Flatten(Restrict(m, ks + {k})) == Flatten(Restrict(m, ks))[k := m[k]]
  {
    FlattenOne(m, ks, k);
    SingleLeaf(k, m[k]);
  }

  /** flattenLayer with its map iterations and its unstable sort in any order: at each step some
      remaining map key of least depth is expanded, then the other entries are copied. */
  method FlattenLayer(m: Layer) returns (out: Layer)
    ensures out == Flatten(m)
  {
    var mapKeys := set k | k in m && Nested(m[k]);
    if mapKeys == {} {
      assert forall k | k in m :: Nested(m[k]) ==> k in mapKeys;
      FlattenFlat(m);
      return m;
    }
    out := ExpandMaps(m, mapKeys);
    out := CopyRest(m, mapKeys, out);
  }

  method ExpandMaps(m: Layer, mapKeys: set<Path>) returns (out: Layer)
    requires mapKeys <= m.Keys
    ensures out == Flatten(Restrict(m, mapKeys))
  {
    out := map[];
    var todo := mapKeys;
    assert Restrict(m, mapKeys - todo) == map[] && Flatten(map[]) == map[];
    while todo != {}
      invariant todo <= mapKeys
      invariant forall k, k' | k in mapKeys - todo && k' in todo :: |k| <= |k'|
      invariant out == Flatten(Restrict(m, mapKeys - todo))
      decreases |todo|
    {
      var k := Shallowest(todo);
      FlattenOne(m, mapKeys - todo, k);
      assert mapKeys - todo + {k} == mapKeys - (todo - {k});
      out := FlattenInto(out, k, m[k]);
      todo := todo - {k};
    }
    assert mapKeys - {} == mapKeys;
  }

  method CopyRest(m: Layer, mapKeys: set<Path>, out0: Layer) returns (out: Layer)
    requires mapKeys <= m.Keys && forall k | k in m && k !in mapKeys :: !Nested(m[k])
    requires out0 == Flatten(Restrict(m, mapKeys))
    ensures out == Flatten(m)
  {
    out := out0;
    var rest := m.Keys - mapKeys;
    assert m.Keys - rest == mapKeys;
    while rest != {}
      invariant rest <= m.Keys - mapKeys
      invariant out == Flatten(Restrict(m, m.Keys - rest))
      decreases |rest|
    {
      var k :| k in rest;
      FlattenPlain(m, m.Keys - rest, k);
      assert m.Keys - rest + {k} == m.Keys - (rest - {k});
      out := out[k := m[k]];
      rest := rest - {k};
    }
    assert Restrict(m, m.Keys - {}) == m;
  }

  /** Any one of the keys of least depth. */
  method Shallowest(ks: set<Path>) returns (k: Path)
    requires ks != {}
    ensures k in ks && forall k' | k' in ks :: |k| <= |k'|
  {
    k :| k in ks;
    var rest := ks - {k};
    while rest != {}
      invariant rest <= ks && k in ks
      invariant forall k' | k' in ks - rest :: |k| <= |k'|
      decreases |rest|
    {
      var k' :| k' in rest;
      if |k'| < |k| { k := k'; }
      rest := rest - {k'};
    }
  }

  lemma {:induction false} FlattenFlat(m: Layer)
    requires forall k | k in m :: !Nested(m[k])
    ensures Flatten(m) == m
  {
    forall q: Path
      ensures q in Flatten(m) <==> q in m
      ensures q in m ==> Flatten(m)[q] == m[q]
    {
      FlattenIsDeepest(m, q);
      assert q[..|q|] == q && q[|q|..] == [];
      if Deepest(m, q).Some? {
        var n := DeepestFinds(m, q, |q|);
        assert q[n..] == [] && q[..n] == q;
      } else {
        DeepestNone(m, q, |q|);
        assert !Reaches(m, q, |q|);
      }
    }
  }
}
