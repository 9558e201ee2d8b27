/** MapSource (source_map.go): lookups in a nested map, and the enumeration of its leaves into one shared
    backing array. */
module MapSources {
  import opened Lists
  import opened Paths
  import opened PathOrder
  import opened Values
  import opened Trees
  import SnapshotBuild

  // ---------------------------------------------------------------- lookups

  function AtAny(a: Any, p: Path): Option<Any> {
    if p == [] then Some(a) else if a.Dict? then At(a.fields, p) else None
  }

  /** What Get finds: nothing at the empty path. */
  function Find(m: Tree, p: Path): Option<Value> {
    if p == [] || At(m, p).None? then None else Some(NewValue(At(m, p).value))
  }

  /** MapSource.Get: any missing or non-map node on the way is a miss. */
  method Get(m: Tree, p: Path) returns (r: Option<Value>)
    ensures r == Find(m, p)
  {
    if p == [] { return None; }
    var cur := Dict(m);
    for i := 0 to |p|
      invariant AtAny(cur, p[i..]) == At(m, p)
    {
      assert p[i..][0] == p[i] && p[i..][1..] == p[i + 1..];
      if !cur.Dict? || p[i] !in cur.fields { return None; }
      cur := cur.fields[p[i]];
    }
    return Some(NewValue(cur));
  }

  // ---------------------------------------------------------------- leaves

  /** p leads to something that is not a nested map. */
  predicate IsLeaf(m: Tree, p: Path) {
    p != [] && At(m, p).Some? && !At(m, p).value.Dict?
  }

  /** p is prefix followed by a leaf of m whose first key is in done. */
  predicate LeafUnder(m: Tree, prefix: Path, done: set<Bytes>, p: Path) {
    |prefix| < |p| && p[..|prefix|] == prefix && p[|prefix|] in done && IsLeaf(m, p[|prefix|..])
  }

  ghost predicate Enumerates(ps: seq<Path>, m: Tree, prefix: Path, done: set<Bytes>) {
    NoRepeats(ps) && forall p :: p in ps <==> LeafUnder(m, prefix, done, p)
  }

  /** The leaves reached through key k, once each. */
  ghost predicate ListsKey(ps: seq<Path>, m: Tree, prefix: Path, k: Bytes) {
    Enumerates(ps, m, prefix, {k})
  }

  lemma {:induction false} CutOne(prefix: Path, k: Bytes, p: Path)
    requires |prefix| < |p|
    ensures p[..|prefix| + 1] == prefix + [k] <==> p[..|prefix|] == prefix && p[|prefix|] == k
  {}

  lemma {:induction false} UnderOneKey(m: Tree, prefix: Path, k: Bytes, p: Path)
    requires k in m
    ensures LeafUnder(m, prefix, {k}, p) <==>
      if m[k].Dict? then LeafUnder(m[k].fields, prefix + [k], m[k].fields.Keys, p) else p == prefix + [k]
  {
    var n := |prefix|;
    if n < |p| {
      CutOne(prefix, k, p);
      var rest := p[n..];
      assert rest[0] == p[n] && rest[1..] == p[n + 1..];
      if |p| == n + 1 {
        assert p[..n + 1] == p && |rest| == 1;
      } else if m[k].Dict? && p[n] == k {
        assert p[n + 1..][0] == p[n + 1];
        assert At(m, rest) == At(m[k].fields, p[n + 1..]);
      }
    }
  }

  lemma {:induction false} EnumerateMore(ps: seq<Path>, more: seq<Path>, m: Tree, prefix: Path,
                                         done: set<Bytes>, k: Bytes)
    requires Enumerates(ps, m, prefix, done) && k !in done && ListsKey(more, m, prefix, k)
    ensures Enumerates(ps + more, m, prefix, done + {k})
  {
    var all := ps + more;
    forall p ensures p in all <==> LeafUnder(m, prefix, done + {k}, p) {
      assert p in all <==> p in ps || p in more;
    }
    forall i, j | 0 <= i < j < |all| ensures all[i] != all[j] {
      if i < |ps| <= j {
        assert all[i] == ps[i] && ps[i] in ps && all[j] == more[j - |ps|] && more[j - |ps|] in more;
        assert LeafUnder(m, prefix, done, all[i]) && LeafUnder(m, prefix, {k}, all[j]);
      }
    }
  }

  lemma {:induction false} EnumerateKey(before: seq<Path>, after: seq<Path>, n: nat, m: Tree, prefix: Path,
                                        todo: set<Bytes>, k: Bytes)
    requires n <= |before| && before <= after && k in todo && todo <= m.Keys
    requires Enumerates(before[n..], m, prefix, m.Keys - todo) && ListsKey(after[|before|..], m, prefix, k)
    ensures Enumerates(after[n..], m, prefix, m.Keys - (todo - {k}))
  {
    EnumerateMore(before[n..], after[|before|..], m, prefix, m.Keys - todo, k);
    assert after[n..] == before[n..] + after[|before|..];
    assert m.Keys - (todo - {k}) == m.Keys - todo + {k};
  }

  lemma {:induction false} KeyEnumerated(more: seq<Path>, m: Tree, prefix: Path, k: Bytes)
    requires k in m
    requires if m[k].Dict? then Enumerates(more, m[k].fields, prefix + [k], m[k].fields.Keys)
             else more == [prefix + [k]]
    ensures ListsKey(more, m, prefix, k)
  {
    forall p ensures p in more <==> LeafUnder(m, prefix, {k}, p) { UnderOneKey(m, prefix, k, p); }
  }

  // ---------------------------------------------------------------- sizes

  /** How many leaves there are, and how many segments their paths hold together. */
  datatype Tally = Tally(leaves: nat, segs: nat)

  function Plus(a: Tally, b: Tally): Tally {
    Tally(a.leaves + b.leaves, a.segs + b.segs)
  }

  ghost function Pick(ks: set<Bytes>): Bytes
    requires ks != {}
    ensures Pick(ks) in ks
  {
    var k :| k in ks;
    k
  }

  /** The tallies of the keys ks, taken together. */
  ghost function SumOf(t: map<Bytes, Tally>, ks: set<Bytes>): Tally
    requires ks <= t.Keys
    decreases |ks|
  {
    if ks == {} then Tally(0, 0) else Plus(t[Pick(ks)], SumOf(t, ks - {Pick(ks)}))
  }

  /** The sum does not depend on the order the keys come in. */
  lemma {:induction false} SumAny(t: map<Bytes, Tally>, ks: set<Bytes>, k: Bytes)
    requires ks <= t.Keys && k in ks
    ensures SumOf(t, ks) == Plus(t[k], SumOf(t, ks - {k}))
    decreases |ks|
  {
    var k0 := Pick(ks);
    if k != k0 {
      SumAny(t, ks - {k0}, k);
      SumAny(t, ks - {k}, k0);
      assert ks - {k0} - {k} == ks - {k} - {k0};
    }
  }

  /** The tally of what a holds, a lying at the given depth. */
  ghost function TallyOf(a: Any, depth: nat): Tally
    decreases a, 1
  {
    if a.Dict? then SumOf(Tallies(a, depth + 1), a.fields.Keys) else Tally(1, depth)
  }

  ghost function Tallies(a: Any, depth: nat): map<Bytes, Tally>
    requires a.Dict?
    decreases a, 0
  {
    map k | k in a.fields :: TallyOf(a.fields[k], depth)
  }

  type Table = map<Bytes, Tally>

  /** t holds the tally of every entry of a. Stated so that it is applied only to keys that are Asked for. */
  ghost predicate Tabled(t: Table, a: Any, depth: nat) {
    a.Dict? && t.Keys == a.fields.Keys && forall k {:trigger Asked(k)} | k in t :: t[k] == TallyOf(a.fields[k], depth)
  }

  predicate Asked(k: Bytes) {
    true
  }

  ghost function TableOf(a: Any, depth: nat): (t: Table)
    requires a.Dict? && depth > 0
    ensures Tabled(t, a, depth) && SumOf(t, a.fields.Keys) == TallyOf(a, depth - 1)
  {
    Tallies(a, depth)
  }

  method CountLeaves(a: Any, depth: nat) returns (leaves: nat, segs: nat)
    requires a.Dict? && depth > 0
    ensures Tally(leaves, segs) == TallyOf(a, depth - 1)
    decreases a
  {
    leaves, segs := CountEntries(a, TableOf(a, depth), depth);
  }

  /** The loop of countLeaves. */
  method CountEntries(a: Any, ghost t: Table, depth: nat) returns (leaves: nat, segs: nat)
    requires Tabled(t, a, depth) && depth > 0
    ensures Tally(leaves, segs) == SumOf(t, a.fields.Keys)
    decreases a, 1
  {
    leaves, segs := 0, 0;
    var todo := a.fields.Keys;
    while todo != {}
      invariant todo <= a.fields.Keys
      invariant leaves + SumOf(t, todo).leaves == SumOf(t, a.fields.Keys).leaves
      invariant segs + SumOf(t, todo).segs == SumOf(t, a.fields.Keys).segs
      decreases |todo|
    {
      var k :| k in todo;
      SumAny(t, todo, k);
      var l, s := CountEntry(a, t, k, depth);
      leaves, segs := leaves + l, segs + s;
      todo := todo - {k};
    }
  }

  method CountEntry(a: Any, ghost t: Table, k: Bytes, depth: nat) returns (leaves: nat, segs: nat)
    requires Tabled(t, a, depth) && depth > 0 && k in a.fields
    ensures Tally(leaves, segs) == t[k]
    decreases a, 0
  {
    assert Asked(k);
    if a.fields[k].Dict? {
      leaves, segs := CountLeaves(a.fields[k], depth + 1);
    } else {
      leaves, segs := 1, depth;
    }
  }

  // ---------------------------------------------------------------- the writer

  /** A path as a stretch of the shared array, with no room to grow into the next one. */
  datatype Window = Window(start: nat, end: nat)

  /** Each window of content holds its path, and the windows lie end to end. */
  ghost predicate Holds(content: seq<Bytes>, out: seq<Window>, paths: seq<Path>) {
    && |out| == |paths|
    && (forall i | 0 <= i < |out| ::
          out[i].start <= out[i].end <= |content| && content[out[i].start..out[i].end] == paths[i])
    && (forall i | 0 <= i < |out| :: out[i].start == if i == 0 then 0 else out[i - 1].end)
    && |content| == if out == [] then 0 else out[|out| - 1].end
  }

  lemma {:induction false} HoldsMore(content: seq<Bytes>, out: seq<Window>, paths: seq<Path>, p: Path)
    requires Holds(content, out, paths)
    ensures Holds(content + p, out + [Window(|content|, |content| + |p|)], paths + [p])
  {
    var more := content + p;
    assert more[|content|..|content| + |p|] == p;
    forall i | 0 <= i < |out| ensures more[out[i].start..out[i].end] == paths[i] {
      assert more[out[i].start..out[i].end] == content[out[i].start..out[i].end];
    }
  }

  class LeafWriter {
    const arena: array<Bytes>
    var used: nat
    var out: seq<Window>
    ghost var paths: seq<Path>

    ghost predicate Valid()
      reads this, arena
    {
      used <= arena.Length && Holds(arena[..used], out, paths)
    }

    constructor (segs: nat)
      ensures Valid() && fresh(arena) && arena.Length == segs && used == 0 && paths == []
    {
      arena := new Bytes[segs](_ => []);
      used, out, paths := 0, [], [];
    }

    /** Appends p to the used part of the array. */
    method Append(p: Path)
      requires used + |p| <= arena.Length
      modifies this`used, arena
      ensures used == old(used) + |p| && arena[..used] == old(arena[..used]) + p
    {
      for i := 0 to |p|
        invariant used == old(used) && arena[..used] == old(arena[..used])
        invariant arena[used..used + i] == p[..i]
      {
        arena[used + i] := p[i];
        assert arena[used..used + i + 1] == arena[used..used + i] + [p[i]];
      }
      assert arena[..used + |p|] == arena[..used] + arena[used..used + |p|];
      used := used + |p|;
    }

    method AddLeaf(prefix: Path, k: Bytes)
      requires Valid() && used + |prefix| + 1 <= arena.Length
      modifies this, arena
      ensures Valid() && used == old(used) + |prefix| + 1 && paths == old(paths) + [prefix + [k]]
    {
      HoldsMore(arena[..used], out, paths, prefix + [k]);
      var start := used;
      Append(prefix);
      Append([k]);
      assert arena[..used] == old(arena[..used]) + (prefix + [k]);
      out := out + [Window(start, used)];
      paths := paths + [prefix + [k]];
    }

    /** leafWriter.walk. It fills exactly the counted space. */
    method Walk(a: Any, prefix: Path)
      requires a.Dict? && Valid()
      requires used + TallyOf(a, |prefix|).segs <= arena.Length
      modifies this, arena
      ensures Valid() && used == old(used) + TallyOf(a, |prefix|).segs
      ensures |paths| == |old(paths)| + TallyOf(a, |prefix|).leaves && old(paths) <= paths
      ensures Enumerates(paths[|old(paths)|..], a.fields, prefix, a.fields.Keys)
      decreases a
    {
      WalkEntries(a, TableOf(a, |prefix| + 1), prefix);
    }

    /** Its loop, over the entries in any order. */
    method WalkEntries(a: Any, ghost t: Table, prefix: Path)
      requires Tabled(t, a, |prefix| + 1) && Valid()
      requires used + SumOf(t, a.fields.Keys).segs <= arena.Length
      modifies this, arena
      ensures Valid() && used == old(used) + SumOf(t, a.fields.Keys).segs
      ensures |paths| == |old(paths)| + SumOf(t, a.fields.Keys).leaves && old(paths) <= paths
      ensures Enumerates(paths[|old(paths)|..], a.fields, prefix, a.fields.Keys)
      decreases a, 1
    {
      var todo := a.fields.Keys;
      ghost var n, u := |paths|, used;
      while todo != {}
        invariant todo <= a.fields.Keys && Valid()
        invariant old(paths) <= paths && Enumerates(paths[n..], a.fields, prefix, a.fields.Keys - todo)
        invariant |paths| + SumOf(t, todo).leaves == n + SumOf(t, a.fields.Keys).leaves
        invariant used + SumOf(t, todo).segs == u + SumOf(t, a.fields.Keys).segs
        decreases |todo|
      {
        var k :| k in todo;
        SumAny(t, todo, k);
        ghost var before := paths;
        WalkEntry(a, t, prefix, k);
        EnumerateKey(before, paths, n, a.fields, prefix, todo, k);
        todo := todo - {k};
      }
    }

    method WalkEntry(a: Any, ghost t: Table, prefix: Path, k: Bytes)
      requires Tabled(t, a, |prefix| + 1) && k in a.fields && Valid()
      requires used + t[k].segs <= arena.Length
      modifies this, arena
      ensures Valid() && used == old(used) + t[k].segs
      ensures |paths| == |old(paths)| + t[k].leaves && old(paths) <= paths
      ensures ListsKey(paths[|old(paths)|..], a.fields, prefix, k)
      decreases a, 0
    {
      assert Asked(k);
      if a.fields[k].Dict? {
        Walk(a.fields[k], prefix + [k]);
      } else {
        AddLeaf(prefix, k);
      }
      KeyEnumerated(paths[|old(paths)|..], a.fields, prefix, k);
    }

    method Read() returns (ps: seq<Path>)
      requires Valid()
      ensures ps == paths
    {
      ps := [];
      for i := 0 to |out|
        invariant ps == paths[..i]
      {
        assert arena[..used][out[i].start..out[i].end] == arena[out[i].start..out[i].end];
        ps := ps + [arena[out[i].start..out[i].end]];
      }
    }
  }

  /** No window reaches into a later one. */
  predicate Apart(out: seq<Window>) {
    forall i, j | 0 <= i < j < |out| :: out[i].start <= out[i].end <= out[j].start
  }

  lemma {:induction false} HoldsApart(content: seq<Bytes>, out: seq<Window>, paths: seq<Path>, i: nat, j: nat)
    requires Holds(content, out, paths) && i < j < |out|
    ensures out[i].end <= out[j].start
  {
    if i + 1 < j { HoldsApart(content, out, paths, i, j - 1); }
  }

  /** leafPaths: every leaf once, each a window of its own in one array, which has exactly the size that
      the count predicted and is full. */
  method LeafPaths(m: Tree) returns (ps: seq<Path>, arena: array<Bytes>, out: seq<Window>)
    ensures NoRepeats(ps) && forall p :: p in ps <==> IsLeaf(m, p)
    ensures |ps| == TallyOf(Dict(m), 0).leaves && arena.Length == TallyOf(Dict(m), 0).segs
    ensures Holds(arena[..], out, ps) && Apart(out)
  {
    var leaves, segs := CountLeaves(Dict(m), 1);
    var w := new LeafWriter(segs);
    w.Walk(Dict(m), []);
    ps := w.Read();
    arena, out := w.arena, w.out;
    assert w.used == arena.Length && arena[..] == arena[..w.used];
    forall i, j | 0 <= i < j < |out| ensures out[i].start <= out[i].end <= out[j].start {
      HoldsApart(arena[..], out, ps, i, j);
    }
    assert w.paths[0..] == w.paths;
    forall p ensures LeafUnder(m, [], m.Keys, p) <==> IsLeaf(m, p) {
      if p != [] { assert p[0..] == p && p[..0] == []; }
    }
  }

  ghost predicate ListsLeaves(ps: seq<Path>, m: Tree) {
    InOrder(ps) && forall p :: p in ps <==> IsLeaf(m, p)
  }

  lemma {:induction false} LeafIsFound(m: Tree, p: Path)
    ensures IsLeaf(m, p) ==> Find(m, p).Some?
    ensures Find(m, p).Some? && !Find(m, p).value.data.Map? ==> IsLeaf(m, p)
  {}

  /** MapSource.Keys: the leaves, sorted. Each is found by Get, and whatever Get finds that is no map is one;
      a map is a leaf only if it is a typed one. */
  method Keys(m: Tree) returns (ps: seq<Path>)
    ensures ListsLeaves(ps, m)
    ensures forall p | p in ps :: Find(m, p).Some? && (Find(m, p).value.data.Map? ==> At(m, p).value.Typed?)
    ensures forall p | Find(m, p).Some? && !Find(m, p).value.data.Map? :: p in ps
  {
    var list, _, _ := LeafPaths(m);
    ps := SnapshotBuild.SortKeys(set p | p in list);
    forall p ensures p in ps <==> IsLeaf(m, p) { assert p in ps <==> p in list; }
    forall p | Find(m, p).Some? && !Find(m, p).value.data.Map? ensures p in ps { LeafIsFound(m, p); }
  }
}
