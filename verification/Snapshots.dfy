/** The resolved view (snapshot.go): its precedence ranks, the value found for a key inside map values
    at its parents, the single-tree view with its conflict rule, the precomputed indices, and the reads
    that use them. */
module Snapshots {
  import opened Paths
  import opened KeyCuts
  import opened Values
  import opened Aliases

  /** keys lists the keys shown to callers, lookupKeys every resolved key; both are in the order of
      their canonical strings. */
  datatype Snapshot = Snapshot(
    values: map<Path, Value>,
    sources: map<Path, seq<Label>>,
    keys: seq<Path>,
    lookupKeys: seq<Path>,
    overridden: set<Path>,
    inParent: set<Path>,
    sourceNames: seq<Bytes>,
    aliases: Graph<Path>,
    secretKeys: set<Path>)

  datatype ReadMode = ReadExact | ReadGet | ReadSection

  // ---------------------------------------------------------------- ranks

  /** rankIndex: each registered source name with its precedence rank. */
  function RankIndex(names: seq<Bytes>): map<Bytes, nat> {
    if names == [] then map[] else RankIndex(names[..|names| - 1])[names[|names| - 1] := |names|]
  }

  /** rankFor: 0 for explicit, 1+i for the i-th source, n+1 for default and unknown layers. */
  function RankFor(names: seq<Bytes>, name: Label): nat {
    match name
    case Explicit => 0
    case Of(n) => (var ranks := RankIndex(names); if n in ranks then ranks[n] else |names| + 1)
    case _ => |names| + 1
  }

  function RankOf(s: Snapshot, k: Path): nat {
    RankFor(s.sourceNames, if k in s.sources && s.sources[k] != [] then s.sources[k][0] else Unset)
  }

  /** With distinct names the i-th source ranks 1+i. */
  lemma {:induction false} RankOrder(names: seq<Bytes>, i: nat)
    requires i < |names| && forall j, k | 0 <= j < k < |names| :: names[j] != names[k]
    ensures RankFor(names, Of(names[i])) == i + 1
  {
    if i < |names| - 1 { RankOrder(names[..|names| - 1], i); }
  }

  lemma {:induction false} RankRange(names: seq<Bytes>, n: Bytes)
    ensures n in RankIndex(names) <==> n in names
    ensures n in names ==> 1 <= RankIndex(names)[n] <= |names|
  {
    if names != [] {
      RankRange(names[..|names| - 1], n);
      assert names == names[..|names| - 1] + [names[|names| - 1]];
    }
  }

  /** The explicit layer ranks before every other, and every registered source before the defaults and
      before what no registered source supplied. */
  lemma {:induction false} RankBounds(names: seq<Bytes>, l: Label)
    ensures l != Explicit ==> RankFor(names, Explicit) < RankFor(names, l)
    ensures if l == Explicit || (l.Of? && l.name in names)
            then RankFor(names, l) < RankFor(names, Default)
            else RankFor(names, l) == RankFor(names, Default)
  {
    if l.Of? { RankRange(names, l.name); }
  }

  // ---------------------------------------------------------------- entries inside parents

  function EntryAt(v: Value, r: Path): Option<Value> {
    if r == [] then Some(v)
    else if v.data.Map? && r[0] in v.data.entries then EntryAt(v.data.entries[r[0]], r[1..])
    else None
  }

  method EntryIn(m: Value, p: Path) returns (r: Option<Value>)
    ensures r == EntryAt(m, p)
  {
    var cur := m;
    for i := 0 to |p|
      invariant EntryAt(m, p) == EntryAt(cur, p[i..])
    {
      assert p[i..][0] == p[i] && p[i..][1..] == p[i + 1..];
      if !cur.data.Map? || p[i] !in cur.data.entries { return None; }
      cur := cur.data.entries[p[i]];
    }
    assert p[|p|..] == [];
    r := Some(cur);
  }

  /** The entry for r inside the map value at key a, tagged with the layer of that value. */
  function EntryUnder(s: Snapshot, a: Path, r: Path): Option<Value> {
    if a !in s.values || !s.values[a].data.Map? then None
    else
      match EntryAt(s.values[a], r)
      case None => None
      case Some(v) => Some(WithSource(v, s.values[a].source))
  }

  /** The key whose value is consulted for q at its n-th boundary; at |q| it is q itself. */
  function Holder(q: Path, n: nat): Path
    requires n <= |q|
  {
    if n == |q| then q else Cut(q, n)
  }

  /** The value for q that the key at its n-th boundary holds: q's own value, or the entry for the rest
      of q inside a map value at a parent. */
  function Held(s: Snapshot, q: Path, n: nat): Option<Value>
    requires n <= |q|
  {
    if n == |q| then (if q in s.values then Some(s.values[q]) else None)
    else if n == 0 then None
    else EntryUnder(s, Cut(q, n), Rest(q, n))
  }

  function HolderRank(s: Snapshot, q: Path, n: nat): nat
    requires n <= |q|
  {
    RankOf(s, Holder(q, n))
  }

  /** The index up to top that a scan from 0 keeps: one that qualifies replaces an earlier one unless it
      ranks lower. */
  function ScanBest(held: nat -> bool, rank: nat -> nat, top: nat): (r: Option<nat>)
    ensures r.Some? ==> r.value <= top && held(r.value)
  {
    var before := if top == 0 then None else ScanBest(held, rank, top - 1);
    if !held(top) then before
    else if before.Some? && rank(before.value) < rank(top) then before
    else Some(top)
  }

  /** n qualifies and is least in (rank, distance from the end) among those up to top that do. */
  ghost predicate IsBest(held: nat -> bool, rank: nat -> nat, top: nat, n: nat) {
    && n <= top && held(n)
    && forall m: nat | m <= top && held(m) :: rank(n) < rank(m) || (rank(n) == rank(m) && n >= m)
  }

  lemma {:induction false} ScanIsBest(held: nat -> bool, rank: nat -> nat, top: nat)
    ensures ScanBest(held, rank, top).Some? ==> IsBest(held, rank, top, ScanBest(held, rank, top).value)
    ensures ScanBest(held, rank, top).None? ==> forall m: nat | m <= top :: !held(m)
  {
    if top > 0 { ScanIsBest(held, rank, top - 1); }
  }

  lemma {:induction false} BestIsUnique(held: nat -> bool, rank: nat -> nat, top: nat, n: nat)
    requires IsBest(held, rank, top, n)
    ensures ScanBest(held, rank, top) == Some(n)
  {
    ScanIsBest(held, rank, top);
    var b := ScanBest(held, rank, top);
    assert b.Some? && held(b.value) && held(n);
  }

  function Holds(s: Snapshot, q: Path): nat -> bool {
    (n: nat) => n <= |q| && Held(s, q, n).Some?
  }

  function RankAt(s: Snapshot, q: Path): nat -> nat {
    (n: nat) => if n <= |q| then HolderRank(s, q, n) else 0
  }

  /** The best holder of q among the first top boundaries. */
  function Best(s: Snapshot, q: Path, top: nat): (r: Option<nat>)
    requires top <= |q|
    ensures r.Some? ==> r.value <= top && Held(s, q, r.value).Some?
  {
    ScanBest(Holds(s, q), RankAt(s, q), top)
  }

  /** The best parent's entry. */
  function FromParents(s: Snapshot, q: Path): Option<Value> {
    if q == [] then None
    else
      match Best(s, q, |q| - 1)
      case None => None
      case Some(n) => Held(s, q, n)
  }

  lemma {:induction false} BestNext(s: Snapshot, q: Path, n: nat)
    requires 0 < n < |q|
    ensures var before := Best(s, q, n - 1);
      Best(s, q, n) ==
        if Held(s, q, n).None? then before
        else if before.Some? && HolderRank(s, q, before.value) < RankOf(s, Cut(q, n)) then before
        else Some(n)
  {}

  /** lookupInParent. */
  method LookupInParent(s: Snapshot, q: Path) returns (found: Option<Value>)
    ensures found == FromParents(s, q)
  {
    found := None;
    if q == [] { return; }
    var bestRank := 0;
    ghost var at: Option<nat> := None;
    for n := 1 to |q|
      invariant at == Best(s, q, n - 1)
      invariant at.None? ==> found.None?
      invariant at.Some? ==> found == Held(s, q, at.value) && found.Some? && bestRank == HolderRank(s, q, at.value)
    {
      BestNext(s, q, n);
      var a := Cut(q, n);
      if a !in s.values || !s.values[a].data.Map? { continue; }
      var hit := EntryIn(s.values[a], Rest(q, n));
      if hit.None? { continue; }
      var rank := RankOf(s, a);
      if found.Some? && rank > bestRank { continue; }
      found, bestRank, at := Some(WithSource(hit.value, s.values[a].source)), rank, Some(n);
    }
  }

  // ---------------------------------------------------------------- the indices

  predicate ParentWins(s: Snapshot, q: Path, n: nat) {
    0 < n < |q| && Held(s, q, n).Some? && RankOf(s, Cut(q, n)) < RankOf(s, q)
  }

  /** A parent of higher precedence holds an entry for q. */
  ghost predicate Yields(s: Snapshot, q: Path) {
    exists n :: ParentWins(s, q, n)
  }

  ghost function InParentSet(s: Snapshot): set<Path> {
    set k | k in s.values && Lost(s, k)
  }

  method AnyParentWins(s: Snapshot, k: Path) returns (lost: bool)
    ensures lost <==> Yields(s, k)
  {
    if k == [] { return false; }
    for n := 1 to |k|
      invariant forall m | 0 < m < n :: !ParentWins(s, k, m)
    {
      var a := Cut(k, n);
      if a !in s.values || !s.values[a].data.Map? || RankOf(s, a) >= RankOf(s, k) { continue; }
      var hit := EntryIn(s.values[a], Rest(k, n));
      if hit.Some? {
        assert ParentWins(s, k, n);
        return true;
      }
    }
    return false;
  }

  lemma {:induction false} NoMapNoYield(s: Snapshot)
    requires forall k | k in s.values :: !s.values[k].data.Map?
    ensures InParentSet(s) == {}
  {}

  /** parentMapWins. */
  method ParentMapWins(s: Snapshot) returns (out: set<Path>)
    requires forall k :: k in s.lookupKeys <==> k in s.values
    ensures out == InParentSet(s)
  {
    var hasMap := exists k | k in s.values :: s.values[k].data.Map?;
    if !hasMap {
      NoMapNoYield(s);
      return {};
    }
    out := {};
    for i := 0 to |s.lookupKeys|
      invariant forall k :: k in out <==> k in s.lookupKeys[..i] && Lost(s, k)
    {
      var k := s.lookupKeys[i];
      assert s.lookupKeys[..i + 1] == s.lookupKeys[..i] + [k];
      if k in s.aliases { continue; }
      var lost := AnyParentWins(s, k);
      if lost { out := out + {k}; }
    }
    assert s.lookupKeys[..|s.lookupKeys|] == s.lookupKeys;
  }

  ghost predicate Lost(s: Snapshot, k: Path) {
    k !in s.aliases && Yields(s, k)
  }

  /** a is the key at a boundary inside k. */
  ghost predicate IsParent(a: Path, k: Path) {
    exists n :: ParentAt(a, k, n)
  }

  predicate ParentAt(a: Path, k: Path, n: nat) {
    0 < n < |k| && a == Cut(k, n)
  }

  /** k, below a, takes a's place in a map read: it comes from a higher layer, or from a's own while a's
      value is not a map. */
  predicate Outranks(s: Snapshot, k: Path, a: Path) {
    && a in s.values && a !in s.aliases
    && (RankOf(s, k) < RankOf(s, a) || (RankOf(s, k) == RankOf(s, a) && !s.values[a].data.Map?))
  }

  ghost predicate OverriddenBy(s: Snapshot, a: Path, k: Path) {
    k in s.keys && k !in s.aliases && IsParent(a, k) && Outranks(s, k, a)
  }

  ghost predicate Overridden(s: Snapshot, a: Path) {
    exists k :: OverriddenBy(s, a, k)
  }

  ghost function OverriddenSet(s: Snapshot): set<Path> {
    set a | a in s.values && Overridden(s, a)
  }

  /** The parents of k that k outranks. */
  method OutrankedParents(s: Snapshot, k: Path) returns (out: set<Path>)
    ensures forall a :: a in out <==> IsParent(a, k) && Outranks(s, k, a)
  {
    out := {};
    if k == [] { return; }
    for n := 1 to |k|
      invariant forall a | a in out :: IsParent(a, k) && Outranks(s, k, a)
      invariant forall m | 0 < m < n && Outranks(s, k, Cut(k, m)) :: Cut(k, m) in out
    {
      assert ParentAt(Cut(k, n), k, n);
      if Outranks(s, k, Cut(k, n)) { out := out + {Cut(k, n)}; }
    }
  }

  /** overriddenParents. */
  method OverriddenParents(s: Snapshot) returns (out: set<Path>)
    ensures out == OverriddenSet(s)
  {
    out := {};
    for i := 0 to |s.keys|
      invariant forall a | a in out :: Overridden(s, a)
      invariant forall j | 0 <= j < i :: Covers(s, out, s.keys[j])
    {
      var k := s.keys[i];
      if k in s.aliases { continue; }
      var more := OutrankedParents(s, k);
      assert forall a | a in more :: OverriddenBy(s, a, k);
      out := out + more;
    }
    CoversAll(s, out);
  }

  ghost predicate Covers(s: Snapshot, out: set<Path>, k: Path) {
    forall a | OverriddenBy(s, a, k) :: a in out
  }

  lemma {:induction false} CoversAll(s: Snapshot, out: set<Path>)
    requires forall j | 0 <= j < |s.keys| :: Covers(s, out, s.keys[j])
    requires forall a | a in out :: Overridden(s, a)
    ensures out == OverriddenSet(s)
  {}
}
