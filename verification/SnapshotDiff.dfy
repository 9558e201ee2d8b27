/** diffSnapshots (watch.go): which listed keys a reload changed. */
module SnapshotDiff {
  import opened Lists
  import opened Paths
  import opened PathOrder
  import opened Values
  import opened Snapshots
  import opened Views
  import opened SnapshotBuild

  /** snapshotKeyValues: the listed keys that are no aliases, with their values. */
  function Shown(s: Option<Snapshot>): map<Path, Value> {
    if s.None? then map[]
    else map k | k in s.value.keys && k !in s.value.aliases && k in s.value.values :: s.value.values[k]
  }

  ghost predicate Proper(s: Option<Snapshot>) {
    s.Some? ==> Listed(s.value)
  }

  /** Added, removed or altered. */
  predicate Differs(a: map<Path, Value>, b: map<Path, Value>, p: Path) {
    || (p in a && p !in b) || (p !in a && p in b)
    || (p in a && p in b && !ValuesEqual(a[p], b[p]))
  }

  predicate Changed(prev: Option<Snapshot>, cur: Option<Snapshot>, p: Path) {
    Differs(Shown(prev), Shown(cur), p)
  }

  ghost function Diff(prev: Option<Snapshot>, cur: Option<Snapshot>): seq<Path> {
    SortSet(set p | p in Shown(prev).Keys + Shown(cur).Keys && Changed(prev, cur, p))
  }

  method KeyValues(s: Option<Snapshot>) returns (out: map<Path, Value>)
    requires Proper(s)
    ensures out == Shown(s)
  {
    out := map[];
    if s.Some? { out := Gather(s.value.keys, s.value.aliases.Keys, s.value.values); }
  }

  /** The loop of snapshotKeyValues. */
  method Gather(keys: seq<Path>, skip: set<Path>, values: map<Path, Value>) returns (out: map<Path, Value>)
    requires forall k | k in keys :: k in values
    ensures out == map k | k in keys && k !in skip :: values[k]
  {
    out := map[];
    for i := 0 to |keys|
      invariant forall k :: k in out <==> k in keys[..i] && k !in skip
      invariant forall k | k in out :: k in values && out[k] == values[k]
    {
      assert keys[i] in keys;
      if keys[i] !in skip { out := out[keys[i] := values[keys[i]]]; }
    }
    assert keys[..|keys|] == keys;
  }

  /** The two loops of diffSnapshots, over the maps in any order. No key is listed twice. */
  method DiffMaps(before: map<Path, Value>, after: map<Path, Value>) returns (out: seq<Path>)
    ensures NoRepeats(out) && forall p :: p in out <==> Differs(before, after, p)
  {
    out := [];
    var todo := after.Keys;
    while todo != {}
      invariant todo <= after.Keys && NoRepeats(out)
      invariant forall p :: p in out <==> p in after && p !in todo && Differs(before, after, p)
      decreases |todo|
    {
      var k :| k in todo;
      if k !in before || !ValuesEqual(before[k], after[k]) { out := out + [k]; }
      todo := todo - {k};
    }
    todo := before.Keys;
    while todo != {}
      invariant todo <= before.Keys && NoRepeats(out)
      invariant forall p :: p in out <==> (p in after || p !in todo) && Differs(before, after, p)
      decreases |todo|
    {
      var k :| k in todo;
      if k !in after { out := out + [k]; }
      todo := todo - {k};
    }
  }

  method DiffSnapshots(prev: Option<Snapshot>, cur: Option<Snapshot>) returns (paths: seq<Path>)
    requires Proper(prev) && Proper(cur)
    ensures paths == Diff(prev, cur)
  {
    var before := KeyValues(prev);
    var after := KeyValues(cur);
    var out := DiffMaps(before, after);
    assert (set p | p in out) == set p | p in before.Keys + after.Keys && Changed(prev, cur, p);
    paths := SortKeys(set p | p in out);
  }

  // ---------------------------------------------------------------- its laws

  /** The report lists, in order and once each, exactly the keys added, removed or altered. */
  lemma {:induction false} DiffIsExact(prev: Option<Snapshot>, cur: Option<Snapshot>, p: Path)
    ensures InOrder(Diff(prev, cur))
    ensures p in Diff(prev, cur) <==> Changed(prev, cur, p)
  {}

  /** s lists p and p is no alias. */
  predicate ListsKey(s: Snapshot, p: Path) {
    p in s.keys && p !in s.aliases
  }

  /** Between two snapshots: a key is reported exactly when one lists it and the other does not, or both do
      and its payload is another or a NaN. Which layer supplied it does not count. */
  lemma {:induction false} DiffBetween(a: Snapshot, b: Snapshot, p: Path)
    requires Listed(a) && Listed(b)
    ensures p in Diff(Some(a), Some(b)) <==>
      if ListsKey(a, p) && ListsKey(b, p) then a.values[p].data != b.values[p].data || IsNaN(a.values[p])
      else ListsKey(a, p) || ListsKey(b, p)
    ensures p in Diff(None, Some(b)) <==> ListsKey(b, p)
    ensures p in Diff(Some(a), None) <==> ListsKey(a, p)
  {
    DiffIsExact(Some(a), Some(b), p);
    DiffIsExact(None, Some(b), p);
    DiffIsExact(Some(a), None, p);
  }

  /** An empty report means the two snapshots show the same keys with equal values. */
  lemma {:induction false} EmptyDiff(prev: Option<Snapshot>, cur: Option<Snapshot>)
    ensures Diff(prev, cur) == [] <==>
      Shown(prev).Keys == Shown(cur).Keys && forall p | p in Shown(prev) :: ValuesEqual(Shown(prev)[p], Shown(cur)[p])
  {
    var a, b := Shown(prev), Shown(cur);
    if Diff(prev, cur) == [] {
      forall p ensures !Changed(prev, cur, p) { DiffIsExact(prev, cur, p); }
      assert a.Keys == b.Keys by {
        forall p ensures p in a <==> p in b { assert !Changed(prev, cur, p); }
      }
      forall p | p in a ensures ValuesEqual(a[p], b[p]) { assert !Changed(prev, cur, p); }
    } else if a.Keys == b.Keys {
      var p := Diff(prev, cur)[0];
      DiffIsExact(prev, cur, p);
    }
  }

  /** A NaN is unequal to itself, so a key that shows one is reported by every reload. */
  lemma {:induction false} NaNIsAlwaysReported(s: Option<Snapshot>, p: Path)
    requires p in Shown(s) && IsNaN(Shown(s)[p])
    ensures p in Diff(s, s)
  {
    DiffIsExact(s, s, p);
  }
}
