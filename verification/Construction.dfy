/** Building a registry: the initial sources, the requested precedence order, and the first snapshot
    (registry.go). */
module Construction {
  import opened Lists
  import opened Paths
  import opened Values
  import opened Precedence
  import opened Snapshots
  import opened SnapshotBuild
  import opened Registry
  import opened RegistryObject

  predicate Nameable(sources: seq<Source>) {
    ProperNames(sources) && DistinctNames(sources)
  }

  /** addSourceLocked over the initial sources, stopping at the first refused name: the longest prefix
      whose names are proper and distinct. */
  method AddInitial(given: seq<Source>) returns (out: seq<Source>, complete: bool)
    ensures out <= given && Nameable(out)
    ensures |out| < |given| ==> !Nameable(given[..|out| + 1])
    ensures complete <==> Nameable(given)
    ensures complete ==> out == given
  {
    out := [];
    for i := 0 to |given|
      invariant out == given[..i] && Nameable(out)
    {
      assert given[..i + 1] == out + [given[i]];
      if !NameFree(out, given[i].name) {
        RefusedName(out, given[i]);
        assert given[..i + 1] <= given;
        return out, false;
      }
      InsertKeepsNames(out, |out|, given[i]);
      assert InsertAt(out, |out|, given[i]) == out + [given[i]];
      out := out + [given[i]];
    }
    return out, true;
  }

  lemma {:induction false} RefusedName(sources: seq<Source>, s: Source)
    requires !NameFree(sources, s.name)
    ensures !Nameable(sources + [s])
  {
    var all := sources + [s];
    assert all[|sources|] == s;
    if HasSource(sources, s.name) {
      var i :| 0 <= i < |sources| && sources[i].name == s.name;
      assert all[i] == sources[i];
    }
  }

  // ---------------------------------------------------------------- the requested order

  /** The sources the order names, in that order; a name no source has is passed over. */
  function Named(sources: seq<Source>, order: seq<Bytes>): seq<Source> {
    if order == [] then []
    else
      var i := FirstNamed(sources, order[0]);
      (if i < |sources| then [sources[i]] else []) + Named(sources, order[1..])
  }

  function Unnamed(order: seq<Bytes>): Source -> bool {
    (s: Source) => s.name !in order
  }

  function Reordered(sources: seq<Source>, order: seq<Bytes>): seq<Source> {
    Named(sources, order) + Keep(sources, Unnamed(order))
  }

  /** No source is asked for twice. */
  predicate AsksOnce(sources: seq<Source>, order: seq<Bytes>) {
    forall i, j | 0 <= i < j < |order| && order[i] == order[j] :: !HasSource(sources, order[i])
  }

  lemma {:induction false} NamedMember(sources: seq<Source>, order: seq<Bytes>, s: Source)
    requires DistinctNames(sources)
    ensures s in Named(sources, order) <==> s in sources && s.name in order
  {
    if order != [] {
      NamedMember(sources, order[1..], s);
      var i := FirstNamed(sources, order[0]);
      if s in sources && s.name == order[0] {
        var j :| 0 <= j < |sources| && sources[j] == s;
        assert i <= j && i == j;
      }
    }
  }

  lemma {:induction false} NamedHead(sources: seq<Source>, order: seq<Bytes>)
    requires order != []
    ensures Named(sources, order) == Named(sources, [order[0]]) + Named(sources, order[1..])
  {
    assert [order[0]][1..] == [];
  }

  lemma {:induction false} NamedSnoc(sources: seq<Source>, order: seq<Bytes>, i: nat)
    requires i < |order|
    ensures Named(sources, order[..i + 1]) == Named(sources, order[..i]) + Named(sources, [order[i]])
  {
    if i == 0 {
      assert order[..1] == [order[0]] && order[..0] == [];
    } else {
      NamedSnoc(sources, order[1..], i - 1);
      assert order[..i + 1][1..] == order[1..][..i] && order[..i][1..] == order[1..][..i - 1];
      assert order[1..][i - 1] == order[i];
      Assoc(Named(sources, [order[0]]), Named(sources, order[1..][..i - 1]), Named(sources, [order[i]]));
      NamedHead(sources, order[..i + 1]);
      NamedHead(sources, order[..i]);
    }
  }

  /** Reordering neither loses a source nor invents one. */
  lemma {:induction false} ReorderedMember(sources: seq<Source>, order: seq<Bytes>, s: Source)
    requires DistinctNames(sources)
    ensures s in Reordered(sources, order) <==> s in sources
  {
    NamedMember(sources, order, s);
    KeepMember(sources, Unnamed(order), s);
  }

  lemma {:induction false} MembersKeepProper(a: seq<Source>, b: seq<Source>)
    requires ProperNames(a) && forall s | s in b :: s in a
    ensures ProperNames(b)
  {
    forall i | 0 <= i < |b|
      ensures b[i].name != [] && b[i].name != EXPLICIT_NAME && b[i].name != DEFAULT_NAME
    {
      assert b[i] in a;
    }
  }

  lemma {:induction false} NamedDistinct(sources: seq<Source>, order: seq<Bytes>)
    requires DistinctNames(sources)
    ensures DistinctNames(Named(sources, order)) <==> AsksOnce(sources, order)
  {
    if order != [] {
      var rest, i := order[1..], FirstNamed(sources, order[0]);
      var tail := Named(sources, rest);
      NamedDistinct(sources, rest);
      AsksOnceHead(sources, order);
      if i < |sources| {
        NamedMember(sources, rest, sources[i]);
        assert Named(sources, order) == [sources[i]] + tail;
        forall s | s in tail ensures s.name == sources[i].name ==> s == sources[i] {
          NamedMember(sources, rest, s);
          var j :| 0 <= j < |sources| && sources[j] == s;
        }
        ConsDistinct(sources[i], tail);
      } else {
        assert Named(sources, order) == tail;
      }
    }
  }

  lemma {:induction false} ConsDistinct(s: Source, rest: seq<Source>)
    ensures DistinctNames([s] + rest) <==> DistinctNames(rest) && forall t | t in rest :: t.name != s.name
  {
    var all := [s] + rest;
    if DistinctNames(all) {
      forall i, j | 0 <= i < j < |rest| ensures rest[i].name != rest[j].name {
        assert all[i + 1].name != all[j + 1].name;
      }
      forall t | t in rest ensures t.name != s.name {
        var i :| 0 <= i < |rest| && rest[i] == t;
        assert all[0].name != all[i + 1].name;
      }
    }
  }

  lemma {:induction false} AsksOnceHead(sources: seq<Source>, order: seq<Bytes>)
    requires order != []
    ensures AsksOnce(sources, order) <==>
      AsksOnce(sources, order[1..]) && (HasSource(sources, order[0]) ==> order[0] !in order[1..])
  {}

  lemma {:induction false} KeepDistinct(sources: seq<Source>, f: Source -> bool)
    requires DistinctNames(sources)
    ensures DistinctNames(Keep(sources, f))
  {
    if sources != [] {
      var rest := sources[1..];
      KeepDistinct(rest, f);
      forall t | t in Keep(rest, f) ensures t.name != sources[0].name {
        KeepMember(rest, f, t);
        var i :| 0 <= i < |rest| && rest[i] == t;
        assert sources[i + 1] == t;
      }
      ConsDistinct(sources[0], Keep(rest, f));
    }
  }

  lemma {:induction false} ConcatDistinct(a: seq<Source>, b: seq<Source>)
    requires DistinctNames(b) && forall s, t | s in a && t in b :: s.name != t.name
    ensures DistinctNames(a + b) <==> DistinctNames(a)
  {
    var all := a + b;
    if DistinctNames(all) {
      forall i, j | 0 <= i < j < |a| ensures a[i].name != a[j].name { assert all[i].name != all[j].name; }
    } else {
      assert forall i | 0 <= i < |a| :: all[i] == a[i] && a[i] in a;
      assert forall j | 0 <= j < |b| :: all[|a| + j] == b[j] && b[j] in b;
    }
  }

  /** Names stay unique exactly when the order asks for no registered source twice. */
  lemma {:induction false} ReorderedDistinct(sources: seq<Source>, order: seq<Bytes>)
    requires DistinctNames(sources)
    ensures DistinctNames(Reordered(sources, order)) <==> AsksOnce(sources, order)
  {
    var named, others := Named(sources, order), Keep(sources, Unnamed(order));
    NamedDistinct(sources, order);
    KeepDistinct(sources, Unnamed(order));
    forall s, t | s in named && t in others ensures s.name != t.name {
      NamedMember(sources, order, s);
      KeepMember(sources, Unnamed(order), t);
    }
    ConcatDistinct(named, others);
  }

  lemma {:induction false} DistinctOnce(sources: seq<Source>, s: Source)
    requires DistinctNames(sources)
    ensures multiset(sources)[s] == if s in sources then 1 else 0
  {
    if sources != [] {
      var rest := sources[1..];
      assert sources == [sources[0]] + rest;
      DistinctOnce(rest, s);
    }
  }

  /** And then the result is a permutation of the sources. */
  lemma {:induction false} ReorderedPermutes(sources: seq<Source>, order: seq<Bytes>)
    requires DistinctNames(sources) && AsksOnce(sources, order)
    ensures multiset(Reordered(sources, order)) == multiset(sources)
  {
    ReorderedDistinct(sources, order);
    forall s ensures multiset(Reordered(sources, order))[s] == multiset(sources)[s] {
      ReorderedMember(sources, order, s);
      DistinctOnce(sources, s);
      DistinctOnce(Reordered(sources, order), s);
    }
  }

  /** The order names order[x] there only. */
  predicate OnceAt(order: seq<Bytes>, x: nat)
    requires x < |order|
  {
    forall z | 0 <= z < |order| && z != x :: order[z] != order[x]
  }

  /** How many sources the first name of the order gives. */
  function HeadCount(sources: seq<Source>, order: seq<Bytes>): nat
    requires order != []
  {
    if FirstNamed(sources, order[0]) < |sources| then 1 else 0
  }

  lemma {:induction false} NamedLater(sources: seq<Source>, order: seq<Bytes>, i: nat)
    requires order != [] && i < |Named(sources, order)| && Named(sources, order)[i].name != order[0]
    ensures HeadCount(sources, order) <= i
    ensures i - HeadCount(sources, order) < |Named(sources, order[1..])|
    ensures Named(sources, order)[i] == Named(sources, order[1..])[i - HeadCount(sources, order)]
  {}

  lemma {:induction false} NamedFirst(sources: seq<Source>, order: seq<Bytes>, i: nat)
    requires DistinctNames(sources) && order != [] && OnceAt(order, 0)
    requires i < |Named(sources, order)| && Named(sources, order)[i].name == order[0]
    ensures i == 0 && HeadCount(sources, order) == 1
  {
    var rest, d := Named(sources, order[1..]), HeadCount(sources, order);
    if i >= d {
      assert Named(sources, order)[i] == rest[i - d];
      NamedMember(sources, order[1..], rest[i - d]);
    }
  }

  lemma {:induction false} NamedOrder(sources: seq<Source>, order: seq<Bytes>, x: nat, y: nat, i: nat, j: nat)
    requires DistinctNames(sources) && x < y < |order| && OnceAt(order, x) && OnceAt(order, y)
    requires i < |Named(sources, order)| && Named(sources, order)[i].name == order[x]
    requires j < |Named(sources, order)| && Named(sources, order)[j].name == order[y]
    ensures i < j
  {
    var d := HeadCount(sources, order);
    NamedLater(sources, order, j);
    if x == 0 {
      NamedFirst(sources, order, i);
    } else {
      NamedLater(sources, order, i);
      NamedOrder(sources, order[1..], x - 1, y - 1, i - d, j - d);
    }
  }

  /** Where two sources stand after reordering, by the order and their old places alone: one the order names
      stands before one it does not; of two it names, the one it names first; of two others, the one that
      stood first. */
  lemma {:induction false} ReorderedOrder(sources: seq<Source>, order: seq<Bytes>, i: nat, j: nat)
    requires DistinctNames(sources) && AsksOnce(sources, order)
    requires i < |Reordered(sources, order)| && j < |Reordered(sources, order)|
    ensures var a, b := Reordered(sources, order)[i], Reordered(sources, order)[j];
      && (a.name in order && b.name !in order ==> i < j)
      && (forall x, y | 0 <= x < y < |order| && order[x] == a.name && order[y] == b.name :: i < j)
      && (forall x, y | 0 <= x < y < |sources| && sources[x] == a && sources[y] == b
            && a.name !in order && b.name !in order :: i < j)
  {
    var named, others := Named(sources, order), Keep(sources, Unnamed(order));
    var a: Source, b: Source := (named + others)[i], (named + others)[j];
    NamedPart(sources, order, i);
    NamedPart(sources, order, j);
    ReorderedMember(sources, order, a);
    ReorderedMember(sources, order, b);
    forall x, y | 0 <= x < y < |order| && order[x] == a.name && order[y] == b.name ensures i < j {
      assert HasSource(sources, a.name) && HasSource(sources, b.name);
      NamedOrder(sources, order, x, y, i, j);
    }
    forall x, y | 0 <= x < y < |sources| && sources[x] == a && sources[y] == b
        && a.name !in order && b.name !in order ensures i < j {
      KeepOrder(sources, Unnamed(order), x, y, i - |named|, j - |named|);
    }
  }

  lemma {:induction false} NamedPart(sources: seq<Source>, order: seq<Bytes>, i: nat)
    requires DistinctNames(sources) && i < |Reordered(sources, order)|
    ensures i < |Named(sources, order)| <==> Reordered(sources, order)[i].name in order
  {
    var named, others := Named(sources, order), Keep(sources, Unnamed(order));
    if i < |named| {
      NamedMember(sources, order, named[i]);
    } else {
      KeepMember(sources, Unnamed(order), others[i - |named|]);
    }
  }

  /** A name asked for twice does put one source in two places. */
  lemma {:induction false} OrderCanRepeat(s: Source)
    ensures Reordered([s], [s.name, s.name]) == [s, s]
  {
    assert [s][1..] == [] && [s.name, s.name][1..] == [s.name] && [s.name][1..] == [];
    assert FirstNamed([s], s.name) == 0;
    assert Named([s], [s.name]) == [s];
    KeepOne(s, Unnamed([s.name, s.name]));
  }

  method IndexByName(sources: seq<Source>) returns (indexed: map<Bytes, Source>)
    requires DistinctNames(sources)
    ensures forall name :: name in indexed <==> HasSource(sources, name)
    ensures forall name | name in indexed ::
      FirstNamed(sources, name) < |sources| && indexed[name] == sources[FirstNamed(sources, name)]
  {
    indexed := map[];
    for i := 0 to |sources|
      invariant forall name :: name in indexed <==> exists j | 0 <= j < i :: sources[j].name == name
      invariant forall j | 0 <= j < i :: sources[j].name in indexed && indexed[sources[j].name] == sources[j]
    {
      indexed := indexed[sources[i].name := sources[i]];
    }
    forall name | name in indexed
      ensures FirstNamed(sources, name) < |sources| && indexed[name] == sources[FirstNamed(sources, name)]
    {
      var j :| 0 <= j < |sources| && sources[j].name == name;
      assert FirstNamed(sources, name) <= j;
    }
  }

  lemma {:induction false} NamedOne(sources: seq<Source>, name: Bytes)
    ensures Named(sources, [name]) ==
      if HasSource(sources, name) then [sources[FirstNamed(sources, name)]] else []
  {}

  lemma {:induction false} NamedNext(sources: seq<Source>, order: seq<Bytes>, i: nat)
    requires i < |order|
    ensures Named(sources, order[..i + 1]) == Named(sources, order[..i])
         + if HasSource(sources, order[i]) then [sources[FirstNamed(sources, order[i])]] else []
    ensures forall name :: name in order[..i + 1] <==> name in order[..i] || name == order[i]
  {
    NamedSnoc(sources, order, i);
    NamedOne(sources, order[i]);
    assert order[..i + 1] == order[..i] + [order[i]];
  }

  /** The loop over the order; consumed are the names it found. */
  method TakeNamed(sources: seq<Source>, order: seq<Bytes>) returns (out: seq<Source>, consumed: set<Bytes>)
    requires DistinctNames(sources)
    ensures out == Named(sources, order)
    ensures forall name :: name in consumed <==> name in order && HasSource(sources, name)
  {
    var indexed := IndexByName(sources);
    out, consumed := [], {};
    for i := 0 to |order|
      invariant out == Named(sources, order[..i])
      invariant forall name :: name in consumed <==> name in order[..i] && HasSource(sources, name)
    {
      NamedNext(sources, order, i);
      if order[i] in indexed {
        out := out + [indexed[order[i]]];
        consumed := consumed + {order[i]};
      }
    }
    assert order[..|order|] == order;
  }

  /** The loop over the sources that are left. */
  method TakeOthers(sources: seq<Source>, order: seq<Bytes>, consumed: set<Bytes>) returns (rest: seq<Source>)
    requires forall name :: name in consumed <==> name in order && HasSource(sources, name)
    ensures rest == Keep(sources, Unnamed(order))
  {
    rest := Select(sources, 0, |sources|, (s: Source) => s.name !in consumed);
    assert sources[0..|sources|] == sources;
    forall i | 0 <= i < |sources| ensures sources[i].name in consumed <==> sources[i].name in order {
      assert HasSource(sources, sources[i].name);
    }
    KeepSame(sources, (s: Source) => s.name !in consumed, Unnamed(order));
  }

  /** applyPrecedenceLocked. */
  method ApplyPrecedence(sources: seq<Source>, order: seq<Bytes>) returns (out: seq<Source>)
    requires DistinctNames(sources)
    ensures out == Reordered(sources, order)
  {
    var named, consumed := TakeNamed(sources, order);
    var others := TakeOthers(sources, order, consumed);
    out := named + others;
  }

  // ---------------------------------------------------------------- the first snapshot

  /** The sources a new registry starts with; complete says none was refused. */
  method InitialSources(given: seq<Source>, order: seq<Bytes>) returns (sources: seq<Source>, complete: bool)
    ensures complete <==> Nameable(given)
    ensures complete ==> sources == if order == [] then given else Reordered(given, order)
    ensures !complete ==> sources < given && Nameable(sources) && !Nameable(given[..|sources| + 1])
    ensures ProperNames(sources)
    ensures AsksOnce(given, order) ==> DistinctNames(sources)
  {
    sources, complete := AddInitial(given);
    if complete && order != [] {
      forall s | s in Reordered(given, order) ensures s in given { ReorderedMember(given, order, s); }
      MembersKeepProper(given, Reordered(given, order));
      ReorderedDistinct(given, order);
      sources := ApplyPrecedence(sources, order);
    }
  }

  /** The first snapshot. A rejected one that holds values leaves no registry; a rejected empty one leaves
      a registry without a snapshot. */
  method FirstSnapshot(cfg: Config, sources: seq<Source>) returns (reg: RegistryState?, cand: Snapshot)
    requires ProperNames(sources)
    ensures Built(InputsOf(cfg, Initial(sources)), cand)
    ensures reg == null <==> !Accepts(cfg, Initial(sources), cand) && cand.values != map[]
    ensures reg != null ==> fresh(reg) && reg.cfg == cfg && reg.Valid()
    ensures reg != null ==>
      reg.View() == if Accepts(cfg, Initial(sources), cand) then Install(Initial(sources), cand) else Initial(sources)
  {
    var r := new RegistryState(cfg, sources);
    var ok;
    ok, cand := r.RebuildSnapshot();
    BuiltFields(InputsOf(cfg, Initial(sources)), cand);
    if !ok && cand.values != map[] { return null, cand; }
    reg := r;
  }

  /** What buildRegistry makes of its options: the sources kept, whether all were, the snapshot built from
      them, and the registry's state, unless there is none. */
  ghost predicate Constructed(cfg: Config, given: seq<Source>, order: seq<Bytes>, complete: bool,
                              sources: seq<Source>, cand: Snapshot, state: Option<State>) {
    && (complete <==> Nameable(given))
    && (if complete then sources == (if order == [] then given else Reordered(given, order))
        else sources < given && Nameable(sources) && !Nameable(given[..|sources| + 1]))
    && Built(InputsOf(cfg, Initial(sources)), cand)
    && state == (if Accepts(cfg, Initial(sources), cand) then Some(Install(Initial(sources), cand))
                 else if cand.values != map[] then None
                 else Some(Initial(sources)))
  }

  /** buildRegistry. It reports an incomplete list of sources beside the registry it could build. */
  method BuildRegistry(cfg: Config, given: seq<Source>, order: seq<Bytes>)
    returns (reg: RegistryState?, complete: bool, ghost sources: seq<Source>, ghost cand: Snapshot)
    ensures Constructed(cfg, given, order, complete, sources, cand, if reg == null then None else Some(reg.View()))
    ensures reg != null ==> fresh(reg) && reg.cfg == cfg && reg.Valid()
    ensures AsksOnce(given, order) ==> DistinctNames(sources)
  {
    var start, all := InitialSources(given, order);
    sources, complete := start, all;
    reg, cand := FirstSnapshot(cfg, start);
  }
}
