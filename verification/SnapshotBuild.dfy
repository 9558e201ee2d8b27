/** buildSnapshot (snapshot.go): from the registry's maps and sources to a frozen snapshot. */
module SnapshotBuild {
  import opened Paths
  import opened PathOrder
  import opened Lists
  import opened Values
  import opened Aliases
  import opened Layers
  import opened Arena
  import opened Precedence
  import opened Stamping
  import opened Snapshots
  import opened Views

  // ---------------------------------------------------------------- the meaning of a build

  function SourceKeys(sources: seq<Source>): set<Path> {
    if sources == [] then {} else (set p | p in sources[0].keys) + SourceKeys(sources[1..])
  }

  /** The inputs with both layers flattened. */
  function Flattened(inp: Inputs): Inputs {
    inp.(explicits := Flatten(inp.explicits), defaults := Flatten(inp.defaults))
  }

  function Candidates(inp: Inputs): set<Path> {
    inp.explicits.Keys + inp.defaults.Keys + inp.aliases.Keys + inp.bound + SourceKeys(inp.sources)
  }

  function Targets(aliases: Graph<Path>, ks: set<Path>): set<Path> {
    set k | k in ks :: Target(aliases, k)
  }

  /** The keys the candidates stand for. */
  function Roots(inp: Inputs): set<Path> {
    Targets(inp.aliases, Candidates(inp))
  }

  ghost function Canonical(inp: Inputs): map<Path, Resolved> {
    map c | c in Roots(inp) && Resolution(inp, c).Some? :: Resolution(inp, c).value
  }

  function Names(sources: seq<Source>): seq<Bytes> {
    seq(|sources|, i requires 0 <= i < |sources| => sources[i].name)
  }

  /** k is in the snapshot only because a bind read it. */
  predicate BoundOnly(inp: Inputs, k: Path) {
    && k in inp.bound && k !in SourceKeys(inp.sources)
    && k !in inp.explicits && k !in inp.defaults && k !in inp.aliases
  }

  /** How the source with this label names the entries of its store, if it can. */
  function NativeOf(sources: seq<Source>, who: Label): Option<Path -> Bytes> {
    if sources == [] then None
    else if Of(sources[0].name) == who then sources[0].native
    else NativeOf(sources[1..], who)
  }

  /** The source-listed key e names the same entry as the bound-only key b, won by the same source. */
  predicate DuplicateOf(inp: Inputs, full: map<Path, Resolved>, b: Path, e: Path) {
    && BoundOnly(inp, b) && b in full && full[b].sources != []
    && e != b && e in SourceKeys(inp.sources) && e in full && full[e].sources != []
    && full[e].sources[0] == full[b].sources[0]
    && var native := NativeOf(inp.sources, full[b].sources[0]);
       native.Some? && native.value(e) == native.value(b)
  }

  ghost predicate Duplicate(inp: Inputs, full: map<Path, Resolved>, e: Path) {
    exists b :: DuplicateOf(inp, full, b, e)
  }

  ghost function Duplicates(inp: Inputs, full: map<Path, Resolved>): set<Path> {
    set e | e in full && Duplicate(inp, full, e)
  }

  ghost predicate SomeStarts(all: seq<Path>, prefix: Bytes) {
    exists q :: q in all && StartsWith(Canon(q), prefix)
  }

  /** k is a bound-only map whose entries are listed as keys of their own. */
  ghost predicate ListedByParts(inp: Inputs, full: map<Path, Resolved>, all: seq<Path>, k: Path) {
    && k in full && full[k].value.data.Map? && BoundOnly(inp, k)
    && SomeStarts(all, Canon(k) + [DOT])
  }

  ghost function Listing(inp: Inputs, full: map<Path, Resolved>): seq<Path> {
    var all := SortSet(full.Keys - Duplicates(inp, full));
    Keep(all, k => !ListedByParts(inp, full, all, k))
  }

  /** The snapshot before its indices are filled. */
  ghost function Frame(inp: Inputs, full: map<Path, Resolved>): Snapshot {
    Snapshot(
      map k | k in full :: full[k].value,
      map k | k in full :: full[k].sources,
      Listing(inp, full),
      SortSet(full.Keys),
      {}, {},
      Names(inp.sources), inp.aliases, inp.secretKeys)
  }

  ghost function Indexed(s: Snapshot): Snapshot {
    s.(overridden := OverriddenSet(s), inParent := InParentSet(s))
  }

  /** The snapshot when the aliases are stamped in the given order. */
  ghost function BuildAlong(inp: Inputs, order: seq<Path>): Snapshot {
    var flat := Flattened(inp);
    Indexed(Frame(flat, StampAlong(flat.aliases, Canonical(flat), order)))
  }

  /** s is what buildSnapshot gives for inp when it meets the aliases in some order. */
  ghost predicate BuiltInSomeOrder(inp: Inputs, s: Snapshot) {
    exists order :: Orders(order, inp.aliases.Keys) && s == BuildAlong(inp, order)
  }

  /** The same, stated so that its meaning is drawn on only where something is Examined. */
  ghost predicate Built(inp: Inputs, s: Snapshot) {
    forall n {:trigger Examined(n)} | Examined(n) :: BuiltInSomeOrder(inp, s)
  }

  predicate Examined(n: nat) {
    true
  }

  lemma {:induction false} BuiltMeans(inp: Inputs, s: Snapshot)
    ensures Built(inp, s) <==> BuiltInSomeOrder(inp, s)
  {
    assert Examined(0);
  }

  /** The snapshot for every order, wherever the order does not matter. */
  ghost function Build(inp: Inputs): Snapshot {
    var flat := Flattened(inp);
    Indexed(Frame(flat, Stamped(flat.aliases, Canonical(flat))))
  }

  // ---------------------------------------------------------------- what a build guarantees

  lemma {:induction false} IndexedSame(s: Snapshot)
    ensures InParentSet(Indexed(s)) == InParentSet(s) && OverriddenSet(Indexed(s)) == OverriddenSet(s)
  {
    var t := Indexed(s);
    forall k: Path ensures RankOf(t, k) == RankOf(s, k) {}
    forall k ensures Yields(t, k) <==> Yields(s, k) {
      forall n ensures ParentWins(t, k, n) <==> ParentWins(s, k, n) {}
    }
    forall a ensures Overridden(t, a) <==> Overridden(s, a) {
      forall k ensures OverriddenBy(t, a, k) <==> OverriddenBy(s, a, k) {}
    }
  }

  /** Neither a candidate key nor an alias target is [] or [[]], the keys whose strings are cut oddly. */
  ghost predicate OrdinaryInputs(inp: Inputs) {
    && (forall k | k in Candidates(Flattened(inp)) :: k != [] && k != [[]])
    && (forall a | a in inp.aliases :: inp.aliases[a] != [] && inp.aliases[a] != [[]])
  }

  lemma {:induction false} TargetOrdinary(aliases: Graph<Path>, k: Path, budget: nat)
    requires k != [] && k != [[]]
    requires forall a | a in aliases :: aliases[a] != [] && aliases[a] != [[]]
    ensures Resolve(aliases, k, budget) != [] && Resolve(aliases, k, budget) != [[]]
    decreases budget
  {
    if budget > 0 && k in aliases { TargetOrdinary(aliases, aliases[k], budget - 1); }
  }

  lemma {:induction false} FullOrdinary(inp: Inputs, order: seq<Path>, k: Path)
    requires OrdinaryInputs(inp) && Orders(order, inp.aliases.Keys)
    requires k in StampAlong(inp.aliases, Canonical(Flattened(inp)), order)
    ensures k != [] && k != [[]]
  {
    var flat := Flattened(inp);
    assert k in flat.aliases ==> k in Candidates(flat);
    if k !in flat.aliases {
      StampsElsewhere(flat.aliases, Canonical(flat), order, k);
      var c :| c in Candidates(flat) && Target(flat.aliases, c) == k;
      TargetOrdinary(flat.aliases, c, MAX_ALIAS_DEPTH);
    }
  }

  lemma {:induction false} FrameListed(inp: Inputs, full: map<Path, Resolved>)
    ensures Listed(Frame(inp, full))
  {
    var all := SortSet(full.Keys - Duplicates(inp, full));
    var f := (k: Path) => !ListedByParts(inp, full, all, k);
    KeepInOrder(all, f);
    forall k | k in Listing(inp, full) ensures k in full { KeepMember(all, f, k); }
  }

  /** Every built snapshot is listed in order and its indices are right, whatever the chains and keys.
      Ordinary inputs give ordinary keys. */
  lemma {:induction false} BuildReadable(inp: Inputs, order: seq<Path>)
    requires Orders(order, inp.aliases.Keys)
    ensures Listed(BuildAlong(inp, order)) && IndicesRight(BuildAlong(inp, order))
    ensures OrdinaryInputs(inp) ==> [] !in BuildAlong(inp, order).values && [[]] !in BuildAlong(inp, order).values
  {
    var flat := Flattened(inp);
    var full := StampAlong(flat.aliases, Canonical(flat), order);
    IndexedSame(Frame(flat, full));
    FrameListed(flat, full);
    if OrdinaryInputs(inp) {
      forall k | k in full ensures k != [] && k != [[]] { FullOrdinary(inp, order, k); }
    }
  }

  /** A built snapshot carries its inputs' aliases, secrets and source names, and can be listed. */
  lemma {:induction false} BuiltFields(inp: Inputs, s: Snapshot)
    requires Built(inp, s)
    ensures s.aliases == inp.aliases && s.secretKeys == inp.secretKeys && s.sourceNames == Names(inp.sources)
    ensures Listed(s)
  {
    BuiltMeans(inp, s);
    var order :| Orders(order, inp.aliases.Keys) && s == BuildAlong(inp, order);
    BuildReadable(inp, order);
  }

  /** In a built snapshot an alias agrees with its target if the target is no alias and has a value; with
      short chains every alias does. */
  lemma {:induction false} BuildAgrees(inp: Inputs, order: seq<Path>, a: Path)
    requires Orders(order, inp.aliases.Keys)
    ensures var s, c := BuildAlong(inp, order), Target(inp.aliases, a);
      (c !in inp.aliases && c in s.values) || AllShort(inp.aliases) ==> AliasAgrees(s, a)
  {
    BuildMeaning(inp, order, a);
    BuildMeaning(inp, order, Target(inp.aliases, a));
    if AllShort(inp.aliases) {
      ResolvesIffShort(inp.aliases, a);
      assert Short(inp.aliases, a);
    }
  }

  /** Values and provenance in a built snapshot, whatever order the aliases were stamped in: a key that is
      no alias holds what it resolves to; an alias whose target is no alias and has a value holds what the
      target does; and when all chains are short, every key holds exactly what its target resolves to. */
  lemma {:induction false} BuildMeaning(inp: Inputs, order: seq<Path>, k: Path)
    requires Orders(order, inp.aliases.Keys)
    ensures var s, flat, c := BuildAlong(inp, order), Flattened(inp), Target(inp.aliases, k);
      && s.values.Keys == s.sources.Keys
      && (k !in inp.aliases || AllShort(inp.aliases) ==>
            && (k in s.values <==> c in Roots(flat) && Resolution(flat, c).Some?)
            && (k in s.values ==> Resolution(flat, c) == Some(Resolved(s.values[k], s.sources[k]))))
      && (c !in inp.aliases && c in s.values ==>
            k in s.values && s.values[k] == s.values[c] && s.sources[k] == s.sources[c])
  {
    var flat, c := Flattened(inp), Target(inp.aliases, k);
    var base := Canonical(flat);
    if k !in inp.aliases { StampsElsewhere(inp.aliases, base, order, k); }
    if c !in inp.aliases {
      StampsElsewhere(inp.aliases, base, order, c);
      if k in inp.aliases && c in base { StampsAlias(inp.aliases, base, order, k); }
    }
    if AllShort(inp.aliases) {
      ShortIsFree(inp.aliases, base);
      FreeOrder(inp.aliases, base, order);
      RootsNotAliases(flat);
      if k in inp.aliases { assert k in Candidates(flat); }
    }
  }

  lemma {:induction false} RootsNotAliases(inp: Inputs)
    requires AllShort(inp.aliases)
    ensures forall c | c in Canonical(inp) :: c !in inp.aliases
  {
    forall c | c in Roots(inp) ensures c !in inp.aliases {
      var k :| k in Candidates(inp) && Target(inp.aliases, k) == c;
      ResolvesIffShort(inp.aliases, k);
      assert Short(inp.aliases, k);
    }
  }

  // ---------------------------------------------------------------- when the order of the aliases matters

  lemma {:induction false} PartsTell(a: map<Path, Resolved>, b: map<Path, Resolved>)
    requires (map k | k in a :: a[k].value) == (map k | k in b :: b[k].value)
    requires (map k | k in a :: a[k].sources) == (map k | k in b :: b[k].sources)
    ensures a == b
  {
    var va, vb := map k | k in a :: a[k].value, map k | k in b :: b[k].value;
    var sa, sb := map k | k in a :: a[k].sources, map k | k in b :: b[k].sources;
    assert a.Keys == va.Keys && b.Keys == vb.Keys;
    forall k | k in a ensures a[k] == b[k] { assert va[k] == vb[k] && sa[k] == sb[k]; }
  }

  lemma {:induction false} FrameTells(inp: Inputs, a: map<Path, Resolved>, b: map<Path, Resolved>)
    requires Indexed(Frame(inp, a)) == Indexed(Frame(inp, b))
    ensures a == b
  {
    assert Frame(inp, a).values == Frame(inp, b).values && Frame(inp, a).sources == Frame(inp, b).sources;
    PartsTell(a, b);
  }

  /** The inputs give one snapshot for every map order exactly when no alias is disturbed, and that one is
      Build. Short chains are enough. */
  lemma {:induction false} OneSnapshotIffFree(inp: Inputs)
    ensures (forall s, t | BuiltInSomeOrder(inp, s) && BuiltInSomeOrder(inp, t) :: s == t)
       <==> OrderFree(inp.aliases, Canonical(Flattened(inp)))
    ensures OrderFree(inp.aliases, Canonical(Flattened(inp))) ==> forall s | BuiltInSomeOrder(inp, s) :: s == Build(inp)
    ensures AllShort(inp.aliases) ==> OrderFree(inp.aliases, Canonical(Flattened(inp)))
  {
    var flat := Flattened(inp);
    var base := Canonical(flat);
    if AllShort(inp.aliases) { ShortIsFree(inp.aliases, base); }
    if OrderFree(inp.aliases, base) {
      forall s | BuiltInSomeOrder(inp, s) ensures s == Build(inp) {
        var order :| Orders(order, inp.aliases.Keys) && s == BuildAlong(inp, order);
        FreeOrder(inp.aliases, base, order);
      }
    } else {
      var a :| a in inp.aliases && !Undisturbed(inp.aliases, base, a);
      var x, y := DisturbedShows(inp.aliases, base, a);
      assert BuiltInSomeOrder(inp, BuildAlong(inp, x)) && BuiltInSomeOrder(inp, BuildAlong(inp, y));
      if BuildAlong(inp, x) == BuildAlong(inp, y) {
        FrameTells(flat, StampAlong(inp.aliases, base, x), StampAlong(inp.aliases, base, y));
      }
    }
  }

  /** One explicit value, at the end of a line of 34 aliases. */
  function LineInputs(ks: seq<Path>, v: Value): Inputs
    requires |ks| == 35
  {
    Inputs([], map[ks[34] := v], map[], Line(ks, 34), map[], {}, {}, MergeShadow)
  }

  /** A layer that holds none of the names has nothing to say. */
  lemma {:induction false} NoneIn(layer: Layer, names: seq<Path>)
    requires forall k | k in names :: k !in layer
    ensures FirstIn(layer, names).None?
  {
    if names != [] { NoneIn(layer, names[1..]); }
  }

  lemma {:induction false} LineResolves(ks: seq<Path>, v: Value, k: Path)
    requires NoRepeats(ks) && |ks| == 35 && !Nested(v)
    ensures Resolution(LineInputs(ks, v), ks[34]).Some?
    ensures k in Line(ks, 34) ==> Resolution(LineInputs(ks, v), k).None?
  {
    var inp := LineInputs(ks, v);
    LineLinks(ks, 34);
    var names := Spellings(inp, k);
    if k in inp.aliases {
      forall x | x in names ensures x !in inp.explicits { assert x == k || x in AliasesOf(inp.aliases, k); }
      NoneIn(inp.explicits, names);
      NoneIn(inp.defaults, names);
    }
  }

  /** So the order in which a map is iterated does show in the snapshot: 34 accepted registrations and one
      explicit value. */
  lemma {:induction false} LongLineShows(ks: seq<Path>, v: Value)
    requires NoRepeats(ks) && |ks| == 35 && !Nested(v)
    ensures forall i | 0 <= i < 34 :: Acceptable(Line(ks, i), ks[i], ks[i + 1])
    ensures exists s, t :: BuiltInSomeOrder(LineInputs(ks, v), s) && BuiltInSomeOrder(LineInputs(ks, v), t) && s != t
  {
    var inp := LineInputs(ks, v);
    FlattenFlat(inp.explicits);
    FlattenFlat(inp.defaults);
    assert Flattened(inp) == inp;
    LineLinks(ks, 34);
    LineResolves(ks, v, ks[0]);
    LineResolves(ks, v, ks[32]);
    assert ks[34] in Candidates(inp) && Target(inp.aliases, ks[34]) == ks[34];
    LongLineDisturbs(ks, Canonical(inp));
    OneSnapshotIffFree(inp);
  }

  // ---------------------------------------------------------------- the source's loops

  lemma {:induction false} SourceKeysAre(sources: seq<Source>, x: Path)
    ensures x in SourceKeys(sources) <==> exists i :: 0 <= i < |sources| && x in sources[i].keys
  {
    if sources != [] {
      SourceKeysAre(sources[1..], x);
      if i :| 0 <= i < |sources| && x in sources[i].keys {
        if i > 0 { assert sources[1..][i - 1] == sources[i]; }
      }
    }
  }

  /** Some layer, the aliases, a bind or a source's own list mentions p. */
  ghost predicate MentionedIn(inp: Inputs, p: Path) {
    || p in inp.explicits || p in inp.defaults || p in inp.aliases || p in inp.bound
    || exists i :: 0 <= i < |inp.sources| && p in inp.sources[i].keys
  }

  method CollectCandidateKeys(inp: Inputs) returns (out: set<Path>)
    ensures out == Candidates(inp)
    ensures forall p :: p in out <==> MentionedIn(inp, p)
  {
    out := inp.explicits.Keys + inp.defaults.Keys + inp.aliases.Keys + inp.bound;
    ghost var fixed := out;
    for i := 0 to |inp.sources|
      invariant fixed + SourceKeys(inp.sources) == out + SourceKeys(inp.sources[i..])
    {
      assert inp.sources[i..][0] == inp.sources[i] && inp.sources[i..][1..] == inp.sources[i + 1..];
      out := out + set p | p in inp.sources[i].keys;
    }
    assert inp.sources[|inp.sources|..] == [];
    forall p ensures p in out <==> MentionedIn(inp, p) { SourceKeysAre(inp.sources, p); }
  }

  /** Sorting: any procedure that lists the keys in order gives this list. */
  method SortKeys(ks: set<Path>) returns (r: seq<Path>)
    ensures r == SortSet(ks)
  {
    r := [];
    var rest := ks;
    while rest != {}
      invariant rest <= ks && InOrder(r)
      invariant forall k :: k in ks <==> k in r || k in rest
      invariant forall k, x | k in r && x in rest :: Before(k, x)
      decreases |rest|
    {
      var m := LeastOf(rest);
      r := r + [m];
      rest := rest - {m};
    }
    InOrderUnique(r, SortSet(ks));
  }

  method LeastOf(ks: set<Path>) returns (m: Path)
    requires ks != {}
    ensures IsLeast(m, ks)
  {
    m :| m in ks;
    var rest := ks - {m};
    while rest != {}
      invariant rest <= ks && m in ks - rest
      invariant forall x | x in ks && x !in rest && x != m :: Before(m, x)
      decreases |rest|
    {
      var x :| x in rest;
      BeforeTotal(m, x);
      var c := ComparePaths(x, m);
      if c < 0 {
        forall y | y in ks && y !in rest && y != m ensures Before(x, y) { BeforeTrans(x, m, y); }
        m := x;
      }
      rest := rest - {x};
    }
  }

  /** invertAliases. */
  method InvertAliases(aliases: Graph<Path>) returns (out: map<Path, seq<Path>>)
    ensures Inverts(out, aliases)
  {
    var targets := set a | a in aliases :: Target(aliases, a);
    out := map[];
    var todo := targets;
    while todo != {}
      invariant todo <= targets && out.Keys == targets - todo
      invariant forall c | c in out :: out[c] == AliasesOf(aliases, c)
      decreases |todo|
    {
      var c :| c in todo;
      var list := SortKeys(set a | a in aliases && Target(aliases, a) == c);
      out := out[c := list];
      todo := todo - {c};
    }
    forall c | c !in out ensures AliasesOf(aliases, c) == [] {
      assert (set a | a in aliases && Target(aliases, a) == c) == {};
    }
  }

  /** What the first loop has recorded about key c agrees with what c resolves to. */
  ghost predicate Recorded(want: Option<Resolved>, c: Path, values: map<Path, Value>,
                           provs: map<Path, Provenance>, issued: Issued) {
    match want
    case None => c !in values && c !in provs
    case Some(r) => c in values && c in provs && values[c] == r.value && Records(provs[c], issued, r.sources)
  }

  type Wanted = Path -> Option<Resolved>

  /** The keys in seen are recorded, and nothing else is. */
  ghost predicate Partial(want: Wanted, seen: set<Path>, values: map<Path, Value>,
                          provs: map<Path, Provenance>, issued: Issued) {
    && values.Keys == provs.Keys <= seen
    && forall c | c in seen :: Recorded(want(c), c, values, provs, issued)
  }

  /** want is what the inputs resolve to. Stated so that it is applied only to keys that are Asked for. */
  ghost predicate Means(want: Wanted, inp: Inputs) {
    forall c {:trigger Asked(c)} :: want(c) == Resolution(inp, c)
  }

  predicate Asked(c: Path) {
    true
  }

  /** One more key resolved, in an arena that kept its lists. */
  lemma {:induction false} PartialStep(want: Wanted, seen: set<Path>, values: map<Path, Value>,
                                       provs: map<Path, Provenance>, a: Issued, b: Issued, c: Path, o: Outcome)
    requires Partial(want, seen, values, provs, a) && Kept(a, b)
    requires c !in seen && Matches(o, b, want(c))
    ensures if o.Found? then Partial(want, seen + {c}, values[c := o.value], provs[c := o.sources], b)
            else Partial(want, seen + {c}, values, provs, b)
  {}

  ghost predicate Inverts(out: map<Path, seq<Path>>, aliases: Graph<Path>) {
    forall c :: if c in out then out[c] == AliasesOf(aliases, c) else AliasesOf(aliases, c) == []
  }

  /** The first loop of buildSnapshot, over the candidates in any order. */
  method ResolveAll(inp: Inputs, ghost want: Wanted, aliasesOf: map<Path, seq<Path>>, candidates: set<Path>,
                    arena: SourceArena)
    returns (values: map<Path, Value>, provs: map<Path, Provenance>)
    requires Means(want, inp) && Inverts(aliasesOf, inp.aliases) && AllNamed(inp.sources)
    requires arena.Valid()
    modifies arena.Repr
    ensures arena.Valid()
    ensures Partial(want, Targets(inp.aliases, candidates), values, provs, arena.issued)
  {
    var todo, seen: set<Path> := candidates, {};
    values, provs := map[], map[];
    while todo != {}
      invariant todo <= candidates
      invariant seen == Targets(inp.aliases, candidates - todo)
      invariant arena.Valid() && fresh(arena.Repr - old(arena.Repr))
      invariant Partial(want, seen, values, provs, arena.issued)
      decreases |todo|
    {
      var k :| k in todo;
      seen, values, provs := ResolveNext(inp, want, aliasesOf, k, arena, seen, values, provs);
      MoreTargets(inp.aliases, candidates, todo, k);
      todo := todo - {k};
    }
    assert candidates - {} == candidates;
  }

  lemma {:induction false} MoreTargets(aliases: Graph<Path>, all: set<Path>, todo: set<Path>, k: Path)
    requires k in todo && todo <= all
    ensures Targets(aliases, all - (todo - {k})) == Targets(aliases, all - todo) + {Target(aliases, k)}
  {}

  predicate AllNamed(sources: seq<Source>) {
    forall i | 0 <= i < |sources| :: sources[i].name != []
  }

  method ResolveNext(inp: Inputs, ghost want: Wanted, aliasesOf: map<Path, seq<Path>>, k: Path, arena: SourceArena,
                     seen: set<Path>, values: map<Path, Value>, provs: map<Path, Provenance>)
    returns (seen': set<Path>, values': map<Path, Value>, provs': map<Path, Provenance>)
    requires Means(want, inp) && Inverts(aliasesOf, inp.aliases) && AllNamed(inp.sources)
    requires arena.Valid() && Partial(want, seen, values, provs, arena.issued)
    modifies arena.Repr
    ensures arena.Valid() && fresh(arena.Repr - old(arena.Repr))
    ensures seen' == seen + {Target(inp.aliases, k)} && Partial(want, seen', values', provs', arena.issued)
  {
    seen', values', provs' := seen, values, provs;
    var c := ResolveAliasChain(k, inp.aliases);
    if c in seen { return; }
    var o := ResolveKey(inp, c, if c in aliasesOf then aliasesOf[c] else [], arena);
    assert Asked(c);
    PartialStep(want, seen, values, provs, old(arena.issued), arena.issued, c, o);
    seen' := seen + {c};
    if o.Found? { values', provs' := values[c := o.value], provs[c := o.sources]; }
  }

  /** buildSnapshot: for every iteration order of every map, the snapshot the inputs mean, whose provenance
      lists are read from the arena only after the last append. Only the order of the aliases can show,
      and OneSnapshotIffFree says when. */
  method BuildSnapshot(inp: Inputs) returns (s: Snapshot)
    requires AllNamed(inp.sources)
    ensures Built(inp, s) && Listed(s)
  {
    var explicits := FlattenLayer(inp.explicits);
    var defaults := FlattenLayer(inp.defaults);
    var flat := inp.(explicits := explicits, defaults := defaults);
    assert flat == Flattened(inp);
    var arena := new SourceArena(|inp.sources|);
    ghost var want := (c: Path) => Resolution(flat, c);
    var aliasesOf := InvertAliases(flat.aliases);
    var candidates := CollectCandidateKeys(flat);
    var values, provs := ResolveAll(flat, want, aliasesOf, candidates, arena);
    var base := Collect(want, Roots(flat), values, provs, arena);
    assert base == Canonical(flat) by { CollectedIsCanonical(flat, want, base); }
    var full, order := StampAliases(flat.aliases, base);
    s := MakeFrame(flat, full);
    FrameListed(flat, full);
    var over := OverriddenParents(s);
    var inside := ParentMapWins(s);
    s := s.(overridden := over, inParent := inside);
    assert BuiltInSomeOrder(inp, s) by { assert s == BuildAlong(inp, order); }
  }

  /** Reads every provenance list out of the arena. */
  method Collect(ghost want: Wanted, ghost seen: set<Path>, values: map<Path, Value>,
                 provs: map<Path, Provenance>, arena: SourceArena)
    returns (base: map<Path, Resolved>)
    requires arena.Valid() && Partial(want, seen, values, provs, arena.issued)
    ensures base.Keys == set c | c in seen && want(c).Some?
    ensures forall c | c in base :: Some(base[c]) == want(c)
  {
    base := map[];
    var todo := values.Keys;
    while todo != {}
      invariant todo <= values.Keys && base.Keys == values.Keys - todo
      invariant forall c | c in base :: Some(base[c]) == want(c)
      decreases |todo|
    {
      var c :| c in todo;
      assert Recorded(want(c), c, values, provs, arena.issued);
      var list := ListOf(provs[c], arena, want(c).value.sources);
      base := base[c := Resolved(values[c], list)];
      todo := todo - {c};
    }
    assert forall c | c in seen :: Recorded(want(c), c, values, provs, arena.issued);
  }

  method ListOf(p: Provenance, arena: SourceArena, ghost want: seq<Label>) returns (list: seq<Label>)
    requires arena.Valid() && Records(p, arena.issued, want)
    ensures list == want
  {
    match p {
      case Own(l) => list := l;
      case Carved(w) => list := arena.Read(w);
    }
  }

  lemma {:induction false} CollectedIsCanonical(inp: Inputs, want: Wanted, base: map<Path, Resolved>)
    requires Means(want, inp) && base.Keys == set c | c in Roots(inp) && want(c).Some?
    requires forall c | c in base :: Some(base[c]) == want(c)
    ensures base == Canonical(inp)
  {
    forall c ensures want(c) == Resolution(inp, c) { assert Asked(c); }
  }

  /** duplicateSpellings. */
  method DuplicateSpellings(inp: Inputs, full: map<Path, Resolved>) returns (hidden: set<Path>)
    ensures hidden == Duplicates(inp, full)
  {
    hidden := {};
    var todo := inp.bound;
    while todo != {}
      invariant todo <= inp.bound
      invariant forall e | e in hidden :: e in full && Duplicate(inp, full, e)
      invariant forall b, e | b in inp.bound && b !in todo && DuplicateOf(inp, full, b, e) :: e in hidden
      decreases |todo|
    {
      var b :| b in todo;
      hidden := hidden + set e | e in full && DuplicateOf(inp, full, b, e);
      todo := todo - {b};
    }
    forall e | e in full && Duplicate(inp, full, e) ensures e in hidden {
      var b :| DuplicateOf(inp, full, b, e);
    }
  }

  /** hideBoundParents on the sorted listing. */
  method HideBoundParents(inp: Inputs, full: map<Path, Resolved>, all: seq<Path>) returns (out: seq<Path>)
    requires InOrder(all)
    ensures out == Keep(all, k => !ListedByParts(inp, full, all, k))
  {
    ghost var f := (k: Path) => !ListedByParts(inp, full, all, k);
    if inp.bound == {} {
      KeepAll(all, f);
      return all;
    }
    CanonsSorted(all);
    out := [];
    for i := 0 to |all|
      invariant out == Keep(all[..i], f)
    {
      KeepSnoc(all, i, f);
      var hides := HidesKey(inp, full, all, all[i]);
      if !hides { out := out + [all[i]]; }
    }
    assert all[..|all|] == all;
  }

  method HidesKey(inp: Inputs, full: map<Path, Resolved>, all: seq<Path>, k: Path) returns (hides: bool)
    requires Sorted(Canons(all))
    ensures hides <==> ListedByParts(inp, full, all, k)
  {
    if k !in full || !full[k].value.data.Map? || !BoundOnly(inp, k) { return false; }
    var lo, hi := PrefixWindow(Canons(all), Canon(k) + [DOT]);
    hides := lo < hi;
    if hides { assert all[lo] in all && StartsWith(Canons(all)[lo], Canon(k) + [DOT]); }
    if SomeStarts(all, Canon(k) + [DOT]) {
      var q :| q in all && StartsWith(Canon(q), Canon(k) + [DOT]);
      var i :| 0 <= i < |all| && all[i] == q;
      assert StartsWith(Canons(all)[i], Canon(k) + [DOT]);
    }
  }

  method MakeFrame(inp: Inputs, full: map<Path, Resolved>) returns (s: Snapshot)
    ensures s == Frame(inp, full)
  {
    var hidden := DuplicateSpellings(inp, full);
    var all := SortKeys(full.Keys - hidden);
    var keys := HideBoundParents(inp, full, all);
    var lookupKeys := SortKeys(full.Keys);
    s := Snapshot(map k | k in full :: full[k].value, map k | k in full :: full[k].sources,
                  keys, lookupKeys, {}, {}, Names(inp.sources), inp.aliases, inp.secretKeys);
  }
}
