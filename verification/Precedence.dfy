/** Precedence (precedence.go): how one key is resolved across the layers. */
module Precedence {
  import opened Paths
  import opened PathOrder
  import opened Values
  import opened Aliases
  import opened Layers
  import opened Arena

  /** A source answers lookups with a value, nothing, or an error, and lists keys of its own choosing.
      Some sources can name the entry of their backing store that a path reads. */
  datatype Lookup = Hit(value: Value) | Miss | Failed
  datatype Source = Source(name: Bytes, get: Path -> Lookup, keys: seq<Path>, native: Option<Path -> Bytes>)

  datatype MergeStrategy = MergeShadow | MergeAppend

  datatype Inputs = Inputs(
    sources: seq<Source>,
    explicits: Layer,
    defaults: Layer,
    aliases: Graph<Path>,
    pins: map<Path, Bytes>,
    bound: set<Path>,
    secretKeys: set<Path>,
    merge: MergeStrategy)

  datatype Resolved = Resolved(value: Value, sources: seq<Label>)

  // ---------------------------------------------------------------- the meaning of a layer

  /** The value under the first of the names that the layer holds. */
  function FirstIn(layer: Layer, names: seq<Path>): Option<Value> {
    if names == [] then None
    else if names[0] in layer then Some(layer[names[0]])
    else FirstIn(layer, names[1..])
  }

  function FirstHit(s: Source, names: seq<Path>): Option<Value> {
    if names == [] then None
    else
      match s.get(names[0])
      case Hit(v) => Some(v)
      case _ => FirstHit(s, names[1..])
  }

  /** The labels of the sources that supply one of the names, highest precedence first. */
  function Contributors(sources: seq<Source>, names: seq<Path>): seq<Label> {
    if sources == [] then []
    else (if FirstHit(sources[0], names).Some? then [Of(sources[0].name)] else []) + Contributors(sources[1..], names)
  }

  function Contributions(sources: seq<Source>, names: seq<Path>): seq<Value> {
    if sources == [] then []
    else
      match FirstHit(sources[0], names)
      case Some(v) => [v] + Contributions(sources[1..], names)
      case None => Contributions(sources[1..], names)
  }

  /** What the first source to supply a value supplies. */
  function FirstSupply(sources: seq<Source>, names: seq<Path>): Option<Value> {
    if sources == [] then None
    else
      match FirstHit(sources[0], names)
      case Some(v) => Some(WithSource(v, Of(sources[0].name)))
      case None => FirstSupply(sources[1..], names)
  }

  function FromPin(sources: seq<Source>, pin: Bytes, names: seq<Path>): Option<Resolved> {
    if sources == [] then None
    else if sources[0].name != pin then FromPin(sources[1..], pin, names)
    else
      match FirstHit(sources[0], names)
      case Some(v) => Some(Resolved(WithSource(v, Of(pin)), [Of(pin)]))
      case None => None
  }

  function FromShadow(inp: Inputs, names: seq<Path>): Option<Resolved> {
    match FirstSupply(inp.sources, names)
    case Some(v) => Some(Resolved(v, Contributors(inp.sources, names)))
    case None =>
      match FirstIn(inp.defaults, names)
      case Some(v) => Some(Resolved(WithSource(v, Default), [Default]))
      case None => None
  }

  function AllContributions(inp: Inputs, names: seq<Path>): seq<Value> {
    Contributions(inp.sources, names) + match FirstIn(inp.defaults, names) case Some(v) => [v] case None => []
  }

  function AllContributors(inp: Inputs, names: seq<Path>): seq<Label> {
    Contributors(inp.sources, names) + if FirstIn(inp.defaults, names).Some? then [Default] else []
  }

  function FromAppend(inp: Inputs, names: seq<Path>): Option<Resolved> {
    var cs, labels := AllContributions(inp, names), AllContributors(inp, names);
    if cs == [] || labels == [] then None
    else Some(Resolved(WithSource(FoldMerge(cs), labels[0]), labels))
  }

  /** The layers in order: explicit; the pinned source alone if c is pinned; else the sources (and, when
      merging, the defaults with them); else the defaults. */
  function ResolveIn(inp: Inputs, c: Path, names: seq<Path>): Option<Resolved> {
    match FirstIn(inp.explicits, names)
    case Some(v) => Some(Resolved(WithSource(v, Explicit), [Explicit]))
    case None =>
      if c in inp.pins then FromPin(inp.sources, inp.pins[c], names)
      else if inp.merge.MergeAppend? then FromAppend(inp, names)
      else FromShadow(inp, names)
  }

  /** The aliases of c, in order. */
  ghost function AliasesOf(aliases: Graph<Path>, c: Path): seq<Path> {
    SortSet(set a | a in aliases && Target(aliases, a) == c)
  }

  /** What each layer is asked for: c, then each alias of c. */
  ghost function Spellings(inp: Inputs, c: Path): seq<Path> {
    [c] + AliasesOf(inp.aliases, c)
  }

  /** What the inputs say about the key c. */
  ghost function Resolution(inp: Inputs, c: Path): Option<Resolved> {
    ResolveIn(inp, c, Spellings(inp, c))
  }

  // ---------------------------------------------------------------- its laws

  lemma {:induction false} FirstSupplyIs(sources: seq<Source>, names: seq<Path>, i: nat)
    requires i < |sources| && FirstHit(sources[i], names).Some?
    requires forall j | 0 <= j < i :: FirstHit(sources[j], names).None?
    ensures FirstSupply(sources, names) == Some(WithSource(FirstHit(sources[i], names).value, Of(sources[i].name)))
    ensures Contributors(sources, names) != [] && Contributors(sources, names)[0] == Of(sources[i].name)
  {
    if i > 0 { FirstSupplyIs(sources[1..], names, i - 1); }
  }

  lemma {:induction false} NoSupply(sources: seq<Source>, names: seq<Path>)
    requires forall j | 0 <= j < |sources| :: FirstHit(sources[j], names).None?
    ensures FirstSupply(sources, names) == None
    ensures Contributors(sources, names) == [] && Contributions(sources, names) == []
  {
    if sources != [] { NoSupply(sources[1..], names); }
  }

  lemma {:induction false} PinIs(sources: seq<Source>, names: seq<Path>, i: nat)
    requires i < |sources| && forall j | 0 <= j < i :: sources[j].name != sources[i].name
    ensures FromPin(sources, sources[i].name, names) ==
      match FirstHit(sources[i], names)
      case Some(v) => Some(Resolved(WithSource(v, Of(sources[i].name)), [Of(sources[i].name)]))
      case None => None
  {
    if i > 0 { PinIs(sources[1..], names, i - 1); }
  }

  lemma {:induction false} PinMissing(sources: seq<Source>, names: seq<Path>, pin: Bytes)
    requires forall j | 0 <= j < |sources| :: sources[j].name != pin
    ensures FromPin(sources, pin, names) == None
  {
    if sources != [] { PinMissing(sources[1..], names, pin); }
  }

  predicate DistinctNames(sources: seq<Source>) {
    forall i, j | 0 <= i < j < |sources| :: sources[i].name != sources[j].name
  }

  /** An explicit value or a pin keeps the sources and defaults out. */
  ghost predicate Decided(inp: Inputs, c: Path) {
    FirstIn(inp.explicits, Spellings(inp, c)).Some? || c in inp.pins
  }

  /** Explicit over pin; a pinned key is its source's value or nothing, and never falls back. */
  ghost predicate UpperLaw(inp: Inputs, c: Path) {
    var names, r := Spellings(inp, c), Resolution(inp, c);
    if FirstIn(inp.explicits, names).Some? then
      r == Some(Resolved(WithSource(FirstIn(inp.explicits, names).value, Explicit), [Explicit]))
    else c in inp.pins ==>
      && (forall i | 0 <= i < |inp.sources| && inp.sources[i].name == inp.pins[c] ::
           r == match FirstHit(inp.sources[i], names)
                case Some(v) => Some(Resolved(WithSource(v, Of(inp.pins[c])), [Of(inp.pins[c])]))
                case None => None)
      && ((forall i | 0 <= i < |inp.sources| :: inp.sources[i].name != inp.pins[c]) ==> r == None)
  }

  lemma {:induction false} UpperLayers(inp: Inputs, c: Path)
    requires DistinctNames(inp.sources)
    ensures UpperLaw(inp, c)
  {
    var names := Spellings(inp, c);
    if c in inp.pins {
      forall i | 0 <= i < |inp.sources| && inp.sources[i].name == inp.pins[c]
        ensures FromPin(inp.sources, inp.pins[c], names) ==
          match FirstHit(inp.sources[i], names)
          case Some(v) => Some(Resolved(WithSource(v, Of(inp.pins[c])), [Of(inp.pins[c])]))
          case None => None
      {
        PinIs(inp.sources, names, i);
      }
      if forall i | 0 <= i < |inp.sources| :: inp.sources[i].name != inp.pins[c] {
        PinMissing(inp.sources, names, inp.pins[c]);
      }
    }
  }

  /** Source i is the first to hold one of the names. */
  predicate FirstHolder(sources: seq<Source>, names: seq<Path>, i: nat) {
    i < |sources| && FirstHit(sources[i], names).Some? && forall j | 0 <= j < i :: FirstHit(sources[j], names).None?
  }

  predicate NoHolder(sources: seq<Source>, names: seq<Path>) {
    forall i | 0 <= i < |sources| :: FirstHit(sources[i], names).None?
  }

  /** The precedence order under shadowing: explicit over pin over the first source over default. */
  lemma {:induction false} PrecedenceLaw(inp: Inputs, c: Path)
    requires inp.merge.MergeShadow? && DistinctNames(inp.sources)
    ensures UpperLaw(inp, c)
    ensures var names, r := Spellings(inp, c), Resolution(inp, c);
      !Decided(inp, c) ==>
        && (forall i: nat | FirstHolder(inp.sources, names, i) ::
             r == Some(Resolved(WithSource(FirstHit(inp.sources[i], names).value, Of(inp.sources[i].name)),
                                Contributors(inp.sources, names))))
        && (NoHolder(inp.sources, names) ==>
             r == match FirstIn(inp.defaults, names)
                  case Some(v) => Some(Resolved(WithSource(v, Default), [Default]))
                  case None => None)
  {
    var names := Spellings(inp, c);
    UpperLayers(inp, c);
    forall i: nat | FirstHolder(inp.sources, names, i)
      ensures FirstSupply(inp.sources, names)
           == Some(WithSource(FirstHit(inp.sources[i], names).value, Of(inp.sources[i].name)))
    {
      FirstSupplyIs(inp.sources, names, i);
    }
    if NoHolder(inp.sources, names) { NoSupply(inp.sources, names); }
  }

  /** The precedence order under merging: explicit over pin; else the fold of everything the sources and
      the defaults supply, labelled with the first that does; else nothing. */
  lemma {:induction false} AppendLaw(inp: Inputs, c: Path)
    requires inp.merge.MergeAppend? && DistinctNames(inp.sources)
    ensures UpperLaw(inp, c)
    ensures var names, r := Spellings(inp, c), Resolution(inp, c);
      !Decided(inp, c) ==>
        && (r.None? <==> NoHolder(inp.sources, names) && FirstIn(inp.defaults, names).None?)
        && (r.Some? ==>
             && AllContributions(inp, names) != []
             && Unwrap(r.value.value) == FoldAny(UnwrapAll(AllContributions(inp, names)))
             && r.value.sources == AllContributors(inp, names)
             && (forall i: nat | FirstHolder(inp.sources, names, i) :: r.value.value.source == Of(inp.sources[i].name))
             && (NoHolder(inp.sources, names) ==> r.value.value.source == Default))
  {
    var names := Spellings(inp, c);
    UpperLayers(inp, c);
    Supplied(inp.sources, names);
    SameCount(inp.sources, names);
    if AllContributions(inp, names) != [] { FoldUnwraps(AllContributions(inp, names)); }
  }

  /** There are contributions exactly when some source holds one of the names, and the first of them comes
      from the first holder. */
  lemma {:induction false} Supplied(sources: seq<Source>, names: seq<Path>)
    ensures NoHolder(sources, names) <==> Contributors(sources, names) == []
    ensures forall i: nat | FirstHolder(sources, names, i) ::
      Contributors(sources, names) != [] && Contributors(sources, names)[0] == Of(sources[i].name)
  {
    if NoHolder(sources, names) {
      NoSupply(sources, names);
    } else {
      var i := HolderIndex(sources, names);
      FirstSupplyIs(sources, names, i);
    }
    forall i: nat | FirstHolder(sources, names, i)
      ensures Contributors(sources, names) != [] && Contributors(sources, names)[0] == Of(sources[i].name)
    {
      FirstSupplyIs(sources, names, i);
    }
  }

  lemma {:induction false} HolderIndex(sources: seq<Source>, names: seq<Path>) returns (i: nat)
    requires !NoHolder(sources, names)
    ensures FirstHolder(sources, names, i)
  {
    if FirstHit(sources[0], names).Some? {
      i := 0;
    } else {
      var rest := HolderIndex(sources[1..], names);
      i := rest + 1;
    }
  }

  // ---------------------------------------------------------------- the source's loops

  method LayerGet(layer: Layer, c: Path, also: seq<Path>) returns (r: Option<Value>)
    ensures r == FirstIn(layer, [c] + also)
  {
    assert ([c] + also)[1..] == also;
    if c in layer { return Some(layer[c]); }
    for i := 0 to |also|
      invariant FirstIn(layer, also) == FirstIn(layer, also[i..])
    {
      assert also[i..][0] == also[i] && also[i..][1..] == also[i + 1..];
      if also[i] in layer { return Some(layer[also[i]]); }
    }
    assert also[|also|..] == [];
    r := None;
  }

  method SourceGet(s: Source, c: Path, also: seq<Path>) returns (r: Option<Value>)
    ensures r == FirstHit(s, [c] + also)
  {
    assert ([c] + also)[1..] == also;
    var first := s.get(c);
    if first.Hit? { return Some(first.value); }
    for i := 0 to |also|
      invariant FirstHit(s, also) == FirstHit(s, also[i..])
    {
      assert also[i..][0] == also[i] && also[i..][1..] == also[i + 1..];
      var next := s.get(also[i]);
      if next.Hit? { return Some(next.value); }
    }
    assert also[|also|..] == [];
    r := None;
  }

  /** A provenance list: one of its own, or a window of the arena. */
  datatype Provenance = Own(list: seq<Label>) | Carved(window: Window)

  /** The lists handed out so far, by window. */
  type Issued = map<Window, seq<Label>>

  ghost predicate Records(p: Provenance, issued: Issued, list: seq<Label>) {
    match p
    case Own(l) => l == list
    case Carved(w) => w in issued && issued[w] == list
  }

  /** Every list handed out in a still reads the same in b. */
  ghost predicate Kept(a: Issued, b: Issued) {
    forall w | w in a :: w in b && b[w] == a[w]
  }

  datatype Outcome = NotFound | Found(value: Value, sources: Provenance)

  ghost predicate Matches(o: Outcome, issued: Issued, r: Option<Resolved>) {
    match r
    case None => o.NotFound?
    case Some(x) => o.Found? && o.value == x.value && Records(o.sources, issued, x.sources)
  }

  lemma {:induction false} SupplySnoc(sources: seq<Source>, names: seq<Path>, i: nat)
    requires i < |sources|
    ensures Contributors(sources[..i + 1], names)
         == Contributors(sources[..i], names) + if FirstHit(sources[i], names).Some? then [Of(sources[i].name)] else []
    ensures FirstSupply(sources[..i + 1], names) ==
      if FirstSupply(sources[..i], names).Some? then FirstSupply(sources[..i], names)
      else match FirstHit(sources[i], names)
           case Some(v) => Some(WithSource(v, Of(sources[i].name)))
           case None => None
  {
    var front := sources[..i + 1];
    if i == 0 {
      assert front[1..] == [] && sources[..0] == [];
    } else {
      SupplySnoc(sources[1..], names, i - 1);
      assert front[1..] == sources[1..][..i] && sources[..i][1..] == sources[1..][..i - 1];
    }
  }

  /** resolveShadow with its arena. It takes an empty winner name for "no winner yet", so it needs every
      source to have a name. */
  method ResolveShadow(inp: Inputs, c: Path, also: seq<Path>, arena: SourceArena) returns (o: Outcome)
    requires arena.Valid() && forall i | 0 <= i < |inp.sources| :: inp.sources[i].name != []
    modifies arena.Repr
    ensures arena.Valid() && fresh(arena.Repr - old(arena.Repr)) && Kept(old(arena.issued), arena.issued)
    ensures Matches(o, arena.issued, FromShadow(inp, [c] + also))
  {
    var winner := Value(Null, Unset);
    var winnerName: Bytes := [];
    var start := arena.len;
    ghost var names := [c] + also;
    ghost var before := arena.Contents();
    for i := 0 to |inp.sources|
      invariant arena.Valid() && fresh(arena.Repr - old(arena.Repr)) && arena.issued == old(arena.issued)
      invariant arena.Contents() == before + Contributors(inp.sources[..i], names)
      invariant winnerName == [] <==> FirstSupply(inp.sources[..i], names).None?
      invariant winnerName != [] ==> FirstSupply(inp.sources[..i], names) == Some(winner)
    {
      var s := inp.sources[i];
      SupplySnoc(inp.sources, names, i);
      var v := SourceGet(s, c, also);
      if v.None? { continue; }
      if winnerName == [] {
        winner, winnerName := WithSource(v.value, Of(s.name)), s.name;
      }
      arena.Append(Of(s.name));
    }
    assert inp.sources[..|inp.sources|] == inp.sources;
    if winnerName != [] {
      assert arena.Contents()[start..] == Contributors(inp.sources, names);
      var w := arena.Carve(start);
      return Found(winner, Carved(w));
    }
    var d := LayerGet(inp.defaults, c, also);
    o := if d.Some? then Found(WithSource(d.value, Default), Own([Default])) else NotFound;
  }

  lemma {:induction false} ContributionSnoc(sources: seq<Source>, names: seq<Path>, i: nat)
    requires i < |sources|
    ensures Contributions(sources[..i + 1], names) == Contributions(sources[..i], names)
         + match FirstHit(sources[i], names) case Some(v) => [v] case None => []
  {
    var front := sources[..i + 1];
    if i == 0 {
      assert front[1..] == [] && sources[..0] == [];
    } else {
      ContributionSnoc(sources[1..], names, i - 1);
      assert front[1..] == sources[1..][..i] && sources[..i][1..] == sources[1..][..i - 1];
    }
  }

  lemma {:induction false} SameCount(sources: seq<Source>, names: seq<Path>)
    ensures |Contributions(sources, names)| == |Contributors(sources, names)|
  {
    if sources != [] { SameCount(sources[1..], names); }
  }

  /** resolveAppend. */
  method ResolveAppend(inp: Inputs, c: Path, also: seq<Path>) returns (r: Option<Resolved>)
    ensures r == FromAppend(inp, [c] + also)
  {
    var values: seq<Value>, labels: seq<Label> := [], [];
    ghost var names := [c] + also;
    for i := 0 to |inp.sources|
      invariant values == Contributions(inp.sources[..i], names)
      invariant labels == Contributors(inp.sources[..i], names)
    {
      SupplySnoc(inp.sources, names, i);
      ContributionSnoc(inp.sources, names, i);
      var v := SourceGet(inp.sources[i], c, also);
      if v.Some? { values, labels := values + [v.value], labels + [Of(inp.sources[i].name)]; }
    }
    assert inp.sources[..|inp.sources|] == inp.sources;
    SameCount(inp.sources, names);
    var d := LayerGet(inp.defaults, c, also);
    if d.Some? { values, labels := values + [d.value], labels + [Default]; }
    assert values == AllContributions(inp, names) && labels == AllContributors(inp, names);
    if values == [] { return None; }
    var merged := FoldContributions(values);
    r := Some(Resolved(WithSource(merged, labels[0]), labels));
  }

  /** resolveKey. */
  method ResolveKey(inp: Inputs, c: Path, also: seq<Path>, arena: SourceArena) returns (o: Outcome)
    requires arena.Valid() && forall i | 0 <= i < |inp.sources| :: inp.sources[i].name != []
    modifies arena.Repr
    ensures arena.Valid() && fresh(arena.Repr - old(arena.Repr)) && Kept(old(arena.issued), arena.issued)
    ensures Matches(o, arena.issued, ResolveIn(inp, c, [c] + also))
  {
    var e := LayerGet(inp.explicits, c, also);
    if e.Some? { return Found(WithSource(e.value, Explicit), Own([Explicit])); }
    if c in inp.pins {
      var r := ResolvePinned(inp, inp.pins[c], c, also);
      return if r.Some? then Found(r.value.value, Own(r.value.sources)) else NotFound;
    }
    if inp.merge.MergeAppend? {
      var r := ResolveAppend(inp, c, also);
      return if r.Some? then Found(r.value.value, Own(r.value.sources)) else NotFound;
    }
    o := ResolveShadow(inp, c, also, arena);
  }

  method ResolvePinned(inp: Inputs, pin: Bytes, c: Path, also: seq<Path>) returns (r: Option<Resolved>)
    ensures r == FromPin(inp.sources, pin, [c] + also)
  {
    for i := 0 to |inp.sources|
      invariant FromPin(inp.sources, pin, [c] + also) == FromPin(inp.sources[i..], pin, [c] + also)
    {
      assert inp.sources[i..][0] == inp.sources[i] && inp.sources[i..][1..] == inp.sources[i + 1..];
      if inp.sources[i].name != pin { continue; }
      var v := SourceGet(inp.sources[i], c, also);
      return if v.Some? then Some(Resolved(WithSource(v.value, Of(pin)), [Of(pin)])) else None;
    }
    assert inp.sources[|inp.sources|..] == [];
    r := None;
  }
}
