/** Values (value.go) and their merging (precedence.go). */
module Values {
  import opened Paths

  datatype Option<+T> = None | Some(value: T)

  /** A provenance label: the two reserved names of the override and fallback layers, or the name of a
      registered source. checkSourceNameLocked keeps source names apart from the reserved ones. */
  datatype Label = Unset | Explicit | Default | Of(name: Bytes)

  datatype ScalarKind = StringKind | IntKind | FloatKind | BoolKind | TimeKind | DurationKind

  /** Decoded data. Dict is a map[string]any, the only kind a path leads into; Typed is a map of any other
      type with string keys, such as a map[string]string. */
  datatype Any =
    | Nil
    | Atom(kind: ScalarKind, text: Bytes)
    | List(items: seq<Any>)
    | Dict(fields: map<Bytes, Any>)
    | Typed(typed: map<Bytes, Any>)

  /** A source-tagged value. Elements carry tags of their own, empty unless a Value was nested. */
  datatype Value = Value(data: Data, source: Label)
  datatype Data =
    | Null
    | Scalar(kind: ScalarKind, text: Bytes)
    | Slice(elems: seq<Value>)
    | Map(entries: map<Bytes, Value>)

  function WithSource(v: Value, name: Label): Value {
    v.(source := name)
  }

  function NewValue(a: Any): Value {
    match a
    case Nil => Value(Null, Unset)
    case Atom(kind, text) => Value(Scalar(kind, text), Unset)
    case List(items) => Value(Slice(seq(|items|, i requires 0 <= i < |items| => NewValue(items[i]))), Unset)
    case Dict(fields) => Value(Map(map k | k in fields :: NewValue(fields[k])), Unset)
    case Typed(fields) => Value(Map(map k | k in fields :: NewValue(fields[k])), Unset)
  }

  /** unwrapValueDeep. */
  function Unwrap(v: Value): Any {
    match v.data
    case Null => Nil
    case Scalar(kind, text) => Atom(kind, text)
    case Slice(elems) => List(seq(|elems|, i requires 0 <= i < |elems| => Unwrap(elems[i])))
    case Map(entries) => Dict(map k | k in entries :: Unwrap(entries[k]))
  }

  /** The same data with every map a map[string]any: the form codecs, AsMap and validators handle. */
  function Plain(a: Any): Any {
    match a
    case List(items) => List(seq(|items|, i requires 0 <= i < |items| => Plain(items[i])))
    case Dict(fields) => Dict(map k | k in fields :: Plain(fields[k]))
    case Typed(fields) => Dict(map k | k in fields :: Plain(fields[k]))
    case _ => a
  }

  /** There is no typed map in a. */
  predicate Untyped(a: Any) {
    match a
    case List(items) => forall i | 0 <= i < |items| :: Untyped(items[i])
    case Dict(fields) => forall k | k in fields :: Untyped(fields[k])
    case Typed(_) => false
    case _ => true
  }

  /** Wrapping data and unwrapping it deeply gives its plain form. */
  lemma {:induction false} UnwrapNew(a: Any)
    ensures Unwrap(NewValue(a)) == Plain(a)
  {
    match a
    case Nil =>
    case Atom(_, _) =>
    case List(items) =>
      forall i | 0 <= i < |items| ensures Unwrap(NewValue(items[i])) == Plain(items[i]) { UnwrapNew(items[i]); }
      assert Unwrap(NewValue(a)).items == Plain(a).items;
    case Dict(fields) =>
      forall k | k in fields ensures Unwrap(NewValue(fields[k])) == Plain(fields[k]) { UnwrapNew(fields[k]); }
      assert Unwrap(NewValue(a)).fields == Plain(a).fields;
    case Typed(fields) =>
      forall k | k in fields ensures Unwrap(NewValue(fields[k])) == Plain(fields[k]) { UnwrapNew(fields[k]); }
      assert Unwrap(NewValue(a)).fields == Plain(a).fields;
  }

  lemma {:induction false} PlainUntyped(a: Any)
    requires Untyped(a)
    ensures Plain(a) == a
  {
    match a
    case List(items) =>
      forall i | 0 <= i < |items| ensures Plain(items[i]) == items[i] { PlainUntyped(items[i]); }
      assert Plain(a).items == items;
    case Dict(fields) =>
      forall k | k in fields ensures Plain(fields[k]) == fields[k] { PlainUntyped(fields[k]); }
      assert Plain(a).fields == fields;
    case _ =>
  }

  lemma {:induction false} UnwrapIsUntyped(v: Value)
    ensures Untyped(Unwrap(v))
  {
    match v.data
    case Slice(elems) => forall i | 0 <= i < |elems| ensures Untyped(Unwrap(elems[i])) { UnwrapIsUntyped(elems[i]); }
    case Map(entries) => forall k | k in entries ensures Untyped(Unwrap(entries[k])) { UnwrapIsUntyped(entries[k]); }
    case _ =>
  }

  const NAN_TEXT: Bytes := [78, 97, 78]

  /** A floating-point value that does not equal itself. */
  predicate IsNaN(v: Value) {
    v.data == Scalar(FloatKind, NAN_TEXT)
  }

  /** valuesEqual: the same payload, whichever layer supplied it. */
  predicate ValuesEqual(a: Value, b: Value) {
    a.data == b.data && !IsNaN(a)
  }

  /** Equality looks at the payload alone: tags do not count, equal values have the same payload, and only a
      NaN differs from itself. */
  lemma {:induction false} EqualityIsOfPayload(a: Value, b: Value, l: Label, m: Label)
    ensures ValuesEqual(WithSource(a, l), WithSource(b, m)) <==> ValuesEqual(a, b)
    ensures ValuesEqual(a, b) ==> Unwrap(a) == Unwrap(b) && ValuesEqual(b, a)
    ensures !ValuesEqual(a, a) <==> a.data.Scalar? && a.data.kind == FloatKind && a.data.text == NAN_TEXT
  {}

  // ---------------------------------------------------------------- merging

  /** `NewValue(v.Any())`: the same payload, tag dropped. */
  function Rewrap(v: Value): Value {
    Value(v.data, Unset)
  }

  /** The loops of mergeValues, as values. */
  function Merge(lo: Value, hi: Value): Value
    decreases hi, 1
  {
    if lo.data.Slice? && hi.data.Slice? then
      var both := lo.data.elems + hi.data.elems;
      Value(Slice(seq(|both|, i requires 0 <= i < |both| => Rewrap(both[i]))), Unset)
    else if lo.data.Map? && hi.data.Map? then
      Value(Map(map k | k in lo.data.entries.Keys + hi.data.entries.Keys :: MergedEntry(lo, hi, k)), Unset)
    else hi
  }

  function MergedEntry(lo: Value, hi: Value, k: Bytes): Value
    requires lo.data.Map? && hi.data.Map? && (k in lo.data.entries || k in hi.data.entries)
    decreases hi, 0
  {
    var lm, hm := lo.data.entries, hi.data.entries;
    if k !in hm then Rewrap(lm[k])
    else if k !in lm then Rewrap(hm[k])
    else Rewrap(Merge(lm[k], hm[k]))
  }

  method MergeValues(lo: Value, hi: Value) returns (r: Value)
    ensures r == Merge(lo, hi)
    decreases hi, 2
  {
    if lo.data.Slice? && hi.data.Slice? {
      r := MergeSlices(lo.data.elems, hi.data.elems);
    } else if lo.data.Map? && hi.data.Map? {
      r := MergeMaps(lo, hi);
    } else {
      r := hi;
    }
  }

  method MergeSlices(ls: seq<Value>, hs: seq<Value>) returns (r: Value)
    ensures r == Merge(Value(Slice(ls), Unset), Value(Slice(hs), Unset))
  {
    var merged: seq<Value> := [];
    for i := 0 to |ls|
      invariant |merged| == i && forall j | 0 <= j < i :: merged[j] == Rewrap(ls[j])
    {
      merged := merged + [Rewrap(ls[i])];
    }
    for i := 0 to |hs|
      invariant |merged| == |ls| + i
      invariant forall j | 0 <= j < |ls| + i :: merged[j] == Rewrap((ls + hs)[j])
    {
      merged := merged + [Rewrap(hs[i])];
    }
    r := Value(Slice(merged), Unset);
    assert merged == Merge(Value(Slice(ls), Unset), Value(Slice(hs), Unset)).data.elems;
  }

  lemma {:induction false} MergeByEntry(lo: Value, hi: Value, merged: map<Bytes, Value>)
    requires lo.data.Map? && hi.data.Map?
    requires merged.Keys == lo.data.entries.Keys + hi.data.entries.Keys
    requires forall k | k in merged :: merged[k] == MergedEntry(lo, hi, k)
    ensures Merge(lo, hi) == Value(Map(merged), Unset)
  {
    assert Merge(lo, hi).data.entries == merged;
  }

  /** The keys of lo, and those of hi outside todo, hold their merged entries. */
  ghost predicate MergedBut(lo: Value, hi: Value, todo: set<Bytes>, merged: map<Bytes, Value>)
    requires lo.data.Map? && hi.data.Map? && todo <= hi.data.entries.Keys
  {
    && merged.Keys == lo.data.entries.Keys + (hi.data.entries.Keys - todo)
    && forall k | k in merged && k !in todo :: merged[k] == MergedEntry(lo, hi, k)
  }

  lemma {:induction false} MergedStart(lo: Value, hi: Value)
    requires lo.data.Map? && hi.data.Map?
    ensures MergedBut(lo, hi, hi.data.entries.Keys, map k | k in lo.data.entries :: Rewrap(lo.data.entries[k]))
  {}

  lemma {:induction false} MergedNext(lo: Value, hi: Value, todo: set<Bytes>, merged: map<Bytes, Value>, k: Bytes)
    requires lo.data.Map? && hi.data.Map? && todo <= hi.data.entries.Keys && k in todo
    requires MergedBut(lo, hi, todo, merged)
    ensures MergedBut(lo, hi, todo - {k}, merged[k := MergedEntry(lo, hi, k)])
  {}

  method MergeMaps(lo: Value, hi: Value) returns (r: Value)
    requires lo.data.Map? && hi.data.Map?
    ensures r == Merge(lo, hi)
    decreases hi, 1
  {
    var merged: map<Bytes, Value> := map k | k in lo.data.entries :: Rewrap(lo.data.entries[k]);
    var todo := hi.data.entries.Keys;
    MergedStart(lo, hi);
    while todo != {}
      invariant todo <= hi.data.entries.Keys && MergedBut(lo, hi, todo, merged)
      decreases |todo|
    {
      var k :| k in todo;
      var v := MergeEntry(lo, hi, k);
      MergedNext(lo, hi, todo, merged, k);
      merged := merged[k := v];
      todo := todo - {k};
    }
    MergeByEntry(lo, hi, merged);
    r := Value(Map(merged), Unset);
  }

  /** One key of the second loop. */
  method MergeEntry(lo: Value, hi: Value, k: Bytes) returns (v: Value)
    requires lo.data.Map? && hi.data.Map? && k in hi.data.entries
    ensures v == MergedEntry(lo, hi, k)
    decreases hi, 0
  {
    var lm, hm := lo.data.entries, hi.data.entries;
    if k !in lm { return Rewrap(hm[k]); }
    v := MergeValues(lm[k], hm[k]);
    v := Rewrap(v);
  }

  /** Merging on plain data: lists concatenate, dictionaries merge key by key, otherwise hi wins. */
  function MergeAny(lo: Any, hi: Any): Any
    decreases hi
  {
    if lo.List? && hi.List? then List(lo.items + hi.items)
    else if lo.Dict? && hi.Dict? then
      Dict(map k | k in lo.fields.Keys + hi.fields.Keys ::
        if k !in hi.fields then lo.fields[k]
        else if k !in lo.fields then hi.fields[k]
        else MergeAny(lo.fields[k], hi.fields[k]))
    else hi
  }

  lemma {:induction false} MergeUnwraps(lo: Value, hi: Value)
    ensures Unwrap(Merge(lo, hi)) == MergeAny(Unwrap(lo), Unwrap(hi))
    decreases hi
  {
    if lo.data.Slice? && hi.data.Slice? {
      assert Unwrap(Merge(lo, hi)).items == Unwrap(lo).items + Unwrap(hi).items;
    } else if lo.data.Map? && hi.data.Map? {
      var lm, hm := lo.data.entries, hi.data.entries;
      forall k | k in lm && k in hm
        ensures Unwrap(Merge(lm[k], hm[k])) == MergeAny(Unwrap(lm[k]), Unwrap(hm[k]))
      {
        MergeUnwraps(lm[k], hm[k]);
      }
      MergeUnwrapsMap(lo, hi);
    }
  }

  lemma {:induction false} EntryUnwraps(lo: Value, hi: Value, k: Bytes)
    requires lo.data.Map? && hi.data.Map? && (k in lo.data.entries || k in hi.data.entries)
    requires var lm, hm := lo.data.entries, hi.data.entries;
      k in lm && k in hm ==> Unwrap(Merge(lm[k], hm[k])) == MergeAny(Unwrap(lm[k]), Unwrap(hm[k]))
    ensures var lm, hm := lo.data.entries, hi.data.entries;
      Unwrap(MergedEntry(lo, hi, k)) ==
        if k !in hm then Unwrap(lm[k])
        else if k !in lm then Unwrap(hm[k])
        else MergeAny(Unwrap(lm[k]), Unwrap(hm[k]))
  {}

  lemma {:induction false} MergeUnwrapsMap(lo: Value, hi: Value)
    requires lo.data.Map? && hi.data.Map?
    requires forall k | k in lo.data.entries && k in hi.data.entries ::
      Unwrap(Merge(lo.data.entries[k], hi.data.entries[k]))
        == MergeAny(Unwrap(lo.data.entries[k]), Unwrap(hi.data.entries[k]))
    ensures Unwrap(Merge(lo, hi)) == MergeAny(Unwrap(lo), Unwrap(hi))
  {
    var a, b := Unwrap(Merge(lo, hi)).fields, MergeAny(Unwrap(lo), Unwrap(hi)).fields;
    assert a.Keys == b.Keys;
    forall k | k in a ensures a[k] == b[k] { EntryUnwraps(lo, hi, k); }
    assert a == b;
  }

  /** The fold of resolveAppend over contributions in descending precedence. */
  function FoldMerge(cs: seq<Value>): Value
    requires cs != []
  {
    if |cs| == 1 then cs[0] else Merge(FoldMerge(cs[1..]), cs[0])
  }

  method FoldContributions(cs: seq<Value>) returns (merged: Value)
    requires cs != []
    ensures merged == FoldMerge(cs)
  {
    merged := cs[|cs| - 1];
    var i := |cs| - 1;
    while i > 0
      invariant 0 <= i < |cs| && merged == FoldMerge(cs[i..])
    {
      i := i - 1;
      assert cs[i..][1..] == cs[i + 1..];
      merged := MergeValues(merged, cs[i]);
    }
    assert cs[0..] == cs;
  }

  /** Where the highest contribution is neither a slice nor a map, or the others together are of another
      kind, it is the result; a single contribution is its own fold. */
  lemma {:induction false} HighestWins(cs: seq<Value>)
    requires cs != []
    ensures |cs| == 1 || cs[0].data.Null? || cs[0].data.Scalar? ==> FoldMerge(cs) == cs[0]
    ensures |cs| > 1 && cs[0].data.Slice? && !FoldMerge(cs[1..]).data.Slice? ==> FoldMerge(cs) == cs[0]
    ensures |cs| > 1 && cs[0].data.Map? && !FoldMerge(cs[1..]).data.Map? ==> FoldMerge(cs) == cs[0]
  {}

  function UnwrapAll(cs: seq<Value>): (r: seq<Any>)
    ensures |r| == |cs| && forall i | 0 <= i < |cs| :: r[i] == Unwrap(cs[i])
  {
    seq(|cs|, i requires 0 <= i < |cs| => Unwrap(cs[i]))
  }

  function FoldAny(xs: seq<Any>): Any
    requires xs != []
  {
    if |xs| == 1 then xs[0] else MergeAny(FoldAny(xs[1..]), xs[0])
  }

  lemma {:induction false} FoldUnwraps(cs: seq<Value>)
    requires cs != []
    ensures Unwrap(FoldMerge(cs)) == FoldAny(UnwrapAll(cs))
  {
    if |cs| > 1 {
      FoldUnwraps(cs[1..]);
      assert UnwrapAll(cs)[1..] == UnwrapAll(cs[1..]);
      MergeUnwraps(FoldMerge(cs[1..]), cs[0]);
    }
  }

  /** Items from the lowest precedence (the last contribution) to the highest. */
  function LowToHigh(xs: seq<Any>): seq<Any>
    requires forall i | 0 <= i < |xs| :: xs[i].List?
  {
    if xs == [] then [] else LowToHigh(xs[1..]) + xs[0].items
  }

  /** The values the contributions hold under k, in order. */
  function Holding(xs: seq<Any>, k: Bytes): seq<Any>
    requires forall i | 0 <= i < |xs| :: xs[i].Dict?
  {
    if xs == [] then []
    else (if k in xs[0].fields then [xs[0].fields[k]] else []) + Holding(xs[1..], k)
  }

  lemma {:induction false} FoldLists(xs: seq<Any>)
    requires xs != [] && forall i | 0 <= i < |xs| :: xs[i].List?
    ensures FoldAny(xs) == List(LowToHigh(xs))
  {
    if |xs| == 1 {
      assert LowToHigh(xs[1..]) + xs[0].items == xs[0].items;
    } else {
      FoldLists(xs[1..]);
    }
  }

  lemma {:induction false} FoldDicts(xs: seq<Any>, k: Bytes)
    requires xs != [] && forall i | 0 <= i < |xs| :: xs[i].Dict?
    ensures FoldAny(xs).Dict?
    ensures k in FoldAny(xs).fields <==> Holding(xs, k) != []
    ensures k in FoldAny(xs).fields ==> FoldAny(xs).fields[k] == FoldAny(Holding(xs, k))
  {
    if |xs| == 1 {
      assert Holding(xs[1..], k) == [];
    } else {
      FoldDicts(xs[1..], k);
      var h := Holding(xs[1..], k);
      if k in xs[0].fields {
        assert Holding(xs, k) == [xs[0].fields[k]] + h;
        assert Holding(xs, k)[1..] == h;
      } else {
        assert Holding(xs, k) == h;
      }
    }
  }

  /** Append merging: all-list contributions concatenate from lowest to highest precedence, and
      all-dictionary contributions give the union of their keys, each key holding the same fold over
      just the contributions that hold it. */
  lemma {:induction false} AppendMeaning(cs: seq<Value>, k: Bytes)
    requires cs != []
    ensures (forall i | 0 <= i < |cs| :: cs[i].data.Slice?) ==>
      Unwrap(FoldMerge(cs)) == List(LowToHigh(UnwrapAll(cs)))
    ensures (forall i | 0 <= i < |cs| :: cs[i].data.Map?) ==>
      var merged, xs := Unwrap(FoldMerge(cs)), UnwrapAll(cs);
      && merged.Dict?
      && (k in merged.fields <==> exists i :: 0 <= i < |xs| && k in xs[i].fields)
      && (k in merged.fields ==> Holding(xs, k) != [] && merged.fields[k] == FoldAny(Holding(xs, k)))
  {
    var xs := UnwrapAll(cs);
    FoldUnwraps(cs);
    if forall i | 0 <= i < |cs| :: cs[i].data.Slice? {
      FoldLists(xs);
    }
    if forall i | 0 <= i < |cs| :: cs[i].data.Map? {
      FoldDicts(xs, k);
      HoldingSome(xs, k);
    }
  }

  lemma {:induction false} HoldingSome(xs: seq<Any>, k: Bytes)
    requires forall i | 0 <= i < |xs| :: xs[i].Dict?
    ensures Holding(xs, k) != [] <==> exists i :: 0 <= i < |xs| && k in xs[i].fields
  {
    if xs != [] {
      HoldingSome(xs[1..], k);
      if i :| 0 <= i < |xs| && k in xs[i].fields {
        if i > 0 { assert k in xs[1..][i - 1].fields; }
      }
      if j :| 0 <= j < |xs[1..]| && k in xs[1..][j].fields { assert k in xs[j + 1].fields; }
    }
  }
}
