/** Nested plain maps: writing at a path (setNested in snapshot.go) and reading back. */
module Trees {
  import opened Paths
  import opened Values

  type Tree = map<Bytes, Any>

  /** The nodes under key seg, or none when seg holds something else. */
  function Child(m: Tree, seg: Bytes): Tree {
    if seg in m && m[seg].Dict? then m[seg].fields else map[]
  }

  /** setNested: writes v at p, replacing a value in the way by a map. */
  function SetNested(m: Tree, p: Path, v: Any): Tree
    decreases |p|
  {
    if p == [] then m
    else if |p| == 1 then m[p[0] := v]
    else m[p[0] := Dict(SetNested(Child(m, p[0]), p[1..], v))]
  }

  function At(m: Tree, p: Path): Option<Any>
    decreases |p|
  {
    if p == [] then Some(Dict(m))
    else if p[0] !in m then None
    else if |p| == 1 then Some(m[p[0]])
    else if m[p[0]].Dict? then At(m[p[0]].fields, p[1..])
    else None
  }

  /** The nodes under path p. */
  function Sub(m: Tree, p: Path): Tree
    decreases |p|
  {
    if p == [] then m else Sub(Child(m, p[0]), p[1..])
  }

  predicate Related(p: Path, q: Path) {
    HasPrefix(p, q) || HasPrefix(q, p)
  }

  lemma {:induction false} SetThenAt(m: Tree, p: Path, v: Any)
    requires p != []
    ensures At(SetNested(m, p, v), p) == Some(v)
    decreases |p|
  {
    if |p| > 1 { SetThenAt(Child(m, p[0]), p[1..], v); }
  }

  lemma {:induction false} RelatedTail(p: Path, q: Path)
    requires p != [] && q != [] && p[0] == q[0]
    ensures Related(p, q) <==> Related(p[1..], q[1..])
  {}

  lemma {:induction false} PrefixTail(p: Path, q: Path)
    requires p != [] && q != [] && p[0] == q[0]
    ensures HasPrefix(p, q) <==> HasPrefix(p[1..], q[1..])
  {}

  /** Writing at a path leaves every unrelated path as it was. */
  lemma {:induction false} SetElsewhere(m: Tree, p: Path, v: Any, q: Path)
    requires !Related(p, q)
    ensures At(SetNested(m, p, v), q) == At(m, q)
    decreases |p|
  {
    if p[0] == q[0] {
      RelatedTail(p, q);
      assert |p| > 1 && |q| > 1;
      SetElsewhere(Child(m, p[0]), p[1..], v, q[1..]);
      if !(p[0] in m && m[p[0]].Dict?) { AtEmpty(q[1..]); }
    }
  }

  lemma {:induction false} AtEmpty(q: Path)
    requires q != []
    ensures At(map[], q) == None
  {}

  lemma {:induction false} BelowTail(q: Path, p: Path)
    requires Below(q, p) && |p| > 1
    ensures q[0] == p[0] && Below(q[1..], p[1..]) && q[1..][|p| - 1..] == q[|p|..]
  {
    assert q[..|p|][0] == q[0];
    PrefixTail(q, p);
  }

  /** A step down the common first segment. */
  lemma {:induction false} SetAtDown(m: Tree, p: Path, q: Path, v: Any)
    requires |p| > 1 && |q| > 1 && q[0] == p[0]
    ensures At(SetNested(m, q, v), p) == At(SetNested(Child(m, p[0]), q[1..], v), p[1..])
  {}

  /** Writing below p is writing into the part under p. */
  lemma {:induction false} SetBelow(m: Tree, p: Path, q: Path, v: Any)
    requires Below(q, p) && p != []
    ensures At(SetNested(m, q, v), p) == Some(Dict(SetNested(Sub(m, p), q[|p|..], v)))
    decreases |p|
  {
    if |p| == 1 {
      assert q[..1][0] == q[0] && p[1..] == [];
      assert Sub(m, p) == Child(m, p[0]);
    } else {
      BelowTail(q, p);
      SetBelow(Child(m, p[0]), p[1..], q[1..], v);
      SetAtDown(m, p, q, v);
    }
  }

  lemma {:induction false} SubIsAt(m: Tree, p: Path)
    ensures Sub(m, p) == if At(m, p).Some? && At(m, p).value.Dict? then At(m, p).value.fields else map[]
    decreases |p|
  {
    if p != [] {
      SubIsAt(Child(m, p[0]), p[1..]);
      if |p| == 1 {
        assert p[1..] == [];
      } else if !(p[0] in m && m[p[0]].Dict?) {
        AtEmpty(p[1..]);
      }
    }
  }

  lemma {:induction false} SetUntyped(m: Tree, p: Path, v: Any)
    requires Untyped(Dict(m)) && Untyped(v)
    ensures Untyped(Dict(SetNested(m, p, v)))
    decreases |p|
  {
    if |p| > 1 {
      assert Untyped(Dict(Child(m, p[0])));
      SetUntyped(Child(m, p[0]), p[1..], v);
    }
  }
}
