/** Reading a key as a map when it has a value of its own and there are keys below it: when the read agrees
    with the single-tree view (snapshot.go). */
module SectionReads {
  import opened Paths
  import opened PathOrder
  import opened Lists
  import opened Values
  import opened Trees
  import opened Snapshots
  import opened Views

  /** Every listed key below q comes from a layer strictly lower than q's own. */
  predicate AllLower(s: Snapshot, q: Path) {
    forall k | k in s.keys && k !in s.aliases && Below(k, q) :: RankOf(s, q) < RankOf(s, k)
  }

  predicate NoneLower(s: Snapshot, q: Path) {
    forall k | k in s.keys && k !in s.aliases && Below(k, q) :: RankOf(s, k) <= RankOf(s, q)
  }

  /** q is listed under its own name, and no other listed key lies above it. */
  predicate TopListed(s: Snapshot, q: Path) {
    && q in s.keys && q !in s.aliases && q != [] && q != [[]]
    && forall k | k in s.keys && k !in s.aliases && HasPrefix(q, k) :: k == q
  }

  lemma {:induction false} VisibleConflict(s: Snapshot, q: Path, k: Path)
    requires TopListed(s, q) && k in s.keys && k !in s.aliases
    ensures Conflict(q, k) <==> Below(k, q)
  {
    ConflictIsNesting(q, k);
    assert HasPrefix(q, []);
  }

  /** q keeps its own value, and everything below it goes. */
  lemma {:induction false} KeyWins(s: Snapshot, q: Path)
    requires Listed(s) && IndicesRight(s) && TopListed(s, q) && q !in s.inParent && AllLower(s, q)
    ensures CodeRead(s, q, ReadSection) == Some(s.values[q])
    ensures At(AsMap(s), q) == Some(Unwrap(s.values[q]))
  {
    VisibleKeys(s);
    forall k | k in Visible(s) ensures !LosesTo(s, q, k) && (Below(k, q) ==> LosesTo(s, k, q)) {
      VisibleConflict(s, q, k);
    }
    assert HasPrefix(q, q);
    assert Below(q, [[]]) ==> HasPrefix(q, [[]]);
    AsMapHoldsLeaf(s, q);
    forall k ensures !OverriddenBy(s, q, k) {
      if k in s.keys && k !in s.aliases { VisibleConflict(s, q, k); ParentIsAbove(k, q); }
    }
    assert !Overridden(s, q);
  }

  /** The keys below q take its place. */
  lemma {:induction false} SectionWins(s: Snapshot, q: Path)
    requires Listed(s) && IndicesRight(s) && TopListed(s, q) && q !in s.inParent
    requires q in s.overridden && NoneLower(s, q)
    ensures CodeRead(s, q, ReadSection).Some?
    ensures At(AsMap(s), q) == Some(Unwrap(CodeRead(s, q, ReadSection).value))
  {
    assert Overridden(s, q);
    var top :| OverriddenBy(s, q, top);
    ParentIsAbove(top, q);
    OverriddenGivesWay(s, q, top);
    UnderMember(s.keys, s.aliases.Keys, q, top);
    TreeBelow(s, q);
    SubtreeTree(s, q);
  }

  lemma {:induction false} TreeBelow(s: Snapshot, q: Path)
    requires Listed(s) && TopListed(s, q) && NoneLower(s, q)
    requires q in Shadowed(s, Visible(s)) || Bare(s.values[q])
    requires Under(s.keys, s.aliases.Keys, q) != []
    ensures var part := Under(s.keys, s.aliases.Keys, q);
      At(AsMap(s), q) == Some(Dict(Assemble(s, part, Shadowed(s, part), |q|)))
  {
    var all, part := Visible(s), Under(s.keys, s.aliases.Keys, q);
    VisibleKeys(s);
    PartOfVisible(s, q);
    forall k | k in all && Below(k, q) ensures k in Shadowed(s, all) <==> k in Shadowed(s, part) {
      SameLosers(s, all, q, k);
    }
    TreePart(s, all, Shadowed(s, all), Shadowed(s, part), q);
    assert KeptBelow(all, Shadowed(s, all), q) by { SomeoneStays(s, part); }
  }

  lemma {:induction false} OverriddenGivesWay(s: Snapshot, q: Path, top: Path)
    requires Listed(s) && TopListed(s, q) && OverriddenBy(s, q, top)
    ensures q in Shadowed(s, Visible(s)) || Bare(s.values[q])
  {
    VisibleKeys(s);
    if RankOf(s, top) < RankOf(s, q) { assert LosesTo(s, q, top) && Loses(s, Visible(s), q); }
  }

  /** A map read of a key with a value agrees with the single-tree view wherever the layers of the keys
      below it do not fall on both sides of its own: all strictly lower, or none lower and q overridden. */
  lemma {:induction false} SectionReadAgrees(s: Snapshot, q: Path)
    requires Listed(s) && IndicesRight(s) && TopListed(s, q) && q !in s.inParent
    requires AllLower(s, q) || (NoneLower(s, q) && q in s.overridden)
    ensures CodeRead(s, q, ReadSection).Some?
    ensures At(AsMap(s), q) == Some(Unwrap(CodeRead(s, q, ReadSection).value))
  {
    if AllLower(s, q) { KeyWins(s, q); } else { SectionWins(s, q); }
  }

  const Q: Path := [[113]]
  const QX: Path := [[113], [120]]
  const QY: Path := [[113], [121]]

  /** q from the second of three sources, q.x from the first and q.y from the third. */
  ghost predicate ThreeLayers(s: Snapshot) {
    && s.keys == [Q, QX, QY] && s.aliases == map[] && s.values.Keys == {Q, QX, QY}
    && (forall k | k in s.values :: s.values[k].data.Scalar?)
    && s.sourceNames == [[1], [2], [3]]
    && s.sources == map[Q := [Of([2])], QX := [Of([1])], QY := [Of([3])]]
  }

  lemma {:induction false} ThreeRanks(s: Snapshot)
    requires ThreeLayers(s)
    ensures RankOf(s, QX) < RankOf(s, Q) < RankOf(s, QY)
  {
    RankOrder(s.sourceNames, 0);
    RankOrder(s.sourceNames, 1);
    RankOrder(s.sourceNames, 2);
  }

  lemma {:induction false} ThreeConflicts()
    ensures Conflict(Q, QX) && Conflict(Q, QY) && !Conflict(QX, QY)
    ensures Beneath(QX, Q) && Beneath(QY, Q)
  {
    ConflictIsNesting(Q, QX);
    ConflictIsNesting(Q, QY);
    ConflictIsNesting(QX, QY);
    assert QX[..1] == Q && QY[..1] == Q;
  }

  lemma {:induction false} ThreeShadows(s: Snapshot)
    requires ThreeLayers(s)
    ensures Shadowed(s, [Q, QX, QY]) == {Q, QY} && Shadowed(s, [QX, QY]) == {}
  {
    ThreeRanks(s);
    ThreeConflicts();
    ConflictIsNesting(QX, QX);
    var all := [Q, QX, QY];
    assert QX in all && Q in all && LosesTo(s, Q, QX) && LosesTo(s, QY, Q);
    forall k | k in all ensures !LosesTo(s, QX, k) {}
    forall k, k' | k in [QX, QY] && k' in [QX, QY] ensures !LosesTo(s, k, k') {
      ConflictIsNesting(k, k');
    }
  }

  lemma {:induction false} ThreeSection(s: Snapshot)
    requires Listed(s) && ThreeLayers(s)
    ensures Visible(s) == s.keys && SubtreeKeys(s, Q) == [QX, QY]
  {
    KeepAll(s.keys, NotIn(s.aliases.Keys));
    ThreeConflicts();
    KeepInOrder(s.keys, BelowBut(Q, s.aliases.Keys));
    forall k ensures k in Under(s.keys, s.aliases.Keys, Q) <==> k in [QX, QY] {
      UnderMember(s.keys, s.aliases.Keys, Q, k);
    }
    assert Before(s.keys[1], s.keys[2]);
    InOrderUnique(Under(s.keys, s.aliases.Keys, Q), [QX, QY]);
  }

  lemma {:induction false} MiddleWritten(s: Snapshot, a: Path, b: Path, c: Path)
    requires a in s.values && b in s.values && c in s.values && b != a && b != c
    ensures Assemble(s, [a, b, c], {a, c}, 0) == SetNested(map[], b, Unwrap(s.values[b]))
  {
    AssembleSnoc(s, [], a, {a, c}, 0);
    AssembleSnoc(s, [a], b, {a, c}, 0);
    AssembleSnoc(s, [a, b], c, {a, c}, 0);
    assert [a] + [b] == [a, b] && [a, b] + [c] == [a, b, c] && [] + [a] == [a] && b[0..] == b;
  }

  lemma {:induction false} NotWritten(v: Any)
    ensures At(SetNested(map[], QX, v), QY) == None
  {
    assert !Related(QX, QY) by { assert QX[..2] == QX && QY[..2] == QY; }
    SetElsewhere(map[], QX, v, QY);
    AtEmpty(QY);
  }

  lemma {:induction false} ThreeTree(s: Snapshot)
    requires Listed(s) && ThreeLayers(s)
    ensures At(AsMap(s), QY) == None
  {
    ThreeSection(s);
    ThreeShadows(s);
    MiddleWritten(s, Q, QX, QY);
    NotWritten(Unwrap(s.values[QX]));
  }

  lemma {:induction false} LastWritten(s: Snapshot, a: Path, b: Path)
    requires a in s.values && b in s.values && |a| >= 1 && |b| == 2
    ensures b[1] in Assemble(s, [a, b], {}, 1)
  {
    AssembleSnoc(s, [a], b, {}, 1);
    assert [a] + [b] == [a, b] && b[1..] == [b[1]];
  }

  lemma {:induction false} ThreeOverridden(s: Snapshot)
    requires ThreeLayers(s)
    ensures Overridden(s, Q) && QX in Under(s.keys, s.aliases.Keys, Q)
  {
    ThreeRanks(s);
    ThreeConflicts();
    ParentIsAbove(QX, Q);
    assert OverriddenBy(s, Q, QX);
    UnderMember(s.keys, s.aliases.Keys, Q, QX);
  }

  lemma {:induction false} ThreeRead(s: Snapshot)
    requires Listed(s) && IndicesRight(s) && ThreeLayers(s) && Q !in s.inParent
    ensures CodeRead(s, Q, ReadSection).Some?
    ensures var r := Unwrap(CodeRead(s, Q, ReadSection).value); r.Dict? && QY[1] in r.fields
  {
    ThreeOverridden(s);
    ThreeSection(s);
    ThreeShadows(s);
    SubtreeTree(s, Q);
    SubtreeFromKeys(s, Q);
    LastWritten(s, QX, QY);
  }

  lemma {:induction false} SubtreeFromKeys(s: Snapshot, q: Path)
    requires IndicesRight(s) && q in s.values && q !in s.aliases && q !in s.inParent && Overridden(s, q)
    requires Subtree(s, q).Some?
    ensures CodeRead(s, q, ReadSection) == Subtree(s, q)
  {}

  /** With layers on both sides the two disagree: the view drops q.y, which q outranks, and the map read
      keeps it. */
  lemma {:induction false} SectionReadCanDisagree(s: Snapshot)
    requires Listed(s) && IndicesRight(s) && ThreeLayers(s)
    ensures TopListed(s, Q) && CodeRead(s, Q, ReadSection).Some?
    ensures At(AsMap(s), Q) != Some(Unwrap(CodeRead(s, Q, ReadSection).value))
  {
    NoMapNoYield(s);
    ThreeTree(s);
    ThreeRead(s);
  }
}
