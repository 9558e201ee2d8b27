/** The second loop of buildSnapshot (snapshot.go): every alias takes what its target holds, in the order
    the loop meets them. */
module Stamping {
  import opened Paths
  import opened PathOrder
  import opened Lists
  import opened Aliases

  /** After stamping a: the alias takes what its target holds at that moment. */
  function StampOn<V>(aliases: Graph<Path>, full: map<Path, V>, a: Path): map<Path, V> {
    var c := Target(aliases, a);
    if c in full then full[a := full[c]] else full
  }

  function StampAlong<V>(aliases: Graph<Path>, base: map<Path, V>, order: seq<Path>): map<Path, V> {
    if order == [] then base
    else StampOn(aliases, StampAlong(aliases, base, order[..|order| - 1]), order[|order| - 1])
  }

  /** Every alias of a key in base carries that key's value. */
  function Stamped<V>(aliases: Graph<Path>, base: map<Path, V>): map<Path, V> {
    base + map a | a in aliases && Target(aliases, a) in base :: base[Target(aliases, a)]
  }

  /** The loop; order is the one it met the aliases in. */
  method StampAliases<V>(aliases: Graph<Path>, base: map<Path, V>) returns (full: map<Path, V>, ghost order: seq<Path>)
    ensures Orders(order, aliases.Keys) && full == StampAlong(aliases, base, order)
  {
    full, order := base, [];
    var todo := aliases.Keys;
    while todo != {}
      invariant todo <= aliases.Keys
      invariant Orders(order, aliases.Keys - todo) && full == StampAlong(aliases, base, order)
      decreases |todo|
    {
      var a :| a in todo;
      var c := ResolveAliasChain(a, aliases);
      assert (order + [a])[..|order|] == order;
      order := order + [a];
      if c in full { full := full[a := full[c]]; }
      todo := todo - {a};
    }
  }

  // ---------------------------------------------------------------- what every order gives

  predicate SameAt<V(==)>(a: map<Path, V>, b: map<Path, V>, k: Path) {
    (k in a <==> k in b) && (k in a ==> a[k] == b[k])
  }

  lemma {:induction false} SameEverywhere<V>(a: map<Path, V>, b: map<Path, V>)
    requires forall k :: SameAt(a, b, k)
    ensures a == b
  {
    forall k ensures k in a <==> k in b { assert SameAt(a, b, k); }
    forall k | k in a ensures a[k] == b[k] { assert SameAt(a, b, k); }
  }

  lemma {:induction false} LastOf(order: seq<Path>)
    requires order != []
    ensures order[..|order| - 1] + [order[|order| - 1]] == order
    ensures forall k :: k in order <==> k in order[..|order| - 1] || k == order[|order| - 1]
  {
    var front, last := order[..|order| - 1], order[|order| - 1];
    assert order == front + [last];
  }

  lemma {:induction false} StampsElsewhere<V>(aliases: Graph<Path>, base: map<Path, V>, order: seq<Path>, k: Path)
    requires k !in order
    ensures SameAt(StampAlong(aliases, base, order), base, k)
  {
    if order != [] {
      LastOf(order);
      StampsElsewhere(aliases, base, order[..|order| - 1], k);
    }
  }

  /** An alias whose target is stamped by nobody takes the target's value. */
  lemma {:induction false} StampsAlias<V>(aliases: Graph<Path>, base: map<Path, V>, order: seq<Path>, a: Path)
    requires a in order && Target(aliases, a) !in order && Target(aliases, a) in base
    ensures var full := StampAlong(aliases, base, order); a in full && full[a] == base[Target(aliases, a)]
  {
    var front, last := order[..|order| - 1], order[|order| - 1];
    LastOf(order);
    if last == a {
      StampsElsewhere(aliases, base, front, Target(aliases, a));
    } else {
      StampsAlias(aliases, base, front, a);
    }
  }

  // ---------------------------------------------------------------- when the order matters

  /** Where a's target c is itself an alias, and c's own target d has a value: stamping c before or after a
      makes no difference to a. */
  predicate Undisturbed<V(==)>(aliases: Graph<Path>, base: map<Path, V>, a: Path) {
    var c := Target(aliases, a);
    var d := Target(aliases, c);
    c in aliases && d in base ==> if c in base then base[c] == base[d] else a in base && base[a] == base[d]
  }

  ghost predicate OrderFree<V>(aliases: Graph<Path>, base: map<Path, V>) {
    forall a | a in aliases :: Undisturbed(aliases, base, a)
  }

  lemma {:induction false} ShortIsFree<V>(aliases: Graph<Path>, base: map<Path, V>)
    requires AllShort(aliases)
    ensures OrderFree(aliases, base)
  {
    forall a | a in aliases ensures Undisturbed(aliases, base, a) {
      ResolvesIffShort(aliases, a);
      assert Short(aliases, a);
    }
  }

  /** The aliases in done are stamped, and the other keys are as they were. */
  ghost predicate StampedIn<V>(aliases: Graph<Path>, base: map<Path, V>, done: seq<Path>, full: map<Path, V>) {
    forall k :: SameAt(full, if k in done then Stamped(aliases, base) else base, k)
  }

  lemma {:induction false} StampNext<V>(aliases: Graph<Path>, base: map<Path, V>, done: seq<Path>,
                                        full: map<Path, V>, a: Path)
    requires StampedIn(aliases, base, done, full) && Undisturbed(aliases, base, a)
    requires a in aliases && a !in done && forall x | x in done :: x in aliases
    ensures StampedIn(aliases, base, done + [a], StampOn(aliases, full, a))
  {
    var c := Target(aliases, a);
    assert SameAt(full, if c in done then Stamped(aliases, base) else base, c);
    assert SameAt(full, base, a);
    forall k ensures SameAt(StampOn(aliases, full, a), if k in done + [a] then Stamped(aliases, base) else base, k) {
      assert SameAt(full, if k in done then Stamped(aliases, base) else base, k);
    }
  }

  lemma {:induction false} StampedUpTo<V>(aliases: Graph<Path>, base: map<Path, V>, order: seq<Path>)
    requires OrderFree(aliases, base) && NoRepeats(order) && forall a | a in order :: a in aliases
    ensures StampedIn(aliases, base, order, StampAlong(aliases, base, order))
  {
    if order != [] {
      var front, a := order[..|order| - 1], order[|order| - 1];
      LastOf(order);
      StampedUpTo(aliases, base, front);
      StampNext(aliases, base, front, StampAlong(aliases, base, front), a);
    }
  }

  lemma {:induction false} FreeOrder<V>(aliases: Graph<Path>, base: map<Path, V>, order: seq<Path>)
    requires OrderFree(aliases, base) && Orders(order, aliases.Keys)
    ensures StampAlong(aliases, base, order) == Stamped(aliases, base)
  {
    var full, all := StampAlong(aliases, base, order), Stamped(aliases, base);
    StampedUpTo(aliases, base, order);
    forall k ensures SameAt(full, all, k) {
      assert SameAt(full, if k in order then all else base, k);
      assert k !in aliases ==> SameAt(base, all, k);
    }
    SameEverywhere(full, all);
  }

  lemma {:induction false} LaterStamps<V>(aliases: Graph<Path>, base: map<Path, V>, front: seq<Path>,
                                          more: seq<Path>, k: Path)
    requires k !in more
    ensures SameAt(StampAlong(aliases, base, front + more), StampAlong(aliases, base, front), k)
  {
    if more == [] {
      assert front + more == front;
    } else {
      LastOf(more);
      LaterStamps(aliases, base, front, more[..|more| - 1], k);
      StampLast(aliases, base, front + more[..|more| - 1], more[|more| - 1]);
      assert front + more[..|more| - 1] + [more[|more| - 1]] == front + more;
    }
  }

  lemma {:induction false} StampLast<V>(aliases: Graph<Path>, base: map<Path, V>, front: seq<Path>, a: Path)
    ensures StampAlong(aliases, base, front + [a]) == StampOn(aliases, StampAlong(aliases, base, front), a)
  {
    assert (front + [a])[..|front|] == front;
  }

  lemma {:induction false} StampTwo<V>(aliases: Graph<Path>, base: map<Path, V>, a: Path, c: Path)
    ensures StampAlong(aliases, base, [a, c]) == StampOn(aliases, StampOn(aliases, base, a), c)
  {
    StampLast(aliases, base, [], a);
    StampLast(aliases, base, [a], c);
    assert [] + [a] == [a] && [a] + [c] == [a, c];
  }

  lemma {:induction false} OrdersMore(xs: seq<Path>, ks: set<Path>, a: Path)
    requires Orders(xs, ks) && a !in ks
    ensures Orders([a] + xs, ks + {a})
  {
    var all := [a] + xs;
    assert all[0] == a && forall j | 1 <= j < |all| :: all[j] == xs[j - 1] && xs[j - 1] in xs;
  }

  lemma {:induction false} TwoMore(rest: seq<Path>, ks: set<Path>, a: Path, c: Path)
    requires Orders(rest, ks) && a !in ks && c !in ks && a != c
    ensures Orders([a, c] + rest, ks + {c} + {a})
  {
    OrdersMore(rest, ks, c);
    OrdersMore([c] + rest, ks + {c}, a);
    assert [a, c] + rest == [a] + ([c] + rest);
  }

  lemma {:induction false} PairFirst(ks: set<Path>, a: Path, c: Path)
    requires a in ks && c in ks && a != c
    ensures Orders([a, c] + SortSet(ks - {a, c}), ks) && a !in SortSet(ks - {a, c})
  {
    var fewer := ks - {a, c};
    InOrderDistinct(SortSet(fewer));
    TwoMore(SortSet(fewer), fewer, a, c);
    assert fewer + {c} + {a} == ks;
  }

  /** A disturbed alias ends differently when it is stamped just before its target and just after. */
  lemma {:induction false} DisturbedShows<V>(aliases: Graph<Path>, base: map<Path, V>, a: Path)
    returns (x: seq<Path>, y: seq<Path>)
    requires a in aliases && !Undisturbed(aliases, base, a)
    ensures Orders(x, aliases.Keys) && Orders(y, aliases.Keys)
    ensures StampAlong(aliases, base, x) != StampAlong(aliases, base, y)
  {
    var c := Target(aliases, a);
    var rest := SortSet(aliases.Keys - {a, c});
    PairFirst(aliases.Keys, a, c);
    PairFirst(aliases.Keys, c, a);
    assert {a, c} == {c, a};
    x, y := [a, c] + rest, [c, a] + rest;
    LaterStamps(aliases, base, [a, c], rest, a);
    LaterStamps(aliases, base, [c, a], rest, a);
    PairShows(aliases, base, a);
  }

  lemma {:induction false} PairShows<V>(aliases: Graph<Path>, base: map<Path, V>, a: Path)
    requires a in aliases && !Undisturbed(aliases, base, a)
    ensures var c := Target(aliases, a);
      !SameAt(StampAlong(aliases, base, [a, c]), StampAlong(aliases, base, [c, a]), a)
  {
    StampTwo(aliases, base, a, Target(aliases, a));
    StampTwo(aliases, base, Target(aliases, a), a);
  }

  ghost predicate OneResult<V>(aliases: Graph<Path>, base: map<Path, V>) {
    forall x, y | Orders(x, aliases.Keys) && Orders(y, aliases.Keys) ::
      StampAlong(aliases, base, x) == StampAlong(aliases, base, y)
  }

  /** The order of the loop never matters exactly when no alias is disturbed. */
  lemma {:induction false} OneResultIffFree<V>(aliases: Graph<Path>, base: map<Path, V>)
    ensures OneResult(aliases, base) <==> OrderFree(aliases, base)
  {
    if OrderFree(aliases, base) {
      forall x, y | Orders(x, aliases.Keys) && Orders(y, aliases.Keys)
        ensures StampAlong(aliases, base, x) == StampAlong(aliases, base, y)
      {
        FreeOrder(aliases, base, x);
        FreeOrder(aliases, base, y);
      }
    } else {
      var a :| a in aliases && !Undisturbed(aliases, base, a);
      var x, y := DisturbedShows(aliases, base, a);
    }
  }

  /** After 34 registrations, each of which the cycle check accepts when it is made, the first alias is
      disturbed as soon as the last key has a value and the first one's target has none. */
  lemma {:induction false} LongLineDisturbs<V>(ks: seq<Path>, base: map<Path, V>)
    requires NoRepeats(ks) && |ks| == 35 && ks[34] in base && ks[32] !in base && ks[0] !in base
    ensures forall i | 0 <= i < 34 :: Acceptable(Line(ks, i), ks[i], ks[i + 1])
    ensures !OrderFree(Line(ks, 34), base)
  {
    forall i | 0 <= i < 34 ensures Acceptable(Line(ks, i), ks[i], ks[i + 1]) { NextLinkAccepted(ks, i); }
    LineTargets(ks);
    assert !Undisturbed(Line(ks, 34), base, ks[0]);
  }

  lemma {:induction false} LineTargets(ks: seq<Path>)
    requires NoRepeats(ks) && |ks| == 35
    ensures var g := Line(ks, 34);
      ks[0] in g && ks[32] in g && ks[0] != ks[34] && ks[32] != ks[34]
      && Target(g, ks[0]) == ks[32] && Target(g, ks[32]) == ks[34]
  {
    var g := Line(ks, 34);
    LineLinks(ks, 34);
    LineResolve(ks, 34, 0, 32);
    assert ks[32] in g && ks[33] in g && ks[34] !in g && g[ks[32]] == ks[33] && g[ks[33]] == ks[34];
    assert Resolve(g, ks[32], 32) == Resolve(g, ks[33], 31) == Resolve(g, ks[34], 30) == ks[34];
  }
}
