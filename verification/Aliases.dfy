/** Alias chains (alias.go): bounded resolution and the install-time cycle check. */
module Aliases {
  import opened Lists

  const MAX_ALIAS_DEPTH: nat := 32

  type Graph<K> = map<K, K>

  /** The chain from k has at least n links. */
  predicate Long<K>(g: Graph<K>, k: K, n: nat)
    decreases n
  {
    n == 0 || (k in g && Long(g, g[k], n - 1))
  }

  /** The key n links down the chain from k. */
  function Walk<K>(g: Graph<K>, k: K, n: nat): K
    requires Long(g, k, n)
    decreases n
  {
    if n == 0 then k else Walk(g, g[k], n - 1)
  }

  /** The chain from k has exactly n links: it ends at a key that is not an alias. */
  predicate Ends<K>(g: Graph<K>, k: K, n: nat)
    decreases n
  {
    if n == 0 then k !in g else k in g && Ends(g, g[k], n - 1)
  }

  /** Every chain ends; equivalently, no alias leads back to itself. */
  ghost predicate Grounded<K(!new)>(g: Graph<K>) {
    forall k :: Ending(g, k)
  }

  ghost predicate Ending<K>(g: Graph<K>, k: K) {
    exists n: nat :: Ends(g, k, n)
  }

  /** What resolveAliasChain computes with the given budget of links. */
  function Resolve<K>(g: Graph<K>, k: K, budget: nat): K
    decreases budget
  {
    if budget == 0 || k !in g then k else Resolve(g, g[k], budget - 1)
  }

  /** The key that k stands for. */
  function Target<K>(g: Graph<K>, k: K): K {
    Resolve(g, k, MAX_ALIAS_DEPTH)
  }

  method ResolveAliasChain<K(==)>(start: K, g: Graph<K>) returns (cur: K)
    ensures cur == Target(g, start)
  {
    cur := start;
    for i := 0 to MAX_ALIAS_DEPTH
      invariant Resolve(g, start, MAX_ALIAS_DEPTH) == Resolve(g, cur, MAX_ALIAS_DEPTH - i)
    {
      if cur !in g { return; }
      cur := g[cur];
    }
  }

  // ---------------------------------------------------------------- chains

  lemma {:induction false} EndsSplit<K>(g: Graph<K>, k: K, n: nat, i: nat)
    requires Ends(g, k, n) && i <= n
    ensures Long(g, k, i) && Ends(g, Walk(g, k, i), n - i)
    decreases n
  {
    if i > 0 { EndsSplit(g, g[k], n - 1, i - 1); }
  }

  lemma {:induction false} EndsUnique<K>(g: Graph<K>, k: K, n: nat, m: nat)
    requires Ends(g, k, n) && Ends(g, k, m)
    ensures n == m
    decreases n
  {
    if n > 0 && m > 0 { EndsUnique(g, g[k], n - 1, m - 1); }
  }

  lemma {:induction false} LongWithinEnd<K>(g: Graph<K>, k: K, n: nat, m: nat)
    requires Ends(g, k, n) && Long(g, k, m)
    ensures m <= n
    decreases n
  {
    if n > 0 && m > 0 { LongWithinEnd(g, g[k], n - 1, m - 1); }
  }

  lemma {:induction false} WalkStep<K>(g: Graph<K>, k: K, n: nat)
    requires Long(g, k, n)
    ensures Walk(g, k, n) in g <==> Long(g, k, n + 1)
    ensures Walk(g, k, n) in g ==> Walk(g, k, n + 1) == g[Walk(g, k, n)]
    ensures Walk(g, k, n) !in g ==> Ends(g, k, n)
    decreases n
  {
    if n > 0 { WalkStep(g, g[k], n - 1); }
  }

  /** In a grounded graph no key is reached from itself. */
  lemma {:induction false} NoCycle<K(!new)>(g: Graph<K>, k: K, n: nat)
    requires Grounded(g) && n > 0 && Long(g, k, n)
    ensures Walk(g, k, n) != k
  {
    assert Ending(g, k);
    var m: nat :| Ends(g, k, m);
    LongWithinEnd(g, k, m, n);
    EndsSplit(g, k, m, n);
    if Walk(g, k, n) == k { EndsUnique(g, k, m, m - n); }
  }

  lemma {:induction false} ResolveShort<K>(g: Graph<K>, k: K, n: nat, budget: nat)
    requires Ends(g, k, n) && n <= budget
    ensures Long(g, k, n) && Resolve(g, k, budget) == Walk(g, k, n) && Resolve(g, k, budget) !in g
    decreases n
  {
    if n > 0 { ResolveShort(g, g[k], n - 1, budget - 1); }
  }

  lemma {:induction false} ResolveEnded<K>(g: Graph<K>, k: K, budget: nat) returns (n: nat)
    requires Resolve(g, k, budget) !in g
    ensures n <= budget && Ends(g, k, n)
    decreases budget
  {
    if k !in g {
      n := 0;
    } else {
      var m := ResolveEnded(g, g[k], budget - 1);
      n := m + 1;
    }
  }

  /** The chain from k has at most 32 links. */
  ghost predicate Short<K>(g: Graph<K>, k: K) {
    exists n: nat :: n <= MAX_ALIAS_DEPTH && Ends(g, k, n)
  }

  ghost predicate AllShort<K(!new)>(g: Graph<K>) {
    forall k :: Short(g, k)
  }

  /** A chain resolves to a key that is not an alias exactly when it has at most 32 links, and then to
      its own end. */
  lemma {:induction false} ResolvesIffShort<K>(g: Graph<K>, k: K)
    ensures Target(g, k) !in g <==> Short(g, k)
    ensures forall n: nat | n <= MAX_ALIAS_DEPTH && Ends(g, k, n) :: Long(g, k, n) && Target(g, k) == Walk(g, k, n)
  {
    if Target(g, k) !in g { var n := ResolveEnded(g, k, MAX_ALIAS_DEPTH); }
    forall n: nat | n <= MAX_ALIAS_DEPTH && Ends(g, k, n)
      ensures Target(g, k) !in g && Long(g, k, n) && Target(g, k) == Walk(g, k, n)
    {
      ResolveShort(g, k, n, MAX_ALIAS_DEPTH);
    }
  }

  // ---------------------------------------------------------------- the cycle check

  /** What the check should mean: the chain from canonical ends within 31 links without meeting alias. */
  ghost predicate Acceptable<K>(g: Graph<K>, alias: K, canonical: K) {
    exists n: nat :: n < MAX_ALIAS_DEPTH && Ends(g, canonical, n) && Avoids(g, alias, canonical, n)
  }

  predicate Avoids<K>(g: Graph<K>, alias: K, k: K, n: nat)
    decreases n
  {
    k != alias && (n == 0 || k !in g || Avoids(g, alias, g[k], n - 1))
  }

  lemma {:induction false} AvoidsAt<K>(g: Graph<K>, alias: K, k: K, n: nat, i: nat)
    requires Avoids(g, alias, k, n) && i <= n && Long(g, k, i)
    ensures Walk(g, k, i) != alias
    decreases i
  {
    if i > 0 { AvoidsAt(g, alias, g[k], n - 1, i - 1); }
  }

  lemma {:induction false} AvoidsSnoc<K>(g: Graph<K>, alias: K, k: K, n: nat)
    requires Avoids(g, alias, k, n) && Long(g, k, n + 1) && Walk(g, k, n + 1) != alias
    ensures Avoids(g, alias, k, n + 1)
    decreases n
  {
    if n > 0 { AvoidsSnoc(g, alias, g[k], n - 1); }
  }

  lemma {:induction false} RevisitNeverEnds<K>(g: Graph<K>, k: K, i: nat, j: nat, n: nat)
    requires i < j && Long(g, k, j) && Long(g, k, i) && Walk(g, k, i) == Walk(g, k, j)
    ensures !Ends(g, k, n)
  {
    if Ends(g, k, n) {
      LongWithinEnd(g, k, n, j);
      EndsSplit(g, k, n, i);
      EndsSplit(g, k, n, j);
      EndsUnique(g, Walk(g, k, i), n - i, n - j);
    }
  }

  /** An empty chain means the alias may be installed; otherwise chain is the walk that shows why not. */
  method ValidateNoAliasCycle<K(==)>(alias: K, canonical: K, existing: Graph<K>) returns (chain: seq<K>)
    ensures chain == [] <==> Acceptable(existing, alias, canonical)
    ensures chain != [] ==> chain[0] == alias
    ensures forall i | 0 <= i < |chain| - 1 ::
              Long(existing, canonical, i) && chain[i + 1] == Walk(existing, canonical, i)
  {
    if alias == canonical { return [alias]; }
    var visited := {alias};
    chain := [alias, canonical];
    var cur := canonical;
    for i := 0 to MAX_ALIAS_DEPTH
      invariant Long(existing, canonical, i) && cur == Walk(existing, canonical, i)
      invariant Avoids(existing, alias, canonical, i)
      invariant |chain| == i + 2 && chain[0] == alias
      invariant forall j | 0 <= j < |chain| - 1 ::
                  Long(existing, canonical, j) && chain[j + 1] == Walk(existing, canonical, j)
      invariant alias in visited
      invariant forall v | v in visited && v != alias ::
                  exists j :: 1 <= j <= i && Long(existing, canonical, j) && Walk(existing, canonical, j) == v
    {
      WalkStep(existing, canonical, i);
      if cur !in existing { return []; }
      var next := existing[cur];
      if next == alias {
        MeetsAlias(existing, alias, canonical, i + 1);
        return chain + [next];
      }
      if next in visited {
        var j :| 1 <= j <= i && Long(existing, canonical, j) && Walk(existing, canonical, j) == next;
        forall n: nat ensures !Ends(existing, canonical, n) {
          RevisitNeverEnds(existing, canonical, j, i + 1, n);
        }
        return chain + [next];
      }
      AvoidsSnoc(existing, alias, canonical, i);
      visited := visited + {next};
      chain := chain + [next];
      cur := next;
    }
    forall n: nat | Ends(existing, canonical, n) ensures n >= MAX_ALIAS_DEPTH {
      LongWithinEnd(existing, canonical, n, MAX_ALIAS_DEPTH);
    }
  }

  lemma {:induction false} MeetsAlias<K>(g: Graph<K>, alias: K, k: K, i: nat)
    requires Long(g, k, i) && Walk(g, k, i) == alias
    ensures !Acceptable(g, alias, k)
  {
    forall n: nat | Ends(g, k, n) && Avoids(g, alias, k, n) ensures false {
      LongWithinEnd(g, k, n, i);
      AvoidsAt(g, alias, k, n, i);
    }
  }

  // ---------------------------------------------------------------- what a registration keeps

  lemma {:induction false} UnchangedChain<K>(g: Graph<K>, alias: K, canonical: K, k: K, n: nat)
    requires Ends(g, k, n) && Avoids(g, alias, k, n)
    ensures Ends(g[alias := canonical], k, n)
    decreases n
  {
    if n > 0 { UnchangedChain(g, alias, canonical, g[k], n - 1); }
  }

  lemma {:induction false} RedirectedChain<K>(g: Graph<K>, alias: K, canonical: K, m: nat, k: K, n: nat)
    requires Ends(g, canonical, m) && Avoids(g, alias, canonical, m) && Ends(g, k, n)
    ensures Ending(g[alias := canonical], k)
    decreases n
  {
    var g' := g[alias := canonical];
    if k == alias {
      UnchangedChain(g, alias, canonical, canonical, m);
      assert Ends(g', k, m + 1);
    } else if n == 0 {
      assert Ends(g', k, 0);
    } else {
      RedirectedChain(g, alias, canonical, m, g[k], n - 1);
      var n': nat :| Ends(g', g[k], n');
      assert Ends(g', k, n' + 1);
    }
  }

  /** Installing an accepted alias, new or replacing an old link, keeps the graph free of cycles. */
  lemma {:induction false} AcceptedKeepsGrounded<K(!new)>(g: Graph<K>, alias: K, canonical: K)
    requires Grounded(g) && Acceptable(g, alias, canonical)
    ensures Grounded(g[alias := canonical])
  {
    var m: nat :| m < MAX_ALIAS_DEPTH && Ends(g, canonical, m) && Avoids(g, alias, canonical, m);
    var g' := g[alias := canonical];
    forall k ensures Ending(g', k) {
      assert Ending(g, k);
      var n: nat :| Ends(g, k, n);
      RedirectedChain(g, alias, canonical, m, k, n);
    }
  }

  // ---------------------------------------------------------------- the depth limit can be outgrown

  /** Aliases ks[0] -> ks[1] -> ... -> ks[n], each registered after the one that points at it. */
  function Line<K>(ks: seq<K>, n: nat): Graph<K>
    requires n < |ks|
  {
    if n == 0 then map[] else Line(ks, n - 1)[ks[n - 1] := ks[n]]
  }

  lemma {:induction false} LineLinks<K>(ks: seq<K>, n: nat)
    requires NoRepeats(ks) && n < |ks|
    ensures forall i | 0 <= i < |ks| :: ks[i] in Line(ks, n) <==> i < n
    ensures forall i | 0 <= i < n :: Line(ks, n)[ks[i]] == ks[i + 1]
  {
    if n > 0 { LineLinks(ks, n - 1); }
  }

  lemma {:induction false} LineResolve<K>(ks: seq<K>, n: nat, i: nat, budget: nat)
    requires NoRepeats(ks) && i + budget <= n < |ks|
    ensures Resolve(Line(ks, n), ks[i], budget) == ks[i + budget]
    decreases budget
  {
    LineLinks(ks, n);
    if budget > 0 { LineResolve(ks, n, i + 1, budget - 1); }
  }

  lemma {:induction false} NextLinkAccepted<K>(ks: seq<K>, i: nat)
    requires NoRepeats(ks) && i + 1 < |ks|
    ensures Acceptable(Line(ks, i), ks[i], ks[i + 1])
  {
    LineLinks(ks, i);
    assert Ends(Line(ks, i), ks[i + 1], 0) && Avoids(Line(ks, i), ks[i], ks[i + 1], 0);
  }

  /** The check looks down the canonical's chain only, so from any 34 keys 33 accepted registrations
      build a chain that resolution does not follow to its end. */
  lemma {:induction false} DepthCanBeOutgrown<K>(ks: seq<K>)
    requires NoRepeats(ks) && |ks| == 34
    ensures forall i | 0 <= i < 33 :: Acceptable(Line(ks, i), ks[i], ks[i + 1])
    ensures Target(Line(ks, 33), ks[0]) in Line(ks, 33)
  {
    forall i | 0 <= i < 33 ensures Acceptable(Line(ks, i), ks[i], ks[i + 1]) { NextLinkAccepted(ks, i); }
    LineResolve(ks, 33, 0, 32);
    LineLinks(ks, 33);
  }

  // ---------------------------------------------------------------- and exactly when it is

  /** Every chain that leads to alias leaves room for one more link and m behind it. */
  ghost predicate LeavesRoom<K(!new)>(g: Graph<K>, alias: K, m: nat) {
    forall k: K, i: nat | Long(g, k, i) && Walk(g, k, i) == alias :: i + 1 + m <= MAX_ALIAS_DEPTH
  }

  lemma {:induction false} ReachesAlias<K>(g: Graph<K>, alias: K, k: K, n: nat) returns (i: nat)
    requires Ends(g, k, n) && !Avoids(g, alias, k, n)
    ensures i <= n && Long(g, k, i) && Walk(g, k, i) == alias
    decreases n
  {
    i := 0;
    if k != alias {
      i := ReachesAlias(g, alias, g[k], n - 1);
      i := i + 1;
    }
  }

  /** A chain that reached alias after i links now ends m + 1 links later. */
  lemma {:induction false} LengthThrough<K>(g: Graph<K>, alias: K, canonical: K, m: nat, k: K, i: nat, n: nat)
    requires Ends(g, canonical, m) && Avoids(g, alias, canonical, m)
    requires Ends(g, k, n) && Long(g, k, i) && Walk(g, k, i) == alias
    ensures Ends(g[alias := canonical], k, i + 1 + m)
    decreases i
  {
    if i == 0 {
      UnchangedChain(g, alias, canonical, canonical, m);
    } else {
      if k == alias { RevisitNeverEnds(g, k, 0, i, n); }
      LengthThrough(g, alias, canonical, m, g[k], i - 1, n - 1);
    }
  }

  /** A registration keeps every chain within 32 links exactly when each chain leading to the alias, the
      new link and the canonical's chain fit into 32 together. */
  lemma {:induction false} RegistrationKeepsShort<K(!new)>(g: Graph<K>, alias: K, canonical: K, m: nat)
    requires AllShort(g) && Ends(g, canonical, m) && Avoids(g, alias, canonical, m)
    ensures AllShort(g[alias := canonical]) <==> LeavesRoom(g, alias, m)
  {
    var g' := g[alias := canonical];
    if AllShort(g') {
      forall k: K, i: nat | Long(g, k, i) && Walk(g, k, i) == alias ensures i + 1 + m <= MAX_ALIAS_DEPTH {
        assert Short(g, k) && Short(g', k);
        var n: nat, n': nat :| Ends(g, k, n) && n' <= MAX_ALIAS_DEPTH && Ends(g', k, n');
        LengthThrough(g, alias, canonical, m, k, i, n);
        EndsUnique(g', k, n', i + 1 + m);
      }
    }
    if LeavesRoom(g, alias, m) {
      forall k ensures Short(g', k) {
        assert Short(g, k);
        var n: nat :| n <= MAX_ALIAS_DEPTH && Ends(g, k, n);
        if Avoids(g, alias, k, n) {
          UnchangedChain(g, alias, canonical, k, n);
        } else {
          var i := ReachesAlias(g, alias, k, n);
          LengthThrough(g, alias, canonical, m, k, i, n);
        }
      }
    }
  }
}
