/** What the code sees when it cuts a canonical key string at its segment boundaries. Every map of the
    registry is keyed by canonical strings; since printing is injective, the rest of the model keys
    them by path and uses the cuts defined here. */
module KeyCuts {
  import opened Paths

  /** The key named by the string in front of the n-th boundary: the first n segments, except that a
      single empty segment prints as nothing there and names the root. */
  function Cut(q: Path, n: nat): Path
    requires n <= |q|
  {
    if q[..n] == [[]] then [] else q[..n]
  }

  /** The path parsed from the string after the n-th boundary. */
  function Rest(q: Path, n: nat): Path
    requires n <= |q|
  {
    if q[n..] == [[]] then [] else q[n..]
  }

  /** topLevelDelims finds one boundary between each two segments, and the two strings around it name
      Cut and Rest. */
  lemma {:induction false} CutsOfKey(q: Path)
    requires q != []
    ensures var ks, ds := Canon(q), Delims(Canon(q), 0);
      && |ds| == |q| - 1
      && forall i | 0 <= i < |ds| ::
           && ds[i] < |ks|
           && ks[..ds[i]] == Canon(Cut(q, i + 1)) && Parse(ks[..ds[i]]) == Cut(q, i + 1)
           && Parse(ks[ds[i] + 1..]) == Rest(q, i + 1)
  {
    DelimsAreBoundaries(q);
    forall n | 0 < n < |q|
      ensures Join(q[..n]) == Canon(Cut(q, n)) && Parse(Join(q[..n])) == Cut(q, n)
      ensures Parse(Join(q[n..])) == Rest(q, n)
    {
      ParseJoin(q[..n]);
      ParseJoin(q[n..]);
    }
  }

  lemma {:induction false} ParseJoin(p: Path)
    ensures Join(p) == Canon(if p == [[]] then [] else p)
    ensures Parse(Join(p)) == if p == [[]] then [] else p
  {
    RoundTrip(if p == [[]] then [] else p);
  }

  /** A path whose first and last segments are not empty. */
  predicate Regular(q: Path) {
    q == [] || (q[0] != [] && q[|q| - 1] != [])
  }

  /** Cuts are the segment prefixes and suffixes, at every boundary, exactly for regular paths. */
  lemma {:induction false} CutsAreSegments(q: Path)
    requires |q| >= 2
    ensures Regular(q) <==> forall n | 0 < n < |q| :: Cut(q, n) == q[..n] && Rest(q, n) == q[n..]
  {
    if Regular(q) {
      forall n | 0 < n < |q| ensures Cut(q, n) == q[..n] && Rest(q, n) == q[n..] {
        assert q[..n][0] == q[0] && q[n..][|q| - n - 1] == q[|q| - 1];
      }
    } else if q[0] == [] {
      assert q[..1] == [[]];
      assert Cut(q, 1) != q[..1];
    } else {
      assert q[|q| - 1..] == [[]];
      assert Rest(q, |q| - 1) != q[|q| - 1..];
    }
  }
}
