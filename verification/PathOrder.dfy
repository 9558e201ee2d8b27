/** The byte order on canonical strings: comparing paths without rendering them, and finding the keys
    below a path as a window of a sorted list. */
module PathOrder {
  import opened Paths
  import opened Lists

  /** `strings.Compare`. */
  function Compare(a: Bytes, b: Bytes): (r: int)
    ensures -1 <= r <= 1
  {
    if a == [] then (if b == [] then 0 else -1)
    else if b == [] then 1
    else if a[0] < b[0] then -1
    else if a[0] > b[0] then 1
    else Compare(a[1..], b[1..])
  }

  predicate Less(a: Bytes, b: Bytes) {
    Compare(a, b) < 0
  }

  predicate Sorted(s: seq<Bytes>) {
    forall i, j | 0 <= i < j < |s| :: Less(s[i], s[j])
  }

  lemma {:induction false} CompareZero(a: Bytes, b: Bytes)
    ensures Compare(a, b) == 0 <==> a == b
  {
    if a != [] && b != [] && a[0] == b[0] {
      CompareZero(a[1..], b[1..]);
      assert a == [a[0]] + a[1..] && b == [b[0]] + b[1..];
    }
  }

  lemma {:induction false} CompareFlip(a: Bytes, b: Bytes)
    ensures Compare(b, a) == -Compare(a, b)
  {
    if a != [] && b != [] && a[0] == b[0] { CompareFlip(a[1..], b[1..]); }
  }

  lemma {:induction false} LessTrans(a: Bytes, b: Bytes, c: Bytes)
    requires Less(a, b) && Compare(b, c) <= 0
    ensures Less(a, c)
  {
    if a != [] && b != [] && c != [] && a[0] == b[0] == c[0] { LessTrans(a[1..], b[1..], c[1..]); }
  }

  lemma {:induction false} ComparePrefix(x: Bytes, a: Bytes, b: Bytes)
    ensures Compare(x + a, x + b) == Compare(a, b)
  {
    if x == [] {
      assert x + a == a && x + b == b;
    } else {
      ComparePrefix(x[1..], a, b);
      assert (x + a)[1..] == x[1..] + a && (x + b)[1..] == x[1..] + b;
    }
  }

  /** The first byte where two strings differ decides; a proper prefix comes first. */
  lemma {:induction false} FirstDifferenceDecides(a: Bytes, b: Bytes, n: nat)
    requires n <= |a| && n <= |b| && a[..n] == b[..n]
    ensures n < |a| && n < |b| && a[n] < b[n] ==> Less(a, b) && !Less(b, a)
    ensures n == |a| < |b| ==> Less(a, b) && !Less(b, a)
  {
    assert a == a[..n] + a[n..] && b == a[..n] + b[n..];
    ComparePrefix(a[..n], a[n..], b[n..]);
    ComparePrefix(a[..n], b[n..], a[n..]);
  }

  // ---------------------------------------------------------------- comparePaths

  predicate Bracketed(p: Path) {
    p == [[]] || exists i | 0 <= i < |p| :: NeedsBrackets(p[i])
  }

  /** What follows the first i segments in p's form. */
  function Tail(p: Path, i: nat): Bytes
    requires i <= |p|
  {
    if i == 0 then Join(p) else if i == |p| then [] else [DOT] + Join(p[i..])
  }

  lemma {:induction false} JoinTail(p: Path, i: nat)
    requires i <= |p|
    ensures Join(p) == Join(p[..i]) + Tail(p, i)
  {
    if 0 < i < |p| {
      JoinConcat(p[..i], p[i..]);
      assert p[..i] + p[i..] == p;
    } else if i == |p| {
      assert p[..i] == p;
    }
  }

  lemma {:induction false} CompareTails(a: Path, b: Path, i: nat)
    requires i <= |a| && i <= |b| && a[..i] == b[..i]
    ensures Compare(Join(a), Join(b)) == Compare(Tail(a, i), Tail(b, i))
  {
    JoinTail(a, i);
    JoinTail(b, i);
    ComparePrefix(Join(a[..i]), Tail(a, i), Tail(b, i));
  }

  /** comparePaths orders any two paths as their rendered canonical strings. */
  method ComparePaths(a: Path, b: Path) returns (r: int)
    ensures r == Compare(Canon(a), Canon(b))
  {
    if Bracketed(a) || Bracketed(b) { return Compare(Canon(a), Canon(b)); }
    var i := 0;
    while true
      invariant i <= |a| && i <= |b| && a[..i] == b[..i]
      decreases |a| - i
    {
      CompareTails(a, b, i);
      if i == |a| || i == |b| {
        if i == 0 { JoinEmpty(a); JoinEmpty(b); }
        return if i == |a| && i == |b| then 0 else if i == |a| then -1 else 1;
      }
      if a[i] != b[i] {
        r := CompareSegments(a, b, i);
        return;
      }
      assert a[..i + 1] == a[..i] + [a[i]] && b[..i + 1] == b[..i] + [b[i]];
      i := i + 1;
    }
  }

  /** The end of comparePaths, at the first segment where a and b differ. */
  method CompareSegments(a: Path, b: Path, i: nat) returns (r: int)
    requires i < |a| && i < |b| && a[i] != b[i] && !Bracketed(a) && !Bracketed(b)
    ensures r == Compare(Tail(a, i), Tail(b, i))
  {
    var sa, sb := a[i], b[i];
    var n := if |sa| < |sb| then |sa| else |sb|;
    var k := 0;
    while k < n && sa[k] == sb[k]
      invariant k <= n && sa[..k] == sb[..k]
    {
      assert sa[..k + 1] == sa[..k] + [sa[k]] && sb[..k + 1] == sb[..k] + [sb[k]];
      k := k + 1;
    }
    StripCommon(a, b, i, k);
    ghost var ta, tb := sa[k..] + Tail(a, i + 1), sb[k..] + Tail(b, i + 1);
    if k < n { return if sa[k] < sb[k] then -1 else 1; }
    if |sa| < |sb| {
      assert sa[k..] == [] && ta == Tail(a, i + 1) && tb[0] == sb[k];
      if i + 1 == |a| { return -1; }
      NoDelim(b, i, k);
      return if DOT < sb[k] then -1 else 1;
    }
    assert |sa| > |sb| == k by { assert sb[..|sb|] == sb && sa[..|sa|] == sa; }
    assert sb[k..] == [] && tb == Tail(b, i + 1) && ta[0] == sa[k];
    if i + 1 == |b| { return 1; }
    NoDelim(a, i, k);
    return if sa[k] < DOT then -1 else 1;
  }

  lemma {:induction false} StripCommon(a: Path, b: Path, i: nat, k: nat)
    requires i < |a| && i < |b| && k <= |a[i]| && k <= |b[i]| && a[i][..k] == b[i][..k]
    requires !Bracketed(a) && !Bracketed(b)
    ensures Compare(Tail(a, i), Tail(b, i))
         == Compare(a[i][k..] + Tail(a, i + 1), b[i][k..] + Tail(b, i + 1))
  {
    TailSplit(a, i, k);
    TailSplit(b, i, k);
    var x := (if i == 0 then [] else [DOT]) + a[i][..k];
    ComparePrefix(x, a[i][k..] + Tail(a, i + 1), b[i][k..] + Tail(b, i + 1));
  }

  lemma {:induction false} TailSplit(p: Path, i: nat, k: nat)
    requires i < |p| && k <= |p[i]| && !Bracketed(p)
    ensures Tail(p, i) == ((if i == 0 then [] else [DOT]) + p[i][..k]) + (p[i][k..] + Tail(p, i + 1))
  {}

  lemma {:induction false} NoDelim(p: Path, i: nat, k: nat)
    requires i < |p| && k < |p[i]| && !Bracketed(p)
    ensures p[i][k] != DOT
  {}

  // ---------------------------------------------------------------- keysBelow

  lemma {:induction false} PrefixNotLess(x: Bytes, pre: Bytes)
    requires StartsWith(x, pre)
    ensures Compare(pre, x) <= 0
  {
    ComparePrefix(pre, [], x[|pre|..]);
    assert pre + [] == pre && pre + x[|pre|..] == x;
  }

  /** The strings starting with pre are an interval of the order. */
  lemma {:induction false} PrefixConvex(pre: Bytes, y: Bytes, x: Bytes)
    requires StartsWith(x, pre) && Compare(pre, y) <= 0 && Compare(y, x) <= 0
    ensures StartsWith(y, pre)
  {
    if pre != [] {
      assert y != [] && x[0] == pre[0] == y[0];
      assert x[1..][..|pre| - 1] == x[..|pre|][1..];
      PrefixConvex(pre[1..], y[1..], x[1..]);
      assert y[..|pre|] == [y[0]] + y[1..][..|pre| - 1];
    }
  }

  /** `sort.SearchStrings`. */
  method SearchStrings(strs: seq<Bytes>, x: Bytes) returns (lo: nat)
    requires Sorted(strs)
    ensures lo <= |strs|
    ensures forall i | 0 <= i < lo :: Less(strs[i], x)
    ensures forall i | lo <= i < |strs| :: !Less(strs[i], x)
  {
    lo := 0;
    var hi := |strs|;
    while lo < hi
      invariant lo <= hi <= |strs|
      invariant forall i | 0 <= i < lo :: Less(strs[i], x)
      invariant forall i | hi <= i < |strs| :: !Less(strs[i], x)
    {
      var h := (lo + hi) / 2;
      if Less(strs[h], x) {
        forall i | lo <= i < h ensures Less(strs[i], x) { LessTrans(strs[i], strs[h], x); }
        lo := h + 1;
      } else {
        forall i | h < i < |strs| ensures !Less(strs[i], x) {
          if Less(strs[i], x) { LessTrans(strs[h], strs[i], x); }
        }
        hi := h;
      }
    }
  }

  function Canons(ps: seq<Path>): (r: seq<Bytes>)
    ensures |r| == |ps| && forall i | 0 <= i < |ps| :: r[i] == Canon(ps[i])
  {
    seq(|ps|, i requires 0 <= i < |ps| => Canon(ps[i]))
  }

  /** The binary search of keysBelow and the run after it bound the strings with the prefix. */
  method PrefixWindow(strs: seq<Bytes>, prefix: Bytes) returns (lo: nat, hi: nat)
    requires Sorted(strs)
    ensures lo <= hi <= |strs|
    ensures forall i | 0 <= i < |strs| :: StartsWith(strs[i], prefix) <==> lo <= i < hi
  {
    lo := SearchStrings(strs, prefix);
    hi := lo;
    while hi < |strs| && StartsWith(strs[hi], prefix)
      invariant lo <= hi <= |strs|
      invariant forall i | lo <= i < hi :: StartsWith(strs[i], prefix)
    {
      hi := hi + 1;
    }
    OutsideWindow(strs, prefix, lo, hi);
  }

  /** keysBelow on the parallel lists of strings and paths: the paths it finds below p that are not in
      skip, in order. */
  method KeysBelow(strs: seq<Bytes>, ps: seq<Path>, skip: set<Path>, p: Path) returns (keys: seq<Path>)
    requires Sorted(strs) && strs == Canons(ps) && p != []
    ensures keys == if p == [[]] then [] else Under(ps, skip, p)
  {
    var prefix := Canon(p) + [DOT];
    var lo, hi := PrefixWindow(strs, prefix);
    keys := Select(ps, lo, hi, NotIn(skip));
    if p == [[]] {
      assert lo == hi by { if lo < hi { NothingBelowEmpty(ps[lo]); } }
    } else {
      WindowIsSubtree(ps, skip, p, lo, hi);
    }
  }

  /** The paths of ps not in skip and strictly below p, in order. */
  function Under(ps: seq<Path>, skip: set<Path>, p: Path): seq<Path> {
    Keep(ps, BelowBut(p, skip))
  }

  function BelowBut(p: Path, skip: set<Path>): Path -> bool {
    q => Below(q, p) && q !in skip
  }

  function NotIn(skip: set<Path>): Path -> bool {
    q => q !in skip
  }

  /** The window of strings starting with p's own and a delimiter holds exactly the paths strictly
      below p. */
  lemma {:induction false} WindowIsSubtree(ps: seq<Path>, skip: set<Path>, p: Path, lo: nat, hi: nat)
    requires p != [] && p != [[]] && lo <= hi <= |ps|
    requires forall i | 0 <= i < |ps| :: StartsWith(Canons(ps)[i], Canon(p) + [DOT]) <==> lo <= i < hi
    ensures Keep(ps[lo..hi], NotIn(skip)) == Under(ps, skip, p)
  {
    forall i | 0 <= i < |ps| ensures Below(ps[i], p) <==> lo <= i < hi {
      if Below(ps[i], p) { BelowStarts(p, ps[i]); }
      if StartsWith(Canons(ps)[i], Canon(p) + [DOT]) { StartsBelow(p, ps[i]); }
    }
    KeepWindow(ps, BelowBut(p, skip), lo, hi);
    KeepSame(ps[lo..hi], NotIn(skip), BelowBut(p, skip));
  }

  lemma {:induction false} OutsideWindow(strs: seq<Bytes>, prefix: Bytes, lo: nat, hi: nat)
    requires Sorted(strs) && lo <= hi <= |strs|
    requires forall i | 0 <= i < lo :: Less(strs[i], prefix)
    requires forall i | lo <= i < |strs| :: !Less(strs[i], prefix)
    requires hi < |strs| ==> !StartsWith(strs[hi], prefix)
    ensures forall i | 0 <= i < |strs| && !(lo <= i < hi) :: !StartsWith(strs[i], prefix)
  {
    forall i | 0 <= i < lo ensures !StartsWith(strs[i], prefix) {
      if StartsWith(strs[i], prefix) {
        PrefixNotLess(strs[i], prefix);
        CompareFlip(strs[i], prefix);
      }
    }
    forall i | hi <= i < |strs| ensures !StartsWith(strs[i], prefix) {
      if i > hi && StartsWith(strs[i], prefix) {
        CompareFlip(strs[hi], prefix);
        PrefixConvex(prefix, strs[hi], strs[i]);
      }
    }
  }

  lemma {:induction false} UnderMember(ps: seq<Path>, skip: set<Path>, p: Path, q: Path)
    ensures q in Under(ps, skip, p) <==> q in ps && q !in skip && Below(q, p)
  {
    KeepMember(ps, BelowBut(p, skip), q);
  }

  // ---------------------------------------------------------------- the order on paths

  predicate Before(a: Path, b: Path) {
    Less(Canon(a), Canon(b))
  }

  predicate InOrder(ps: seq<Path>) {
    forall i, j | 0 <= i < j < |ps| :: Before(ps[i], ps[j])
  }

  lemma {:induction false} BeforeTotal(a: Path, b: Path)
    ensures a == b || Before(a, b) || Before(b, a)
    ensures Before(a, b) ==> a != b && !Before(b, a)
  {
    CompareFlip(Canon(a), Canon(b));
    CompareZero(Canon(a), Canon(b));
    if Canon(a) == Canon(b) { CanonInjective(a, b); }
  }

  lemma {:induction false} BeforeTrans(a: Path, b: Path, c: Path)
    requires Before(a, b) && Before(b, c)
    ensures Before(a, c)
  {
    LessTrans(Canon(a), Canon(b), Canon(c));
  }

  /** A path whose first segment is not empty comes before everything below it. */
  lemma {:induction false} ParentBefore(p: Path, q: Path)
    requires p != [] && p != [[]] && Below(q, p)
    ensures Before(p, q)
  {
    BelowStarts(p, q);
    var c := Canon(p);
    assert Canon(q) == c + Canon(q)[|c|..];
    assert c + [] == c;
    ComparePrefix(c, [], Canon(q)[|c|..]);
  }

  predicate IsLeast(m: Path, s: set<Path>) {
    m in s && forall x | x in s && x != m :: Before(m, x)
  }

  lemma {:induction false} LeastExists(s: set<Path>)
    requires s != {}
    ensures exists m :: IsLeast(m, s)
    decreases |s|
  {
    var m :| m in s;
    if s == {m} {
      assert IsLeast(m, s);
    } else {
      assert s == {m} + (s - {m});
      LeastExists(s - {m});
      var m' :| IsLeast(m', s - {m});
      BeforeTotal(m, m');
      if Before(m, m') {
        forall x | x in s && x != m ensures Before(m, x) {
          if x != m' { assert x in s - {m}; BeforeTrans(m, m', x); }
        }
        assert IsLeast(m, s);
      } else {
        assert IsLeast(m', s);
      }
    }
  }

  ghost function Least(s: set<Path>): (m: Path)
    requires s != {}
    ensures IsLeast(m, s)
  {
    LeastExists(s);
    var m :| IsLeast(m, s);
    m
  }

  /** The elements of s in order: what sorting any listing of s gives. */
  ghost function SortSet(s: set<Path>): (r: seq<Path>)
    ensures InOrder(r) && forall k :: k in r <==> k in s
    decreases |s|
  {
    if s == {} then []
    else
      var m, rest := Least(s), SortSet(s - {Least(s)});
      assert forall j | 0 <= j < |rest| :: rest[j] in s - {m} && Before(m, rest[j]);
      [m] + rest
  }

  /** A list in order is determined by its elements. */
  lemma {:induction false} InOrderUnique(a: seq<Path>, b: seq<Path>)
    requires InOrder(a) && InOrder(b) && forall k :: k in a <==> k in b
    ensures a == b
  {
    assert b != [] ==> b[0] in b;
    if a != [] {
      assert a[0] in b && (b != [] ==> b[0] in a);
      InOrderDistinct(a);
      InOrderDistinct(b);
      BeforeTotal(a[0], b[0]);
      forall k ensures k in a[1..] <==> k in b[1..] {
        assert k in a <==> k == a[0] || k in a[1..];
        assert k in b <==> k == b[0] || k in b[1..];
      }
      InOrderUnique(a[1..], b[1..]);
    }
  }

  lemma {:induction false} InOrderDistinct(a: seq<Path>)
    requires InOrder(a)
    ensures forall i, j | 0 <= i < j < |a| :: a[i] != a[j]
  {
    forall i, j | 0 <= i < j < |a| ensures a[i] != a[j] { BeforeTotal(a[i], a[j]); }
  }

  lemma {:induction false} KeepInOrder(ps: seq<Path>, f: Path -> bool)
    requires InOrder(ps)
    ensures InOrder(Keep(ps, f))
  {
    if ps != [] {
      var rest := Keep(ps[1..], f);
      KeepInOrder(ps[1..], f);
      forall j | 0 <= j < |rest| ensures Before(ps[0], rest[j]) {
        KeepMember(ps[1..], f, rest[j]);
        var m :| 0 <= m < |ps[1..]| && ps[1..][m] == rest[j];
      }
    }
  }
}
