/** Order-preserving selection from a list. */
module Lists {

  predicate NoRepeats<T(==)>(xs: seq<T>) {
    forall i, j | 0 <= i < j < |xs| :: xs[i] != xs[j]
  }

  /** xs lists exactly the elements of s, once each. */
  ghost predicate Orders<T(!new)>(xs: seq<T>, s: set<T>) {
    NoRepeats(xs) && forall x :: x in xs <==> x in s
  }

  function Keep<T>(xs: seq<T>, f: T -> bool): seq<T> {
    if xs == [] then [] else (if f(xs[0]) then [xs[0]] else []) + Keep(xs[1..], f)
  }

  lemma {:induction false} Assoc<T>(a: seq<T>, b: seq<T>, c: seq<T>)
    ensures a + (b + c) == (a + b) + c
  {}

  lemma {:induction false} KeepConcat<T>(a: seq<T>, b: seq<T>, f: T -> bool)
    ensures Keep(a + b, f) == Keep(a, f) + Keep(b, f)
  {
    if a == [] {
      assert a + b == b;
    } else {
      var h := if f(a[0]) then [a[0]] else [];
      assert (a + b)[1..] == a[1..] + b && (a + b)[0] == a[0];
      KeepConcat(a[1..], b, f);
      Assoc(h, Keep(a[1..], f), Keep(b, f));
    }
  }

  lemma {:induction false} KeepSnoc<T>(xs: seq<T>, i: nat, f: T -> bool)
    requires i < |xs|
    ensures Keep(xs[..i + 1], f) == Keep(xs[..i], f) + if f(xs[i]) then [xs[i]] else []
  {
    KeepConcat(xs[..i], [xs[i]], f);
    assert xs[..i + 1] == xs[..i] + [xs[i]];
  }

  lemma {:induction false} KeepOne<T>(x: T, f: T -> bool)
    ensures Keep([x], f) == if f(x) then [x] else []
  {}

  lemma {:induction false} KeepNone<T>(xs: seq<T>, f: T -> bool)
    requires forall i | 0 <= i < |xs| :: !f(xs[i])
    ensures Keep(xs, f) == []
  {
    if xs != [] { KeepNone(xs[1..], f); }
  }

  lemma {:induction false} KeepAll<T>(xs: seq<T>, f: T -> bool)
    requires forall i | 0 <= i < |xs| :: f(xs[i])
    ensures Keep(xs, f) == xs
  {
    if xs != [] { KeepAll(xs[1..], f); }
  }

  lemma {:induction false} KeepSame<T>(xs: seq<T>, f: T -> bool, g: T -> bool)
    requires forall i | 0 <= i < |xs| :: f(xs[i]) == g(xs[i])
    ensures Keep(xs, f) == Keep(xs, g)
  {
    if xs != [] { KeepSame(xs[1..], f, g); }
  }

  lemma {:induction false} KeepMember<T>(xs: seq<T>, f: T -> bool, x: T)
    ensures x in Keep(xs, f) <==> x in xs && f(x)
  {
    if xs != [] { KeepMember(xs[1..], f, x); }
  }

  lemma {:induction false} KeepKeep<T>(xs: seq<T>, f: T -> bool, g: T -> bool, h: T -> bool)
    requires forall i | 0 <= i < |xs| :: h(xs[i]) == (f(xs[i]) && g(xs[i]))
    ensures Keep(Keep(xs, f), g) == Keep(xs, h)
  {
    if xs != [] {
      KeepKeep(xs[1..], f, g, h);
      if f(xs[0]) { assert Keep(xs, f)[1..] == Keep(xs[1..], f); } else { assert Keep(xs, f) == Keep(xs[1..], f); }
    }
  }

  /** What is kept stands in the order it stood in. */
  lemma {:induction false} KeepOrder<T>(xs: seq<T>, f: T -> bool, x: nat, y: nat, i: nat, j: nat)
    requires NoRepeats(xs) && x < y < |xs| && i < |Keep(xs, f)| && j < |Keep(xs, f)|
    requires Keep(xs, f)[i] == xs[x] && Keep(xs, f)[j] == xs[y]
    ensures i < j
  {
    var rest := Keep(xs[1..], f);
    forall k | 0 <= k < |rest| ensures rest[k] != xs[0] {
      KeepMember(xs[1..], f, rest[k]);
      assert rest[k] in rest;
    }
    var d := if f(xs[0]) then 1 else 0;
    assert Keep(xs, f)[d..] == rest;
    if x > 0 { KeepOrder(xs[1..], f, x - 1, y - 1, i - d, j - d); }
  }

  /** Keeping is enough when nothing outside the window xs[lo..hi] qualifies. */
  lemma {:induction false} KeepWindow<T>(xs: seq<T>, f: T -> bool, lo: nat, hi: nat)
    requires lo <= hi <= |xs|
    requires forall i | 0 <= i < |xs| && !(lo <= i < hi) :: !f(xs[i])
    ensures Keep(xs, f) == Keep(xs[lo..hi], f)
  {
    KeepNone(xs[..lo], f);
    KeepNone(xs[hi..], f);
    KeepConcat(xs[..lo], xs[lo..hi], f);
    KeepConcat(xs[..lo] + xs[lo..hi], xs[hi..], f);
    assert xs == xs[..lo] + xs[lo..hi] + xs[hi..];
  }

  lemma {:induction false} KeepNext<T>(xs: seq<T>, lo: nat, i: nat, f: T -> bool)
    requires lo <= i < |xs|
    ensures Keep(xs[lo..i + 1], f) == Keep(xs[lo..i], f) + if f(xs[i]) then [xs[i]] else []
  {
    assert xs[lo..i + 1] == xs[lo..i] + [xs[i]];
    KeepConcat(xs[lo..i], [xs[i]], f);
    KeepOne(xs[i], f);
  }

  method Select<T>(xs: seq<T>, lo: nat, hi: nat, f: T -> bool) returns (out: seq<T>)
    requires lo <= hi <= |xs|
    ensures out == Keep(xs[lo..hi], f)
  {
    out := [];
    for i := lo to hi
      invariant out == Keep(xs[lo..i], f)
    {
      KeepNext(xs, lo, i, f);
      if f(xs[i]) { out := out + [xs[i]]; }
    }
  }
}
