/** The form of canonical strings: which segments are written plainly and which in brackets, and what the
    parser makes of strings that are not canonical (path.go). */
module PathForms {
  import opened Paths

  /** The segments with a dot between each two, nothing else added. */
  function Dotted(p: Path): Bytes {
    if p == [] then [] else if |p| == 1 then p[0] else p[0] + [DOT] + Dotted(p[1..])
  }

  predicate Plain(seg: Bytes) {
    DOT !in seg && LB !in seg
  }

  /** A path without dots and opening brackets in its segments prints as those segments and the dots between
      them; only the single empty segment needs the brackets that tell it from the root. */
  lemma {:induction false} PlainPrintsDotted(p: Path)
    requires forall i | 0 <= i < |p| :: Plain(p[i])
    ensures Canon(p) == if p == [[]] then [LB, RB] else Dotted(p)
  {
    PlainJoins(p);
  }

  lemma {:induction false} PlainJoins(p: Path)
    requires forall i | 0 <= i < |p| :: Plain(p[i])
    ensures Join(p) == Dotted(p)
  {
    if |p| > 1 { PlainJoins(p[1..]); }
  }

  /** e is seg with every closing bracket written twice. */
  predicate Doubled(seg: Bytes, e: Bytes) {
    if seg == [] then e == []
    else if seg[0] == RB then |e| >= 2 && e[0] == RB && e[1] == RB && Doubled(seg[1..], e[2..])
    else e != [] && e[0] == seg[0] && Doubled(seg[1..], e[1..])
  }

  lemma {:induction false} EscapeDoubles(seg: Bytes)
    ensures Doubled(seg, Escape(seg))
  {
    if seg != [] {
      EscapeDoubles(seg[1..]);
      assert Escape(seg)[if seg[0] == RB then 2 else 1..] == Escape(seg[1..]);
    }
  }

  /** Any other segment prints between brackets, with its closing brackets doubled. */
  lemma {:induction false} OtherPrintsBracketed(seg: Bytes) returns (e: Bytes)
    requires !Plain(seg)
    ensures Canon([seg]) == [LB] + e + [RB] && Doubled(seg, e)
  {
    e := Escape(seg);
    EscapeDoubles(seg);
  }

  /** A longer path prints as the forms of its parts with a dot between them. */
  lemma {:induction false} PartsPrintApart(a: Path, b: Path)
    requires a != [] && b != [] && a != [[]] && b != [[]]
    ensures Canon(a + b) == Canon(a) + [DOT] + Canon(b)
  {
    JoinConcat(a, b);
    assert a + b != [[]] by { assert |a + b| > 1; }
  }

  /** A string without opening brackets is cut at its dots: the segments have none, and with the dots put back
      they are the string. */
  lemma {:induction false} PlainParsesAtDots(s: Bytes)
    requires s != [] && LB !in s
    ensures Dotted(Parse(s)) == s && forall i | 0 <= i < |Parse(s)| :: DOT !in Parse(s)[i]
  {
    SplitAtDots(s);
  }

  lemma {:induction false} SplitAtDots(s: Bytes)
    ensures Dotted(Split(s)) == s && forall i | 0 <= i < |Split(s)| :: DOT !in Split(s)[i]
  {
    if DOT in s {
      var i := FirstDot(s);
      SplitAtDots(s[i + 1..]);
      assert Split(s)[1..] == Split(s[i + 1..]);
      assert s == s[..i] + [DOT] + s[i + 1..];
    }
  }

  /** An opening bracket that is never closed stands for itself: up to the next dot it belongs to the segment
      it is in. */
  lemma {:induction false} OpenBracketIsLiteral(before: Bytes, after: Bytes)
    requires Plain(before) && Plain(after) && RB !in after
    ensures Parse(before + [LB] + after) == [before + [LB] + after]
  {
    var s := before + [LB] + after;
    FastParse(s);
    assert s == before + ([LB] + after);
    ScanPlain(before, [LB] + after, []);
    NeverCloses(after);
    assert ([LB] + after)[1..] == after && [] + before == before;
    ScanPlain(after, [], before + [LB]);
    assert after + [] == after;
  }

  lemma {:induction false} NeverCloses(t: Bytes)
    requires RB !in t
    ensures CloseOffset(t) == -1
  {
    if t != [] { NeverCloses(t[1..]); }
  }
}
