/** The path language of path.go: the bracket-escaping printer and parser, the comparison that does
    not render, and the scan for segment boundaries. Go strings are byte strings, so a segment is an
    arbitrary sequence of bytes. */
module Paths {

  newtype Byte = i: int | 0 <= i < 256
  type Bytes = seq<Byte>
  type Path = seq<Bytes>

  const DOT: Byte := 46
  const LB: Byte := 91
  const RB: Byte := 93

  // ---------------------------------------------------------------- printing

  /** `strings.ReplaceAll(s, "]", "]]")`. */
  function Escape(s: Bytes): Bytes {
    if s == [] then [] else (if s[0] == RB then [RB, RB] else [s[0]]) + Escape(s[1..])
  }

  /** `strings.ReplaceAll(s, "]]", "]")`: leftmost, non-overlapping. */
  function Unescape(s: Bytes): Bytes {
    if s == [] then []
    else if |s| >= 2 && s[0] == RB && s[1] == RB then [RB] + Unescape(s[2..])
    else [s[0]] + Unescape(s[1..])
  }

  predicate NeedsBrackets(seg: Bytes) {
    DOT in seg || LB in seg
  }

  function Segment(seg: Bytes): Bytes {
    if NeedsBrackets(seg) then [LB] + Escape(seg) + [RB] else seg
  }

  function Join(p: Path): Bytes {
    if p == [] then []
    else if |p| == 1 then Segment(p[0])
    else Segment(p[0]) + [DOT] + Join(p[1..])
  }

  /** The canonical string of a path, the key of every map in the registry. */
  function Canon(p: Path): Bytes {
    if p == [[]] then [LB, RB] else Join(p)
  }

  // ---------------------------------------------------------------- scanning

  function Shift(offset: int, n: nat): int {
    if offset < 0 then -1 else offset + n
  }

  /** Offset in t of the "]" that closes a bracket whose content starts at t, or -1. */
  function CloseOffset(t: Bytes): (r: int)
    ensures -1 <= r < |t|
  {
    if t == [] then -1
    else if t[0] != RB then Shift(CloseOffset(t[1..]), 1)
    else if |t| >= 2 && t[1] == RB then Shift(CloseOffset(t[2..]), 2)
    else 0
  }

  /** The scanner of ParsePath on the remaining input t with the segment read so far in buf. */
  function Scan(t: Bytes, buf: Bytes): (p: Path)
    ensures |p| >= 1
    decreases |t|
  {
    if t == [] then [buf]
    else if t[0] == LB then
      var e := CloseOffset(t[1..]);
      if e < 0 then Scan(t[1..], buf + [LB]) else Scan(t[e + 2..], buf + Unescape(t[1..e + 1]))
    else if t[0] == DOT then [buf] + Scan(t[1..], [])
    else Scan(t[1..], buf + [t[0]])
  }

  function FirstDot(s: Bytes): (i: nat)
    requires DOT in s
    ensures i < |s| && s[i] == DOT && forall j | 0 <= j < i :: s[j] != DOT
  {
    if s[0] == DOT then 0 else 1 + FirstDot(s[1..])
  }

  /** `strings.Split(s, ".")`. */
  function Split(s: Bytes): (p: Path)
    ensures |p| >= 1
  {
    if DOT !in s then [s]
    else var i := FirstDot(s); [s[..i]] + Split(s[i + 1..])
  }

  function Parse(s: Bytes): Path {
    if s == [] then [] else if LB !in s then Split(s) else Scan(s, [])
  }

  /** Positions of the delimiters outside brackets in t, which starts at offset off. */
  function Delims(t: Bytes, off: nat): seq<nat>
    decreases |t|
  {
    if t == [] then []
    else if t[0] == LB then
      var e := CloseOffset(t[1..]);
      if e < 0 then Delims(t[1..], off + 1) else Delims(t[e + 2..], off + e + 2)
    else if t[0] == DOT then [off] + Delims(t[1..], off + 1)
    else Delims(t[1..], off + 1)
  }

  // ---------------------------------------------------------------- the source's loops

  method ClosingBracket(s: Bytes, from: nat) returns (end: int)
    requires from <= |s|
    ensures end == Shift(CloseOffset(s[from..]), from)
  {
    var j := from;
    while j < |s|
      invariant from <= j <= |s|
      invariant Shift(CloseOffset(s[from..]), from) == Shift(CloseOffset(s[j..]), j)
    {
      if s[j] != RB {
        assert s[j..][1..] == s[j + 1..];
        j := j + 1;
      } else if j + 1 < |s| && s[j + 1] == RB {
        assert s[j..][2..] == s[j + 2..];
        j := j + 2;
      } else {
        return j;
      }
    }
    end := -1;
  }

  method ParsePath(s: Bytes) returns (out: Path)
    ensures out == Parse(s)
  {
    if s == [] { return []; }
    if LB !in s { return Split(s); }
    var buf: Bytes := [];
    var i := 0;
    out := [];
    while i < |s|
      invariant 0 <= i <= |s|
      invariant out + Scan(s[i..], buf) == Scan(s, [])
    {
      var c := s[i];
      ScanAt(s, i, buf);
      if c == LB {
        var end := ClosingBracket(s, i + 1);
        if end < 0 {
          buf := buf + [c];
          i := i + 1;
          continue;
        }
        buf := buf + Unescape(s[i + 1..end]);
        i := end + 1;
      } else if c == DOT {
        MoveFirst(out, buf, Scan(s[i + 1..], []));
        out := out + [buf];
        buf := [];
        i := i + 1;
      } else {
        buf := buf + [c];
        i := i + 1;
      }
    }
    out := out + [buf];
  }

  method String(p: Path) returns (b: Bytes)
    ensures b == Canon(p)
  {
    if p == [] { return []; }
    if p == [[]] { return [LB, RB]; }
    if |p| == 1 && !NeedsBrackets(p[0]) { return p[0]; }
    b := [];
    for i := 0 to |p|
      invariant b == Join(p[..i])
    {
      JoinSnoc(p, i);
      if i > 0 { b := b + [DOT]; }
      if NeedsBrackets(p[i]) {
        b := b + [LB];
        b := b + Escape(p[i]);
        b := b + [RB];
      } else {
        b := b + p[i];
      }
    }
    assert p[..|p|] == p;
  }

  /** The inner loop of AppendCanonical: seg with every "]" doubled. */
  method AppendDoubled(b0: Bytes, seg: Bytes) returns (b: Bytes)
    ensures b == b0 + Escape(seg)
  {
    b := b0;
    for j := 0 to |seg|
      invariant b == b0 + Escape(seg[..j])
    {
      EscapeSnoc(seg, j);
      if seg[j] == RB { b := b + [RB]; }
      b := b + [seg[j]];
    }
    assert seg[..|seg|] == seg;
  }

  method AppendSegment(b0: Bytes, seg: Bytes) returns (b: Bytes)
    ensures b == b0 + Segment(seg)
  {
    if !NeedsBrackets(seg) { return b0 + seg; }
    b := b0 + [LB];
    b := AppendDoubled(b, seg);
    b := b + [RB];
  }

  method AppendCanonical(p: Path, b0: Bytes) returns (b: Bytes)
    ensures b == b0 + Canon(p)
  {
    b := b0;
    if p == [] { return; }
    if p == [[]] { b := b + [LB, RB]; return; }
    for i := 0 to |p|
      invariant b == b0 + Join(p[..i])
    {
      JoinSnoc(p, i);
      if i > 0 { b := b + [DOT]; }
      b := AppendSegment(b, p[i]);
    }
    assert p[..|p|] == p;
  }

  /** The positions handed to fn: all of them up to and including the first that it refuses. */
  function Until(ds: seq<nat>, fn: nat -> bool): seq<nat> {
    if ds == [] then [] else [ds[0]] + if fn(ds[0]) then Until(ds[1..], fn) else []
  }

  lemma {:induction false} UntilCons(ds: seq<nat>, i: nat, rest: seq<nat>, fn: nat -> bool)
    ensures ds + Until([i] + rest, fn) == (ds + [i]) + if fn(i) then Until(rest, fn) else []
  {
    assert ([i] + rest)[1..] == rest;
  }

  /** ds are the calls made to fn, in order; fn answering false stops the walk. */
  method TopLevelDelims(s: Bytes, fn: nat -> bool) returns (ds: seq<nat>)
    ensures ds == Until(Delims(s, 0), fn)
  {
    ds := [];
    var i := 0;
    while i < |s|
      invariant 0 <= i <= |s|
      invariant ds + Until(Delims(s[i..], i), fn) == Until(Delims(s, 0), fn)
    {
      DelimsAt(s, i);
      if s[i] == LB {
        var end := ClosingBracket(s, i + 1);
        if end >= 0 {
          i := end;
        }
      } else if s[i] == DOT {
        UntilCons(ds, i, Delims(s[i + 1..], i + 1), fn);
        ds := ds + [i];
        if !fn(i) { return; }
      }
      i := i + 1;
    }
  }

  lemma {:induction false} MoveFirst(out: Path, seg: Bytes, rest: Path)
    ensures out + ([seg] + rest) == (out + [seg]) + rest
  {}

  lemma {:induction false} ScanAt(s: Bytes, i: nat, buf: Bytes)
    requires i < |s|
    ensures Scan(s[i..], buf) ==
      if s[i] == LB then
        var end := Shift(CloseOffset(s[i + 1..]), i + 1);
        if end < 0 then Scan(s[i + 1..], buf + [LB]) else Scan(s[end + 1..], buf + Unescape(s[i + 1..end]))
      else if s[i] == DOT then [buf] + Scan(s[i + 1..], [])
      else Scan(s[i + 1..], buf + [s[i]])
  {
    var t := s[i..];
    assert t[1..] == s[i + 1..];
    var e := CloseOffset(t[1..]);
    if e >= 0 {
      assert t[e + 2..] == s[i + e + 2..];
      assert t[1..e + 1] == s[i + 1..i + e + 1];
    }
  }

  lemma {:induction false} DelimsAt(s: Bytes, i: nat)
    requires i < |s|
    ensures Delims(s[i..], i) ==
      if s[i] == LB then
        var end := Shift(CloseOffset(s[i + 1..]), i + 1);
        if end < 0 then Delims(s[i + 1..], i + 1) else Delims(s[end + 1..], end + 1)
      else if s[i] == DOT then [i] + Delims(s[i + 1..], i + 1)
      else Delims(s[i + 1..], i + 1)
  {}

  // ---------------------------------------------------------------- round trip

  lemma {:induction false} EscapeSnoc(s: Bytes, j: nat)
    requires j < |s|
    ensures Escape(s[..j + 1]) == Escape(s[..j]) + if s[j] == RB then [RB, RB] else [s[j]]
  {
    if j == 0 {
      assert s[..1] == [s[0]];
    } else {
      EscapeSnoc(s[1..], j - 1);
      assert s[..j + 1][1..] == s[1..][..j] && s[..j][1..] == s[1..][..j - 1];
    }
  }

  lemma {:induction false} UnescapeEscape(s: Bytes)
    ensures Unescape(Escape(s)) == s
  {
    if s != [] {
      UnescapeEscape(s[1..]);
      if s[0] == RB {
        assert Escape(s)[2..] == Escape(s[1..]);
      } else {
        assert Escape(s)[1..] == Escape(s[1..]);
      }
    }
  }

  lemma {:induction false} CloseEscaped(seg: Bytes, rest: Bytes)
    requires rest == [] || rest[0] != RB
    ensures CloseOffset(Escape(seg) + [RB] + rest) == |Escape(seg)|
  {
    var t := Escape(seg) + [RB] + rest;
    if seg != [] {
      CloseEscaped(seg[1..], rest);
      var n := if seg[0] == RB then 2 else 1;
      assert t[n..] == Escape(seg[1..]) + [RB] + rest;
    }
  }

  lemma {:induction false} ScanPlain(seg: Bytes, rest: Bytes, buf: Bytes)
    requires !NeedsBrackets(seg)
    ensures Scan(seg + rest, buf) == Scan(rest, buf + seg)
  {
    if seg == [] {
      assert seg + rest == rest && buf + seg == buf;
    } else {
      ScanPlain(seg[1..], rest, buf + [seg[0]]);
      assert (seg + rest)[1..] == seg[1..] + rest;
      assert buf + [seg[0]] + seg[1..] == buf + seg;
    }
  }

  lemma {:induction false} BracketParts(e: Bytes, rest: Bytes)
    ensures var t := [LB] + e + [RB] + rest;
      t[0] == LB && t[1..] == e + [RB] + rest && t[1..|e| + 1] == e && t[|e| + 2..] == rest
  {}

  lemma {:induction false} ScanBracket(e: Bytes, rest: Bytes)
    requires CloseOffset(e + [RB] + rest) == |e|
    ensures Scan([LB] + e + [RB] + rest, []) == Scan(rest, Unescape(e))
  {
    BracketParts(e, rest);
    assert [] + Unescape(e) == Unescape(e);
  }

  lemma {:induction false} ScanSegment(seg: Bytes, rest: Bytes)
    requires rest == [] || rest[0] == DOT
    ensures Scan(Segment(seg) + rest, []) == Scan(rest, seg)
  {
    if NeedsBrackets(seg) {
      ScanBracket(Escape(seg), rest) by { CloseEscaped(seg, rest); }
      UnescapeEscape(seg);
    } else {
      ScanPlain(seg, rest, []);
      assert [] + seg == seg;
    }
  }

  lemma {:induction false} ScanDelim(t: Bytes, buf: Bytes)
    ensures Scan([DOT] + t, buf) == [buf] + Scan(t, [])
  {}

  lemma {:induction false} JoinThen(p: Path, t: Bytes)
    requires p != []
    ensures Join(p) + [DOT] + t == Segment(p[0]) + ([DOT] + if |p| == 1 then t else Join(p[1..]) + [DOT] + t)
  {}

  lemma {:induction false} Reattach(p: Path, r: Path)
    requires p != []
    ensures [p[0]] + (p[1..] + r) == p + r
    ensures |p| == 1 ==> [p[0]] + r == p + r
  {}

  /** A rendered path is read back whole, whatever follows its delimiter. */
  lemma {:induction false} ScanJoinThen(p: Path, t: Bytes)
    requires p != []
    ensures Scan(Join(p) + [DOT] + t, []) == p + Scan(t, [])
  {
    var after := if |p| == 1 then t else Join(p[1..]) + [DOT] + t;
    JoinThen(p, t);
    ScanSegment(p[0], [DOT] + after);
    ScanDelim(after, p[0]);
    if |p| > 1 { ScanJoinThen(p[1..], t); }
    Reattach(p, Scan(t, []));
  }

  lemma {:induction false} ScanJoin(p: Path)
    requires p != []
    ensures Scan(Join(p), []) == p
  {
    var last := p[|p| - 1];
    ScanSegment(last, []);
    assert Segment(last) + [] == Segment(last);
    if |p| > 1 {
      var front := p[..|p| - 1];
      JoinConcat(front, [last]);
      assert front + [last] == p;
      ScanJoinThen(front, Segment(last));
    }
  }

  lemma {:induction false} JoinConcat(p: Path, r: Path)
    requires p != [] && r != []
    ensures Join(p + r) == Join(p) + [DOT] + Join(r)
  {
    if |p| == 1 {
      assert (p + r)[1..] == r;
    } else {
      JoinConcat(p[1..], r);
      assert (p + r)[1..] == p[1..] + r;
    }
  }

  lemma {:induction false} JoinSnoc(p: Path, i: nat)
    requires i < |p|
    ensures Join(p[..i + 1]) == Join(p[..i]) + (if i > 0 then [DOT] else []) + Segment(p[i])
  {
    if i == 0 {
      assert p[..1] == [p[0]];
    } else {
      JoinConcat(p[..i], [p[i]]);
      assert p[..i] + [p[i]] == p[..i + 1];
    }
  }

  lemma {:induction false} JoinEmpty(p: Path)
    ensures Join(p) == [] <==> p == [] || p == [[]]
  {}

  lemma {:induction false} HeadTail(p: Path)
    requires p != []
    ensures [[] + p[0]] + p[1..] == p
  {
    assert [] + p[0] == p[0];
  }

  /** ParsePath's split shortcut agrees with its scanner. */
  lemma {:induction false} SplitIsScan(s: Bytes, buf: Bytes)
    requires LB !in s
    ensures Scan(s, buf) == [buf + Split(s)[0]] + Split(s)[1..]
  {
    if DOT !in s {
      ScanPlain(s, [], buf);
      assert s + [] == s;
    } else {
      var i := FirstDot(s);
      ScanPlain(s[..i], s[i..], buf);
      assert s == s[..i] + s[i..] && s[i..][1..] == s[i + 1..];
      SplitIsScan(s[i + 1..], []);
      HeadTail(Split(s[i + 1..]));
    }
  }

  lemma {:induction false} FastParse(s: Bytes)
    requires s != []
    ensures Parse(s) == Scan(s, [])
  {
    if LB !in s {
      SplitIsScan(s, []);
      HeadTail(Split(s));
    }
  }

  /** ParsePath undoes Path.String on every path: empty segments, dots, brackets and runs of "]". */
  lemma {:induction false} RoundTrip(p: Path)
    ensures Parse(Canon(p)) == p
  {
    if p == [[]] {
      var t: Bytes := [LB, RB];
      assert t[1..] == [RB] && t[2..] == [] && t[1..1] == [];
      assert Unescape(t[1..1]) == [];
      assert Scan(t, []) == Scan(t[2..], [] + Unescape(t[1..1]));
      assert [] + Unescape(t[1..1]) == [];
    } else if p != [] {
      JoinEmpty(p);
      FastParse(Join(p));
      ScanJoin(p);
    }
  }

  lemma {:induction false} CanonInjective(p: Path, q: Path)
    requires Canon(p) == Canon(q)
    ensures p == q
  {
    RoundTrip(p);
    RoundTrip(q);
  }

  // ---------------------------------------------------------------- prefixes

  predicate Below(q: Path, p: Path) {
    |q| > |p| && q[..|p|] == p
  }

  /** Path.HasPrefix. */
  predicate HasPrefix(q: Path, p: Path) {
    |q| >= |p| && q[..|p|] == p
  }

  predicate StartsWith(s: Bytes, pre: Bytes) {
    |s| >= |pre| && s[..|pre|] == pre
  }

  lemma {:induction false} BelowStarts(p: Path, q: Path)
    requires p != [] && p != [[]] && Below(q, p)
    ensures StartsWith(Canon(q), Canon(p) + [DOT])
  {
    JoinConcat(p, q[|p|..]);
    assert p + q[|p|..] == q;
  }

  lemma {:induction false} StartsBelow(p: Path, q: Path)
    requires p != [] && p != [[]] && StartsWith(Canon(q), Canon(p) + [DOT])
    ensures Below(q, p)
  {
    var t := Canon(q)[|Canon(p)| + 1..];
    assert Canon(q) == Join(p) + [DOT] + t;
    assert DOT in Canon(q);
    ScanJoinThen(p, t);
    ScanJoin(q);
  }

  lemma {:induction false} EscapeHead(s: Bytes)
    requires s != []
    ensures Escape(s) != [] && (Escape(s)[0] == RB ==> |Escape(s)| >= 2 && Escape(s)[1] == RB)
  {}

  /** No canonical string starts with "[]." */
  lemma {:induction false} NothingBelowEmpty(q: Path)
    ensures !StartsWith(Canon(q), Canon([[]]) + [DOT])
  {
    var c := Canon(q);
    assert Canon([[]]) + [DOT] == [LB, RB, DOT];
    assert q != [] && q[0] != [] && !NeedsBrackets(q[0]) ==> c[0] == q[0][0];
    if q != [] && q != [[]] && |c| >= 3 && c[0] == LB && c[1] == RB {
      assert q[0] != [] && NeedsBrackets(q[0]);
      EscapeHead(q[0]);
      assert c[1] == Escape(q[0])[0];
      assert c[2] == Escape(q[0])[1];
    }
  }

  /** "Starts with p's string and a delimiter" means "lies strictly below p" for every path q, exactly
      when p is not the path of one empty segment (whose own string is "[]" but which prints as
      nothing in front of a longer path). */
  lemma {:induction false} StringPrefixIsPathPrefix(p: Path)
    requires p != []
    ensures (forall q: Path :: StartsWith(Canon(q), Canon(p) + [DOT]) <==> Below(q, p)) <==> p != [[]]
  {
    if p == [[]] {
      var q: Path := [[], []];
      assert Below(q, p);
      assert Canon(q) == [DOT];
    } else {
      forall q: Path
        ensures StartsWith(Canon(q), Canon(p) + [DOT]) <==> Below(q, p)
      {
        if Below(q, p) { BelowStarts(p, q); }
        if StartsWith(Canon(q), Canon(p) + [DOT]) { StartsBelow(p, q); }
      }
    }
  }

  // ---------------------------------------------------------------- segment boundaries

  lemma {:induction false} DelimsPlain(seg: Bytes, rest: Bytes, off: nat)
    requires !NeedsBrackets(seg)
    ensures Delims(seg + rest, off) == Delims(rest, off + |seg|)
  {
    if seg == [] {
      assert seg + rest == rest;
    } else {
      DelimsPlain(seg[1..], rest, off + 1);
      assert (seg + rest)[1..] == seg[1..] + rest;
    }
  }

  lemma {:induction false} DelimsSegment(seg: Bytes, rest: Bytes, off: nat)
    requires rest == [] || rest[0] == DOT
    ensures Delims(Segment(seg) + rest, off) == Delims(rest, off + |Segment(seg)|)
  {
    if NeedsBrackets(seg) {
      BracketParts(Escape(seg), rest);
      CloseEscaped(seg, rest);
    } else {
      DelimsPlain(seg, rest, off);
    }
  }

  lemma {:induction false} DelimsCons(p: Path, off: nat)
    requires |p| > 1
    ensures var e := off + |Segment(p[0])|; Delims(Join(p), off) == [e] + Delims(Join(p[1..]), e + 1)
  {
    var rest := [DOT] + Join(p[1..]);
    DelimsSegment(p[0], rest, off);
    assert Segment(p[0]) + rest == Join(p) && rest[1..] == Join(p[1..]);
  }

  lemma {:induction false} DelimsJoin(p: Path, off: nat)
    requires p != []
    ensures |Delims(Join(p), off)| == |p| - 1
    ensures forall k | 0 <= k < |p| - 1 :: Delims(Join(p), off)[k] == off + |Join(p[..k + 1])|
  {
    if |p| == 1 {
      DelimsSegment(p[0], [], off);
      assert Segment(p[0]) + [] == Segment(p[0]);
    } else {
      var e := off + |Segment(p[0])|;
      DelimsCons(p, off);
      DelimsJoin(p[1..], e + 1);
      forall k | 0 <= k < |p| - 1
        ensures |Join(p[..k + 1])| == if k == 0 then |Segment(p[0])| else |Segment(p[0])| + 1 + |Join(p[1..][..k])|
      {
        assert p[..k + 1][1..] == p[1..][..k];
      }
    }
  }

  /** topLevelDelims on a canonical string: one position per inner segment boundary, where the string
      splits into the forms of the two halves of the path. */
  lemma {:induction false} DelimsAreBoundaries(q: Path)
    ensures var ds := Delims(Canon(q), 0);
      && |ds| == (if q == [] then 0 else |q| - 1)
      && forall k | 0 <= k < |ds| ::
           && ds[k] < |Canon(q)|
           && Canon(q)[..ds[k]] == Join(q[..k + 1])
           && Canon(q)[ds[k] + 1..] == Join(q[k + 1..])
  {
    if q == [[]] {
      assert Canon(q)[1..][0] == RB && Canon(q)[2..] == [];
    } else if q != [] {
      DelimsJoin(q, 0);
      forall k | 0 <= k < |q| - 1
        ensures var d := Delims(Canon(q), 0)[k];
          d < |Canon(q)| && Canon(q)[..d] == Join(q[..k + 1]) && Canon(q)[d + 1..] == Join(q[k + 1..])
      {
        JoinConcat(q[..k + 1], q[k + 1..]);
        assert q[..k + 1] + q[k + 1..] == q;
      }
    }
  }
}
