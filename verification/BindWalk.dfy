/** The bind walk over struct types (bind_walker.go). Struct types may refer to each other in cycles
    through pointers; the walk stops because the data does. */
module BindWalk {
  import opened Paths
  import opened KeyCuts
  import opened Values
  import opened Snapshots
  import opened Views
  import opened Lists

  type TypeId = nat

  /** The plan of one exported field: a leaf bound at its own path (or an absolute one) with its alias
      paths, or a struct, possibly behind a pointer, whose fields bind under the prefix plus segs. An
      inlined struct has no segs. */
  datatype Field =
    | Leaf(segs: Path, abs: Option<Path>, aliases: seq<Path>)
    | Nest(target: TypeId, pointer: bool, segs: Path, omitEmpty: bool)

  type Schema = map<TypeId, seq<Field>>

  /** Every struct a type mentions is described, and containment by value (unlike by pointer) goes down
      in rank: a struct cannot contain itself. */
  ghost predicate WellTyped(schema: Schema, rank: TypeId -> nat) {
    forall t, i | t in schema && 0 <= i < |schema[t]| && schema[t][i].Nest? ::
      schema[t][i].target in schema && (schema[t][i].pointer || rank(schema[t][i].target) < rank(t))
  }

  /** lookup of p in the snapshot finds something. */
  ghost predicate Answers(snap: Snapshot, p: Path) {
    CodeRead(snap, p, ReadGet).Some?
  }

  /** No path longer than depth finds anything. */
  ghost predicate Bounded(answers: Path -> bool, depth: nat) {
    forall p | answers(p) :: |p| <= depth
  }

  /** What the walk knows: the types, what the fixed snapshot answers, and the two measures that make the
      walk stop. */
  datatype World = World(schema: Schema, answers: Path -> bool, depth: nat, rank: TypeId -> nat)

  ghost predicate Sound(w: World) {
    WellTyped(w.schema, w.rank) && Bounded(w.answers, w.depth)
  }

  function LeafPath(f: Field, prefix: Path): Path
    requires f.Leaf?
  {
    if f.abs.Some? then f.abs.value else prefix + f.segs
  }

  /** A pointer to a type already being walked is followed only where data exists below its own path. */
  ghost predicate Stops(w: World, stack: seq<TypeId>, f: Field, prefix: Path)
    requires f.Nest?
  {
    f.pointer && f.target in stack && (f.segs == [] || !w.answers(prefix + f.segs))
  }

  ghost predicate MayStayNil(w: World, f: Field, prefix: Path)
    requires f.Nest?
  {
    f.pointer && f.omitEmpty && !w.answers(prefix + f.segs)
  }

  function DepthLeft(depth: nat, prefix: Path): nat {
    if |prefix| >= depth then 0 else depth - |prefix|
  }

  function Free(w: World, stack: seq<TypeId>): set<TypeId> {
    set t | t in w.schema && t !in stack
  }

  // ---------------------------------------------------------------- the paths a walk may consult

  /** The leaf paths under t, in the order the walks meet them. full is what collectPaths goes through;
      without it a pointer that may stay nil, being tagged so and having no data, is passed over. */
  ghost function VisitType(w: World, full: bool, t: TypeId, prefix: Path, stack: seq<TypeId>): seq<Path>
    requires Sound(w) && t in w.schema
    decreases DepthLeft(w.depth, prefix), |Free(w, stack + [t])|, w.rank(t), 1, 0
  {
    VisitFields(w, full, t, prefix, stack + [t], 0)
  }

  ghost function VisitFields(w: World, full: bool, t: TypeId, prefix: Path, stack: seq<TypeId>, i: nat): seq<Path>
    requires Sound(w) && t in w.schema && i <= |w.schema[t]|
    decreases DepthLeft(w.depth, prefix), |Free(w, stack)|, w.rank(t), 0, |w.schema[t]| - i
  {
    if i == |w.schema[t]| then []
    else VisitField(w, full, t, prefix, stack, i) + VisitFields(w, full, t, prefix, stack, i + 1)
  }

  ghost function VisitField(w: World, full: bool, t: TypeId, prefix: Path, stack: seq<TypeId>, i: nat): seq<Path>
    requires Sound(w) && t in w.schema && i < |w.schema[t]|
    decreases DepthLeft(w.depth, prefix), |Free(w, stack)|, w.rank(t), 0, |w.schema[t]| - i - 1
  {
    var f := w.schema[t][i];
    if f.Leaf? then [LeafPath(f, prefix)] + f.aliases
    else if Stops(w, stack, f, prefix) || (!full && MayStayNil(w, f, prefix)) then []
    else
      Shrinks(w, t, i, prefix, stack);
      VisitType(w, full, f.target, prefix + f.segs, stack)
  }

  /** Why the walk ends: descending into a field that does not stop it either uses up data depth, puts a
      type on the stack that was not there, or follows containment by value. */
  lemma {:induction false} Shrinks(w: World, t: TypeId, i: nat, prefix: Path, stack: seq<TypeId>)
    requires Sound(w) && t in w.schema && i < |w.schema[t]|
    requires var f := w.schema[t][i]; f.Nest? && !Stops(w, stack, f, prefix)
    ensures var f := w.schema[t][i];
      var d, d' := DepthLeft(w.depth, prefix), DepthLeft(w.depth, prefix + f.segs);
      var n, n' := |Free(w, stack)|, |Free(w, stack + [f.target])|;
      f.target in w.schema && (d' < d || (d' == d && (n' < n || (n' == n && w.rank(f.target) < w.rank(t)))))
  {
    var f := w.schema[t][i];
    FreeShrinks(w, stack, f.target);
    if f.pointer && f.target in stack {
      assert w.answers(prefix + f.segs);
    }
  }

  lemma {:induction false} FreeShrinks(w: World, stack: seq<TypeId>, t: TypeId)
    requires t in w.schema
    ensures |Free(w, stack + [t])| <= |Free(w, stack)|
    ensures t !in stack ==> |Free(w, stack + [t])| < |Free(w, stack)|
  {
    var a, b := Free(w, stack), Free(w, stack + [t]);
    assert b == a - {t};
  }

  // ---------------------------------------------------------------- routes

  /** route picks one field after another, from t on and with their segs added to prefix, and ends at a leaf
      that consults p. met are the types before t. A pointer on it to a type met, or to t itself, has segs and
      an answer at its path; and unless full, so has one that is tagged so that it may stay nil. */
  ghost predicate Leads(schema: Schema, answers: Path -> bool, full: bool, t: TypeId, prefix: Path,
                        met: seq<TypeId>, route: seq<nat>, p: Path)
    decreases |route|
  {
    && route != [] && t in schema && route[0] < |schema[t]|
    && match schema[t][route[0]]
       case Leaf(segs, abs, aliases) =>
         |route| == 1 && (p in aliases || p == if abs.Some? then abs.value else prefix + segs)
       case Nest(target, pointer, segs, omitEmpty) =>
         && (pointer && target in met + [t] ==> segs != [] && answers(prefix + segs))
         && (pointer && omitEmpty && !full ==> answers(prefix + segs))
         && Leads(schema, answers, full, target, prefix + segs, met + [t], route[1..], p)
  }

  /** Some route from t, after the types met, consults p. */
  ghost predicate Reached(schema: Schema, answers: Path -> bool, full: bool, t: TypeId, prefix: Path,
                          met: seq<TypeId>, p: Path)
  {
    exists route :: Leads(schema, answers, full, t, prefix, met, route, p)
  }

  lemma {:induction false} FieldAmong(w: World, full: bool, t: TypeId, prefix: Path, stack: seq<TypeId>,
                                      i: nat, j: nat, p: Path)
    requires Sound(w) && t in w.schema && i <= j < |w.schema[t]| && p in VisitField(w, full, t, prefix, stack, j)
    ensures p in VisitFields(w, full, t, prefix, stack, i)
    decreases j - i
  {
    if i < j { FieldAmong(w, full, t, prefix, stack, i + 1, j, p); }
  }

  lemma {:induction false} PickField(w: World, full: bool, t: TypeId, prefix: Path, stack: seq<TypeId>,
                                     i: nat, p: Path)
    returns (j: nat)
    requires Sound(w) && t in w.schema && i <= |w.schema[t]| && p in VisitFields(w, full, t, prefix, stack, i)
    ensures j < |w.schema[t]| && p in VisitField(w, full, t, prefix, stack, j)
    decreases |w.schema[t]| - i
  {
    if p in VisitField(w, full, t, prefix, stack, i) { j := i; }
    else { j := PickField(w, full, t, prefix, stack, i + 1, p); }
  }

  /** Whatever the walk goes through lies at the end of a route. */
  lemma {:induction false} VisitedIsLedTo(w: World, full: bool, t: TypeId, prefix: Path, stack: seq<TypeId>, p: Path)
    returns (route: seq<nat>)
    requires Sound(w) && t in w.schema && p in VisitType(w, full, t, prefix, stack)
    ensures Leads(w.schema, w.answers, full, t, prefix, stack, route, p)
    decreases DepthLeft(w.depth, prefix), |Free(w, stack + [t])|, w.rank(t)
  {
    var i := PickField(w, full, t, prefix, stack + [t], 0, p);
    var f := w.schema[t][i];
    route := [i];
    if f.Nest? {
      Shrinks(w, t, i, prefix, stack + [t]);
      var rest := VisitedIsLedTo(w, full, f.target, prefix + f.segs, stack + [t], p);
      route := [i] + rest;
      assert route[1..] == rest;
    }
  }

  /** And the end of every route is gone through. */
  lemma {:induction false} LedToIsVisited(w: World, full: bool, t: TypeId, prefix: Path, stack: seq<TypeId>,
                                          route: seq<nat>, p: Path)
    requires Sound(w) && Leads(w.schema, w.answers, full, t, prefix, stack, route, p)
    ensures p in VisitType(w, full, t, prefix, stack)
    decreases |route|
  {
    var i := route[0];
    var f := w.schema[t][i];
    if f.Nest? { LedToIsVisited(w, full, f.target, prefix + f.segs, stack + [t], route[1..], p); }
    assert p in VisitField(w, full, t, prefix, stack + [t], i);
    FieldAmong(w, full, t, prefix, stack + [t], 0, i, p);
  }

  /** The walk goes through exactly the paths at the ends of the routes from t. */
  lemma {:induction false} VisitedIffReached(w: World, full: bool, t: TypeId, prefix: Path, stack: seq<TypeId>,
                                             p: Path)
    requires Sound(w) && t in w.schema
    ensures p in VisitType(w, full, t, prefix, stack) <==> Reached(w.schema, w.answers, full, t, prefix, stack, p)
  {
    if p in VisitType(w, full, t, prefix, stack) { var route := VisitedIsLedTo(w, full, t, prefix, stack, p); }
    if route :| Leads(w.schema, w.answers, full, t, prefix, stack, route, p) {
      LedToIsVisited(w, full, t, prefix, stack, route, p);
    }
  }

  // ---------------------------------------------------------------- the walks

  ghost function Unanswered(answers: Path -> bool, ps: seq<Path>): seq<Path> {
    Keep(ps, Silent(answers))
  }

  /** Going through visited has added the paths of it that nothing answers. */
  ghost predicate Gathered(answers: Path -> bool, before: seq<Path>, after: seq<Path>, visited: seq<Path>) {
    after == before + Unanswered(answers, visited)
  }

  lemma {:induction false} GatheredBoth(answers: Path -> bool, a: seq<Path>, b: seq<Path>, c: seq<Path>,
                                        here: seq<Path>, later: seq<Path>)
    requires Gathered(answers, a, b, here) && Gathered(answers, b, c, later)
    ensures Gathered(answers, a, c, here + later)
  {
    KeepConcat(here, later, Silent(answers));
    Assoc(a, Unanswered(answers, here), Unanswered(answers, later));
  }

  ghost function Silent(answers: Path -> bool): Path -> bool {
    p => !answers(p)
  }

  /** A walk adds only paths of all and, unless an error cut it short, every path of least. */
  ghost predicate Between(before: set<Path>, after: set<Path>, least: seq<Path>, all: seq<Path>, done: bool) {
    && before <= after && (forall p | p in after :: p in before || p in all)
    && (done ==> forall p | p in least :: p in after)
  }

  /** What was added to before are the unanswered ends of the routes from t. */
  ghost predicate CollectsRoutes(w: World, t: TypeId, prefix: Path, met: seq<TypeId>, before: seq<Path>,
                                 after: seq<Path>)
  {
    && before <= after
    && forall p :: p in after[|before|..] <==> Reached(w.schema, w.answers, true, t, prefix, met, p) && !w.answers(p)
  }

  /** What was added to before are ends of routes from t; done says that none is missing on which no pointer
      may stay nil. */
  ghost predicate WalksRoutes(w: World, t: TypeId, prefix: Path, met: seq<TypeId>, before: set<Path>,
                              after: set<Path>, done: bool)
  {
    && before <= after
    && (forall p | p in after :: p in before || Reached(w.schema, w.answers, true, t, prefix, met, p))
    && (done ==> forall p | Reached(w.schema, w.answers, false, t, prefix, met, p) :: p in after)
  }

  lemma {:induction false} RoutesCollected(w: World, t: TypeId, prefix: Path, met: seq<TypeId>, before: seq<Path>,
                                           after: seq<Path>)
    requires Sound(w) && t in w.schema && Gathered(w.answers, before, after, VisitType(w, true, t, prefix, met))
    ensures CollectsRoutes(w, t, prefix, met, before, after)
  {
    var visited := VisitType(w, true, t, prefix, met);
    assert after[|before|..] == Unanswered(w.answers, visited);
    forall p
      ensures p in after[|before|..] <==> Reached(w.schema, w.answers, true, t, prefix, met, p) && !w.answers(p)
    {
      VisitedIffReached(w, true, t, prefix, met, p);
      KeepMember(visited, Silent(w.answers), p);
    }
  }

  lemma {:induction false} RoutesWalked(w: World, t: TypeId, prefix: Path, met: seq<TypeId>, before: set<Path>,
                                        after: set<Path>, done: bool)
    requires Sound(w) && t in w.schema
    requires Between(before, after, VisitType(w, false, t, prefix, met), VisitType(w, true, t, prefix, met), done)
    ensures WalksRoutes(w, t, prefix, met, before, after, done)
  {
    forall p | p in after ensures p in before || Reached(w.schema, w.answers, true, t, prefix, met, p) {
      VisitedIffReached(w, true, t, prefix, met, p);
    }
    forall p | done && Reached(w.schema, w.answers, false, t, prefix, met, p) ensures p in after {
      VisitedIffReached(w, false, t, prefix, met, p);
    }
  }

  /** answers is what the snapshot answers. Stated so that it is applied only to paths that are Probed. */
  ghost predicate Reflects(answers: Path -> bool, snap: Snapshot) {
    forall p {:trigger Probed(p)} :: answers(p) == Answers(snap, p)
  }

  predicate Probed(p: Path) {
    true
  }

  class BindWalker {
    const schema: Schema
    const snap: Snapshot
    ghost const answers: Path -> bool
    ghost const depth: nat
    ghost const rank: TypeId -> nat
    var stack: seq<TypeId>
    var missing: seq<Path>
    var consulted: set<Path>

    constructor (schema: Schema, snap: Snapshot, ghost answers: Path -> bool, ghost depth: nat,
                 ghost rank: TypeId -> nat)
      requires Sound(World(schema, answers, depth, rank)) && Listed(snap) && Reflects(answers, snap)
      ensures Ready() && W() == World(schema, answers, depth, rank)
      ensures stack == [] && missing == [] && consulted == {}
    {
      this.schema, this.snap, this.answers, this.depth, this.rank := schema, snap, answers, depth, rank;
      stack, missing, consulted := [], [], {};
    }

    ghost function W(): World {
      World(schema, answers, depth, rank)
    }

    ghost predicate Ready() {
      Sound(W()) && Listed(snap) && Reflects(answers, snap)
    }

    method HasKeysUnder(p: Path) returns (has: bool)
      requires Ready()
      ensures has <==> answers(p)
    {
      var r := Read(snap, p, ReadGet);
      has := r.Some?;
      assert Probed(p);
    }

    /** The test both walks make before following a struct field. */
    method StopsAt(f: Field, prefix: Path) returns (stops: bool)
      requires Ready() && f.Nest?
      ensures stops <==> Stops(W(), stack, f, prefix)
    {
      if !f.pointer || f.target !in stack { return false; }
      if f.segs == [] { return true; }
      var has := HasKeysUnder(prefix + f.segs);
      stops := !has;
    }

    method Collect(p: Path)
      requires Ready()
      modifies this`missing
      ensures Gathered(answers, old(missing), missing, [p])
    {
      var has := HasKeysUnder(p);
      KeepOne(p, Silent(answers));
      if !has { missing := missing + [p]; }
    }

    method CollectLeaf(f: Field, prefix: Path)
      requires Ready() && f.Leaf?
      modifies this`missing
      ensures Gathered(answers, old(missing), missing, [LeafPath(f, prefix)] + f.aliases)
    {
      var ps := [LeafPath(f, prefix)] + f.aliases;
      for i := 0 to |ps|
        invariant Gathered(answers, old(missing), missing, ps[..i])
      {
        assert ps[..i + 1] == ps[..i] + [ps[i]];
        ghost var before := missing;
        Collect(ps[i]);
        GatheredBoth(answers, old(missing), before, missing, ps[..i], [ps[i]]);
      }
      assert ps[..|ps|] == ps;
    }

    /** collectPaths: gathers, in order, exactly the unanswered paths at the ends of the routes from t. */
    method CollectPaths(t: TypeId, prefix: Path)
      requires Ready() && t in schema
      modifies this`stack, this`missing
      ensures stack == old(stack)
      ensures Gathered(answers, old(missing), missing, VisitType(W(), true, t, prefix, old(stack)))
      ensures CollectsRoutes(W(), t, prefix, old(stack), old(missing), missing)
      decreases DepthLeft(depth, prefix), |Free(W(), stack + [t])|, rank(t), 1, 0
    {
      var outer := stack;
      stack := stack + [t];
      CollectFields(t, prefix, 0);
      stack := outer;
      RoutesCollected(W(), t, prefix, stack, old(missing), missing);
    }

    method CollectFields(t: TypeId, prefix: Path, i: nat)
      requires Ready() && t in schema && i <= |schema[t]|
      modifies this`stack, this`missing
      ensures stack == old(stack)
      ensures Gathered(answers, old(missing), missing, VisitFields(W(), true, t, prefix, old(stack), i))
      decreases DepthLeft(depth, prefix), |Free(W(), stack)|, rank(t), 0, |schema[t]| - i
    {
      if i == |schema[t]| { return; }
      ghost var first := missing;
      CollectField(t, prefix, i);
      ghost var second := missing;
      CollectFields(t, prefix, i + 1);
      GatheredBoth(answers, first, second, missing, VisitField(W(), true, t, prefix, stack, i),
                   VisitFields(W(), true, t, prefix, stack, i + 1));
    }

    method CollectField(t: TypeId, prefix: Path, i: nat)
      requires Ready() && t in schema && i < |schema[t]|
      modifies this`stack, this`missing
      ensures stack == old(stack)
      ensures Gathered(answers, old(missing), missing, VisitField(W(), true, t, prefix, old(stack), i))
      decreases DepthLeft(depth, prefix), |Free(W(), stack)|, rank(t), 0, |schema[t]| - i - 1
    {
      var f := schema[t][i];
      if f.Leaf? {
        CollectLeaf(f, prefix);
      } else {
        var stops := StopsAt(f, prefix);
        if stops { return; }
        Shrinks(W(), t, i, prefix, stack);
        CollectPaths(f.target, prefix + f.segs);
      }
    }

    /** walk: binds the fields of t. Which pointers are nil and where an error cuts the walk short (done
        is false then) is up to the target and the values, so both are left open. It consults only ends of
        routes from t and, unless cut short, every end of a route on which no pointer may stay nil. */
    method Walk(t: TypeId, prefix: Path) returns (done: bool)
      requires Ready() && t in schema
      modifies this`stack, this`consulted
      ensures stack == old(stack)
      ensures Between(old(consulted), consulted, VisitType(W(), false, t, prefix, old(stack)),
                      VisitType(W(), true, t, prefix, old(stack)), done)
      ensures WalksRoutes(W(), t, prefix, old(stack), old(consulted), consulted, done)
      decreases DepthLeft(depth, prefix), |Free(W(), stack + [t])|, rank(t), 1, 0
    {
      var outer := stack;
      stack := stack + [t];
      done := WalkFields(t, prefix, 0);
      stack := outer;
      RoutesWalked(W(), t, prefix, stack, old(consulted), consulted, done);
    }

    method WalkFields(t: TypeId, prefix: Path, i: nat) returns (done: bool)
      requires Ready() && t in schema && i <= |schema[t]|
      modifies this`stack, this`consulted
      ensures stack == old(stack)
      ensures Between(old(consulted), consulted, VisitFields(W(), false, t, prefix, old(stack), i),
                      VisitFields(W(), true, t, prefix, old(stack), i), done)
      decreases DepthLeft(depth, prefix), |Free(W(), stack)|, rank(t), 0, |schema[t]| - i
    {
      if i == |schema[t]| { return true; }
      done := WalkField(t, prefix, i);
      if !done { return; }
      if * { return false; }
      done := WalkFields(t, prefix, i + 1);
    }

    /** One field: bindLeaf's lookups, or walkNested. */
    method WalkField(t: TypeId, prefix: Path, i: nat) returns (done: bool)
      requires Ready() && t in schema && i < |schema[t]|
      modifies this`stack, this`consulted
      ensures stack == old(stack)
      ensures Between(old(consulted), consulted, VisitField(W(), false, t, prefix, old(stack), i),
                      VisitField(W(), true, t, prefix, old(stack), i), done)
      decreases DepthLeft(depth, prefix), |Free(W(), stack)|, rank(t), 0, |schema[t]| - i - 1
    {
      var f := schema[t][i];
      done := true;
      if f.Leaf? {
        consulted := consulted + {LeafPath(f, prefix)} + set p | p in f.aliases;
        return;
      }
      var stops := StopsAt(f, prefix);
      if stops { return; }
      Shrinks(W(), t, i, prefix, stack);
      if f.pointer && f.omitEmpty {
        var has := HasKeysUnder(prefix + f.segs);
        if !has {
          if * { return; }
        }
      }
      done := Walk(f.target, prefix + f.segs);
    }
  }

  /** What the snapshot answers, as a function. */
  ghost function AnswersOf(snap: Snapshot): Path -> bool {
    (p: Path) => Answers(snap, p)
  }

  /** On one snapshot: both walks end. The paths gathered are exactly the unanswered ones at the ends of
      routes from t; the walk consults only ends of routes, each answered or gathered beforehand, and, unless
      an error cut it short, every end of a route on which no pointer may stay nil. */
  method Bind(schema: Schema, snap: Snapshot, t: TypeId, prefix: Path, ghost rank: TypeId -> nat)
    returns (missing: seq<Path>, consulted: set<Path>, done: bool)
    requires Listed(snap) && WellTyped(schema, rank) && t in schema
    ensures forall p :: p in missing <==> Reached(schema, AnswersOf(snap), true, t, prefix, [], p) && !Answers(snap, p)
    ensures forall p | p in consulted ::
      Reached(schema, AnswersOf(snap), true, t, prefix, [], p) && (Answers(snap, p) || p in missing)
    ensures done ==> forall p | Reached(schema, AnswersOf(snap), false, t, prefix, [], p) :: p in consulted
  {
    ghost var depth := SnapshotDepth(snap);
    missing, consulted, done := BindOn(schema, snap, t, prefix, World(schema, AnswersOf(snap), depth, rank));
  }

  method BindOn(schema: Schema, snap: Snapshot, t: TypeId, prefix: Path, ghost w: World)
    returns (missing: seq<Path>, consulted: set<Path>, done: bool)
    requires Listed(snap) && Sound(w) && w.schema == schema && Reflects(w.answers, snap) && t in schema
    ensures forall p :: p in missing <==> Reached(schema, w.answers, true, t, prefix, [], p) && !w.answers(p)
    ensures forall p | p in consulted ::
      Reached(schema, w.answers, true, t, prefix, [], p) && (w.answers(p) || p in missing)
    ensures done ==> forall p | Reached(schema, w.answers, false, t, prefix, [], p) :: p in consulted
  {
    var walker := new BindWalker(schema, snap, w.answers, w.depth, w.rank);
    walker.CollectPaths(t, prefix);
    missing := walker.missing;
    assert missing[0..] == missing;
    done := walker.Walk(t, prefix);
    consulted := walker.consulted;
  }

  // ---------------------------------------------------------------- the data is finite

  ghost predicate Height(v: Value, h: nat) {
    forall r | EntryAt(v, r).Some? :: |r| <= h
  }

  lemma {:induction false} HeightMore(v: Value, h: nat, h': nat)
    requires Height(v, h) && h <= h'
    ensures Height(v, h')
  {}

  /** No entry inside a value lies deeper than some bound. */
  lemma {:induction false} ValueHeight(v: Value) returns (h: nat)
    ensures Height(v, h)
    decreases v
  {
    h := 0;
    if v.data.Map? {
      var todo := v.data.entries.Keys;
      while todo != {}
        invariant todo <= v.data.entries.Keys
        invariant forall k | k in v.data.entries && k !in todo :: Height(v.data.entries[k], h)
        decreases |todo|
      {
        var k :| k in todo;
        var h' := ValueHeight(v.data.entries[k]);
        var top := if h' > h then h' else h;
        forall x | x in v.data.entries && (x == k || x !in todo) ensures Height(v.data.entries[x], top) {
          HeightMore(v.data.entries[x], if x == k then h' else h, top);
        }
        h := top;
        todo := todo - {k};
      }
      forall r | EntryAt(v, r).Some? ensures |r| <= h + 1 {
        if r != [] { assert Height(v.data.entries[r[0]], h) && EntryAt(v.data.entries[r[0]], r[1..]).Some?; }
      }
      h := h + 1;
    }
  }

  /** key k and everything inside its value stays within d. */
  ghost predicate Within(s: Snapshot, k: Path, d: nat) {
    k in s.values ==> |k| <= d && Height(s.values[k], d)
  }

  /** Every snapshot answers only up to some length of path. */
  lemma {:induction false} SnapshotDepth(s: Snapshot) returns (depth: nat)
    requires Listed(s)
    ensures forall p | Answers(s, p) :: |p| <= depth
  {
    var d: nat := 0;
    var todo := s.values.Keys;
    while todo != {}
      invariant todo <= s.values.Keys
      invariant forall k | k !in todo :: Within(s, k, d)
      decreases |todo|
    {
      var k :| k in todo;
      var h := ValueHeight(s.values[k]);
      var top := d + h + |k|;
      forall x | x !in todo || x == k ensures Within(s, x, top) {
        if x == k { HeightMore(s.values[k], h, top); }
        else if x in s.values { assert Within(s, x, d); HeightMore(s.values[x], d, top); }
      }
      d := top;
      todo := todo - {k};
    }
    depth := 2 * d + 2;
    forall p | Answers(s, p) ensures |p| <= depth { AnswerDepth(s, p, d); }
  }

  lemma {:induction false} AnswerDepth(s: Snapshot, p: Path, d: nat)
    requires Listed(s) && Answers(s, p) && forall k :: Within(s, k, d)
    ensures |p| <= 2 * d + 2
  {
    if p in s.values {
      assert Within(s, p, d);
    } else if FromParents(s, p).Some? {
      var n := Best(s, p, |p| - 1).value;
      assert Within(s, Cut(p, n), d);
    } else {
      SubtreeKeysBelow(s, p);
      var k := SubtreeKeys(s, p)[0];
      assert Within(s, k, d);
    }
  }
}
