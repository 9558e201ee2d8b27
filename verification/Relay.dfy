/** The watch engine and Live joined: Live is the reader of the engine's event channel, and its own readers
    see what it forwards (watch.go, live.go). */
module Relay {
  import opened Values
  import opened EventQueue
  import opened Runs
  import W = WatchLoop
  import L = LiveView

  type Report = W.Report

  datatype State<T> = State(engine: W.State, live: L.State<T, Sent<Report>>)

  /** Pass is Live taking the engine's next event and handling it: bind is what decoding then gives, and
      failure the error of the event if its reload failed. Rebind is a rebind on demand. Read is a reader of
      Live's channel. */
  datatype Op<T> =
    | Engine(op: W.Op)
    | Pass(bind: L.Result<T>, failure: L.Error)
    | Rebind(bind: L.Result<T>)
    | Read

  function Start<T>(capacity: nat, initial: T): State<T> {
    State(W.Start(capacity), L.Start(initial))
  }

  ghost predicate Possible<T>(st: State<T>, op: Op<T>) {
    match op
    case Engine(e) => !e.Take? && W.Possible(st.engine, e)
    case Pass(_, _) => st.engine.events.waiting != []
    case _ => true
  }

  /** What Live makes of the engine's event. */
  function Handling<T>(e: Sent<Report>, bind: L.Result<T>, failure: L.Error): L.Op<T, Sent<Report>> {
    L.Handle(e, if e.payload.failed then Some(failure) else None, bind)
  }

  ghost function Step<T>(discards: bool): (State<T>, Op<T>) -> State<T> {
    (st: State<T>, op: Op<T>) => StepOf(discards, st, op)
  }

  ghost function StepOf<T>(discards: bool, st: State<T>, op: Op<T>): State<T> {
    match op
    case Engine(e) => st.(engine := W.StepOf(discards, st.engine, e))
    case Pass(bind, failure) =>
      if st.engine.events.waiting == [] then st
      else State(W.StepOf(discards, st.engine, W.Take),
                 L.Step(st.live, Handling(st.engine.events.waiting[0], bind, failure)))
    case Rebind(bind) => st.(live := L.Step(st.live, L.Reload(bind)))
    case Read => st.(live := L.Step(st.live, L.Take))
  }

  /** What Live emitted is, event by event, what it took from the engine; failed reloads carry an error. */
  ghost predicate Linked<T>(st: State<T>) {
    var taken, log := st.engine.events.received, st.live.events.log;
    && |log| == |taken|
    && forall i | 0 <= i < |log| :: log[i].event == taken[i] && (taken[i].payload.failed ==> log[i].error.Some?)
  }

  ghost predicate Inv<T>(st: State<T>) {
    W.Inv(st.engine) && L.Inv(st.live) && Linked(st)
  }

  /** The engine's own steps take nothing from its channel. */
  lemma {:induction false} EngineTakesNothing(discards: bool, st: W.State, op: W.Op)
    requires !op.Take?
    ensures W.StepOf(discards, st, op).events.received == st.events.received
  {}

  lemma {:induction false} TakeMoves(discards: bool, st: W.State)
    requires st.events.waiting != []
    ensures W.StepOf(discards, st, W.Take).events.received == st.events.received + [st.events.waiting[0]]
  {}

  lemma {:induction false} HandlingLogs<T>(st: L.State<T, Sent<Report>>, e: Sent<Report>,
                                        bind: L.Result<T>, failure: L.Error)
    ensures var log := L.Step(st, Handling(e, bind, failure)).events.log;
      && |log| == |st.events.log| + 1 && log[..|st.events.log|] == st.events.log
      && log[|st.events.log|].event == e && (e.payload.failed ==> log[|st.events.log|].error.Some?)
  {}

  lemma {:induction false} OthersLogNothing<T>(st: L.State<T, Sent<Report>>, bind: L.Result<T>)
    ensures L.Step(st, L.Reload(bind)).events.log == st.events.log
    ensures L.Step(st, L.Op<T, Sent<Report>>.Take).events.log == st.events.log
  {}

  lemma {:induction false} PassLinks<T>(discards: bool, st: State<T>, op: Op<T>)
    requires Linked(st) && op.Pass? && st.engine.events.waiting != []
    ensures Linked(StepOf(discards, st, op))
  {
    TakeMoves(discards, st.engine);
    HandlingLogs(st.live, st.engine.events.waiting[0], op.bind, op.failure);
    var log := StepOf(discards, st, op).live.events.log;
    assert forall i | 0 <= i < |st.live.events.log| :: log[i] == log[..|st.live.events.log|][i];
  }

  lemma {:induction false} StepLinks<T>(discards: bool, st: State<T>, op: Op<T>)
    requires Linked(st) && Possible(st, op)
    ensures Linked(StepOf(discards, st, op))
  {
    match op
    case Engine(e) => EngineTakesNothing(discards, st.engine, e);
    case Pass(_, _) => PassLinks(discards, st, op);
    case Rebind(bind) => OthersLogNothing(st.live, bind);
    case Read => OthersLogNothing(st.live, L.Bad(0));
  }

  lemma {:induction false} StepKeeps<T>(discards: bool, st: State<T>, op: Op<T>)
    requires Inv(st) && Possible(st, op)
    ensures Inv(StepOf(discards, st, op))
  {
    StepLinks(discards, st, op);
    match op
    case Engine(e) => W.StepKeeps(discards, st.engine, e);
    case Pass(bind, failure) =>
      W.StepKeeps(discards, st.engine, W.Take);
      L.StepKeeps(st.live, Handling(st.engine.events.waiting[0], bind, failure));
    case Rebind(bind) => L.StepKeeps(st.live, L.Reload(bind));
    case Read => L.StepKeeps<T, Sent<Report>>(st.live, L.Take);
  }

  /** In every interleaving of changes, reloads, rebinds and readers, both halves keep their accounts and
      stay linked. */
  lemma {:induction false} EveryRunLinked<T(!new)>(discards: bool, capacity: nat, initial: T, run: seq<Op<T>>, n: nat)
    requires n <= |run| && IsRun(Step(discards), (st, op) => Possible(st, op), Start(capacity, initial), run)
    ensures Inv(After(Step(discards), Start(capacity, initial), run, n))
  {
    forall st: State<T>, op | Inv(st) && Possible(st, op) ensures Inv(Step(discards)(st, op)) {
      StepKeeps(discards, st, op);
    }
    assert L.LastGood(L.Start<T, Sent<Report>>(initial).decoded, 0);
    Invariant(Step(discards), (st, op) => Possible(st, op), st => Inv(st), Start(capacity, initial), run, n);
  }

  /** So in every run each event the engine emitted is delivered by Live, reported or counted as dropped on
      one of the two channels, or still waiting in the first; and the warnings on both, taken together,
      tell which of the engine's events a delivered one is. */
  lemma {:induction false} EndToEnd<T(!new)>(discards: bool, capacity: nat, initial: T, run: seq<Op<T>>, n: nat)
    requires n <= |run| && IsRun(Step(discards), (st, op) => Possible(st, op), Start(capacity, initial), run)
    ensures var st := After(Step(discards), Start(capacity, initial), run, n);
      var first, second := Delivered(st.engine.events), Delivered(st.live.events);
      && |st.engine.events.log| ==
           |second| + Drops(second) + st.live.events.dropped
           + |st.engine.events.waiting| + Drops(first) + st.engine.events.dropped
      && forall k | 0 <= k < |second| ::
           && Place(second, k) < |first| && Place(first, Place(second, k)) < |st.engine.events.log|
           && second[k].payload.event.payload == st.engine.events.log[Place(first, Place(second, k))]
  {
    EveryRunLinked(discards, capacity, initial, run, n);
    var st := After(Step(discards), Start(capacity, initial), run, n);
    var first, second := Delivered(st.engine.events), Delivered(st.live.events);
    forall k | 0 <= k < |second|
      ensures && Place(second, k) < |first| && Place(first, Place(second, k)) < |st.engine.events.log|
              && second[k].payload.event.payload == st.engine.events.log[Place(first, Place(second, k))]
    {
      var j := Place(second, k);
      assert second[k].payload == st.live.events.log[j] && first[j] == st.engine.events.received[j];
    }
  }
}
