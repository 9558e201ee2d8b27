/** Live (live.go): the last good decode, the last error, and a one-slot event channel. */
module LiveView {
  import opened Values
  import opened EventQueue
  import opened Runs

  type Error = nat

  datatype Result<T> = Good(value: T) | Bad(error: Error)

  /** What Live forwards: the parent's event and the error, if any, of the reload or of the rebind. */
  datatype Forwarded<E> = Forwarded(event: E, error: Option<Error>)

  /** decoded records history: the outcome of every rebind attempt and every failed reload. */
  datatype State<T, E> = State(curr: T, lastErr: Option<Error>, events: Queue<Forwarded<E>>, decoded: seq<Result<T>>)

  /** Handle is the parent's event: reload says whether its reload failed, bind is what decoding then
      gives. Reload is a rebind on demand. Take is a reader of the channel. */
  datatype Op<T, E> =
    | Handle(event: E, reload: Option<Error>, bind: Result<T>)
    | Reload(bind: Result<T>)
    | Take

  function Start<T, E>(initial: T): State<T, E> {
    State(initial, None, Empty(1), [Good(initial)])
  }

  /** What one event or reload comes to. */
  function OutcomeOf<T, E>(op: Op<T, E>): Result<T>
    requires !op.Take?
  {
    if op.Handle? && op.reload.Some? then Bad(op.reload.value) else op.bind
  }

  function ErrorOf<T>(r: Result<T>): Option<Error> {
    match r
    case Good(_) => None
    case Bad(e) => Some(e)
  }

  function Bound<T, E>(st: State<T, E>, r: Result<T>): State<T, E> {
    st.(curr := (match r case Good(v) => v case Bad(_) => st.curr), lastErr := ErrorOf(r), decoded := st.decoded + [r])
  }

  function Step<T, E>(st: State<T, E>, op: Op<T, E>): State<T, E> {
    match op
    case Handle(e, _, _) =>
      Bound(st, OutcomeOf(op)).(events := Emit(st.events, Forwarded(e, ErrorOf(OutcomeOf(op)))))
    case Reload(_) => Bound(st, OutcomeOf(op))
    case Take => st.(events := EventQueue.Take(st.events))
  }

  /** i is the last successful decode. */
  predicate LastGood<T>(decoded: seq<Result<T>>, i: nat) {
    i < |decoded| && decoded[i].Good? && forall j | i < j < |decoded| :: decoded[j].Bad?
  }

  /** The value handed out is the last one that decoded, whatever was dropped or not read; the error is
      that of the most recent attempt; and every event is accounted for. */
  ghost predicate Inv<T, E>(st: State<T, E>) {
    && (exists i: nat :: LastGood(st.decoded, i) && st.curr == st.decoded[i].value)
    && st.decoded != [] && st.lastErr == ErrorOf(st.decoded[|st.decoded| - 1])
    && Accounts(st.events) && st.events.capacity == 1
  }

  lemma {:induction false} BoundKeeps<T, E>(st: State<T, E>, r: Result<T>)
    requires Inv(st)
    ensures Inv(Bound(st, r))
  {
    var next := Bound(st, r);
    if r.Good? {
      assert LastGood(next.decoded, |st.decoded|) && next.decoded[|st.decoded|] == r;
    } else {
      var i: nat :| LastGood(st.decoded, i) && st.curr == st.decoded[i].value;
      assert next.decoded[i] == st.decoded[i] && LastGood(next.decoded, i);
    }
  }

  lemma {:induction false} StepKeeps<T, E>(st: State<T, E>, op: Op<T, E>)
    requires Inv(st)
    ensures Inv(Step(st, op))
  {
    match op
    case Handle(e, _, _) =>
      BoundKeeps(st, OutcomeOf(op));
      EmitAccounts(st.events, Forwarded(e, ErrorOf(OutcomeOf(op))));
    case Reload(_) => BoundKeeps(st, OutcomeOf(op));
    case Take => TakeAccounts(st.events);
  }

  /** What one parent event does: a failed reload or decode keeps the value and is the last error, a decode
      that succeeds becomes the value; and the event is forwarded with that error in every case. */
  lemma {:induction false} HandleEffect<T, E>(st: State<T, E>, event: E, reload: Option<Error>, bind: Result<T>)
    ensures var next := Step(st, Op.Handle(event, reload, bind));
      && (reload.Some? ==> next.curr == st.curr && next.lastErr == reload)
      && (reload.None? && bind.Bad? ==> next.curr == st.curr && next.lastErr == Some(bind.error))
      && (reload.None? && bind.Good? ==> next.curr == bind.value && next.lastErr == None)
      && next.events == Emit(st.events, Forwarded(event, next.lastErr))
  {}

  /** A rebind on demand does the same to the value and the error, and forwards nothing. */
  lemma {:induction false} ReloadEffect<T, E>(st: State<T, E>, bind: Result<T>)
    ensures var next := Step(st, Op.Reload(bind));
      && next.events == st.events
      && (bind.Bad? ==> next.curr == st.curr && next.lastErr == Some(bind.error))
      && (bind.Good? ==> next.curr == bind.value && next.lastErr == None)
  {}

  predicate Always<T, E>(st: State<T, E>, op: Op<T, E>) {
    true
  }

  lemma {:induction false} EveryRunIsLive<T(!new), E(!new)>(initial: T, run: seq<Op<T, E>>, n: nat)
    requires n <= |run|
    ensures Inv(After((st: State<T, E>, op: Op<T, E>) => Step(st, op), Start(initial), run, n))
  {
    var step := (st: State<T, E>, op: Op<T, E>) => Step(st, op);
    forall st: State<T, E>, op | Inv(st) && Always(st, op) ensures Inv(step(st, op)) { StepKeeps(st, op); }
    assert LastGood(Start<T, E>(initial).decoded, 0);
    Invariant(step, (st: State<T, E>, op: Op<T, E>) => Always(st, op), (st: State<T, E>) => Inv(st),
              Start(initial), run, n);
  }

  /** Readers decide what is dropped and never what is bound: two runs that differ only in their takes
      hand out the same value and the same error. */
  lemma {:induction false} ReadersDoNotMatter<T, E>(st: State<T, E>, run: seq<Op<T, E>>, n: nat)
    requires n <= |run|
    ensures var r := After((s: State<T, E>, op: Op<T, E>) => Step(s, op), st, run, n);
      r.decoded == st.decoded + Outcomes(run[..n])
  {
    if n > 0 {
      ReadersDoNotMatter(st, run, n - 1);
      assert run[..n][..n - 1] == run[..n - 1];
    } else {
      assert run[..0] == [];
    }
  }

  function Outcomes<T, E>(run: seq<Op<T, E>>): seq<Result<T>> {
    if run == [] then []
    else Outcomes(run[..|run| - 1]) + if run[|run| - 1].Take? then [] else [OutcomeOf(run[|run| - 1])]
  }

  // ---------------------------------------------------------------- the object

  /** Live's methods. Each is one step of the machine above. */
  class Live<T, E> {
    var curr: T
    var lastErr: Option<Error>
    var waiting: seq<Sent<Forwarded<E>>>
    var dropped: nat
    ghost var received: seq<Sent<Forwarded<E>>>
    ghost var log: seq<Forwarded<E>>
    ghost var decoded: seq<Result<T>>

    ghost function Events(): Queue<Forwarded<E>>
      reads this
    {
      Queue(1, waiting, dropped, received, log)
    }

    ghost function View(): State<T, E>
      reads this
    {
      State(curr, lastErr, Events(), decoded)
    }

    constructor (initial: T)
      ensures View() == Start(initial)
    {
      curr, lastErr, waiting, dropped := initial, None, [], 0;
      received, log, decoded := [], [], [Good(initial)];
    }

    method Emit(p: Forwarded<E>)
      modifies this`waiting, this`dropped, this`log
      ensures Events() == EventQueue.Emit(old(Events()), p)
    {
      log := log + [p];
      var drops := dropped;
      if |waiting| < 1 {
        waiting := waiting + [Sent(p, drops)];
        dropped := 0;
      } else {
        dropped := dropped + 1;
      }
    }

    method Handle(event: E, reload: Option<Error>, bind: Result<T>)
      modifies this
      ensures View() == Step(old(View()), Op.Handle(event, reload, bind))
    {
      var err := reload;
      if reload.None? {
        match bind {
          case Bad(e) => err := Some(e);
          case Good(next) => curr := next;
        }
      }
      lastErr := err;
      decoded := decoded + [OutcomeOf(Op.Handle(event, reload, bind))];
      Emit(Forwarded(event, err));
    }

    method Reload(bind: Result<T>) returns (err: Option<Error>)
      modifies this
      ensures View() == Step(old(View()), Op.Reload(bind)) && err == lastErr
    {
      decoded := decoded + [bind];
      match bind {
        case Bad(e) => lastErr := Some(e); return Some(e);
        case Good(next) => curr := next; lastErr := None; return None;
      }
    }
  }
}
