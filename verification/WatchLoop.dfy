/** The watch engine's debounce loop (watch.go): changes arm a timer, the timer's tick fires one reload,
    and reloads are reported on a bounded channel. */
module WatchLoop {
  import opened Paths
  import opened Values
  import opened Snapshots
  import opened Runs
  import opened EventQueue
  import opened SnapshotDiff

  // ---------------------------------------------------------------- timers

  /** running: the deadline lies ahead. tick: the timer fired and its tick was not read. Since Go 1.23
      stopping or resetting discards an unread tick; before, it stayed in the channel. */
  datatype Timer = Timer(running: bool, tick: bool)

  const IDLE := Timer(false, false)

  function StopTimer(t: Timer, discards: bool): (Timer, bool) {
    if discards then (IDLE, t.running || t.tick) else (t.(running := false), t.running)
  }

  function ResetTimer(t: Timer, discards: bool): Timer {
    if discards then Timer(true, false) else t.(running := true)
  }

  /** Stop, drain if Stop says the timer already fired, and Reset. */
  function Rearm(t: Timer, armed: bool, discards: bool): Timer {
    var (stopped, wasRunning) := StopTimer(t, discards);
    var drained := if armed then (if wasRunning then stopped else stopped.(tick := false)) else t;
    ResetTimer(drained, discards)
  }

  // ---------------------------------------------------------------- steps

  datatype Report = Report(source: Bytes, changed: seq<Path>, failed: bool)

  /** The sources of the changes since the last reload and whether each failed, how many error-free
      changes arrived, how many of those a reload has followed, and how many reloads there were. */
  datatype History = History(since: seq<(Bytes, bool)>, changes: nat, reloaded: nat, reloads: nat)

  function Arrived(h: History, src: Bytes, failed: bool): History {
    h.(since := h.since + [(src, failed)], changes := h.changes + if failed then 0 else 1)
  }

  function Reloaded(h: History): History {
    h.(since := [], reloaded := h.reloaded + OkSince(h.since), reloads := h.reloads + 1)
  }

  datatype State = State(
    armed: bool,
    lastSrc: Bytes,
    timer: Timer,
    events: Queue<Report>,
    stopped: bool,
    history: History)

  /** Arrive is a pending change; Expire is the timer's deadline passing; Tick is the loop reading the
      timer, where prev and cur are the snapshots before and after the rebuild; Take is a reader of the
      event channel. */
  datatype Op =
    | Arrive(source: Bytes, failed: bool)
    | Expire
    | Tick(prev: Option<Snapshot>, cur: Option<Snapshot>, rebuilt: bool)
    | Take
    | Stop

  function Start(capacity: nat): State {
    State(false, [], IDLE, Empty(capacity), false, History([], 0, 0, 0))
  }

  ghost predicate Possible(st: State, op: Op) {
    match op
    case Expire => st.timer.running
    case Tick(prev, cur, _) => !st.stopped && st.timer.tick && Proper(prev) && Proper(cur)
    case Arrive(_, _) => !st.stopped
    case _ => true
  }

  ghost function ReportOf(st: State, op: Op): Report
    requires op.Tick?
  {
    Report(st.lastSrc, if op.rebuilt then Diff(op.prev, op.cur) else [], !op.rebuilt)
  }

  function OkSince(since: seq<(Bytes, bool)>): nat {
    if since == [] then 0 else OkSince(since[..|since| - 1]) + if since[|since| - 1].1 then 0 else 1
  }

  ghost function Step(discards: bool): (State, Op) -> State {
    (st: State, op: Op) => StepOf(discards, st, op)
  }

  ghost function StepOf(discards: bool, st: State, op: Op): State {
    match op
    case Arrive(src, failed) =>
      var seen := st.(lastSrc := src, history := Arrived(st.history, src, failed));
      if failed then seen.(events := Emit(st.events, Report(src, [], true)))
      else seen.(timer := Rearm(st.timer, st.armed, discards), armed := true)
    case Expire => st.(timer := Timer(false, true))
    case Tick(_, _, _) =>
      st.(timer := st.timer.(tick := false), armed := false, lastSrc := [],
          events := Emit(st.events, ReportOf(st, op)), history := Reloaded(st.history))
    case Take => st.(events := EventQueue.Take(st.events))
    case Stop => st.(stopped := true)
  }

  // ---------------------------------------------------------------- what every step keeps

  /** The timer is armed exactly when an error-free change arrived since the last reload, and then either
      its deadline lies ahead or one tick waits, never both: no tick is stale. */
  ghost predicate TimerInStep(st: State) {
    && (st.armed <==> OkSince(st.history.since) > 0)
    && (st.armed <==> st.timer.running || st.timer.tick)
    && !(st.timer.running && st.timer.tick)
  }

  /** Every error-free change was followed by a reload, or waits for one; and no reload happens without
      a change of its own. */
  ghost predicate ChangesInStep(st: State) {
    st.history.changes == st.history.reloaded + OkSince(st.history.since) && st.history.reloads <= st.history.reloaded
  }

  ghost predicate Inv(st: State) {
    && TimerInStep(st) && ChangesInStep(st) && Accounts(st.events)
    && st.lastSrc == if st.history.since == [] then [] else st.history.since[|st.history.since| - 1].0
  }

  lemma {:induction false} ArriveKeeps(discards: bool, st: State, src: Bytes, failed: bool)
    requires Inv(st)
    ensures Inv(StepOf(discards, st, Arrive(src, failed)))
  {
    var more := st.history.since + [(src, failed)];
    assert more[..|more| - 1] == st.history.since;
    assert OkSince(more) == OkSince(st.history.since) + if failed then 0 else 1;
    EmitAccounts(st.events, Report(src, [], true));
  }

  lemma {:induction false} StepKeeps(discards: bool, st: State, op: Op)
    requires Inv(st) && Possible(st, op)
    ensures Inv(StepOf(discards, st, op))
  {
    match op
    case Arrive(src, failed) => ArriveKeeps(discards, st, src, failed);
    case Tick(_, _, _) => EmitAccounts(st.events, ReportOf(st, op));
    case Take => TakeAccounts(st.events);
    case _ =>
  }

  /** In every run of the loop, whichever of the ready cases it picks and under either timer semantics. */
  lemma {:induction false} EveryRunInStep(discards: bool, capacity: nat, run: seq<Op>, n: nat)
    requires n <= |run| && IsRun(Step(discards), (st, op) => Possible(st, op), Start(capacity), run)
    ensures Inv(After(Step(discards), Start(capacity), run, n))
  {
    forall st, op | Inv(st) && Possible(st, op) ensures Inv(Step(discards)(st, op)) { StepKeeps(discards, st, op); }
    Invariant(Step(discards), (st, op) => Possible(st, op), st => Inv(st), Start(capacity), run, n);
  }

  /** A failed change is reported at once and leaves the timer alone. An error-free one reports nothing and
      leaves the timer running from now, with no tick waiting, whatever it was doing before. */
  lemma {:induction false} ChangeReports(discards: bool, st: State, src: Bytes, failed: bool)
    requires Inv(st)
    ensures var next := StepOf(discards, st, Arrive(src, failed));
      && next.lastSrc == src && next.stopped == st.stopped
      && (failed ==>
           && next.events == Emit(st.events, Report(src, [], true))
           && next.timer == st.timer && next.armed == st.armed)
      && (!failed ==> next.events == st.events && next.armed && next.timer.running && !next.timer.tick)
  {}

  /** A tick ends the wait: one event, nothing armed, and no source remembered. */
  lemma {:induction false} TickDisarms(discards: bool, st: State, op: Op)
    requires op.Tick?
    ensures var next := StepOf(discards, st, op);
      && !next.armed && next.lastSrc == [] && !next.timer.tick && next.timer.running == st.timer.running
      && |next.events.log| == |st.events.log| + 1 && st.events.log <= next.events.log
  {}

  /** A reload reports the source of the latest change and exactly what the rebuild changed. */
  lemma {:induction false} ReloadReports(discards: bool, st: State, op: Op, p: Path)
    requires Inv(st) && op.Tick? && Possible(st, op)
    ensures var log := StepOf(discards, st, op).events.log;
      && log != [] && st.history.since != []
      && log[|log| - 1].source == st.history.since[|st.history.since| - 1].0
      && log[|log| - 1].failed == !op.rebuilt
      && (p in log[|log| - 1].changed <==> op.rebuilt && Changed(op.prev, op.cur, p))
  {
    var r := ReportOf(st, op);
    EmitDelivers(st.events, r);
    assert StepOf(discards, st, op).events.log == st.events.log + [r];
    DiffIsExact(op.prev, op.cur, p);
    assert OkSince([]) == 0;
  }

  // ---------------------------------------------------------------- the object

  /** The loop's cases and emit. Each is one step of the machine above. */
  class WatchEngine {
    const discards: bool
    const capacity: nat
    var armed: bool
    var lastSrc: Bytes
    var timer: Timer
    var waiting: seq<Sent<Report>>
    var dropped: nat
    var stopped: bool
    ghost var received: seq<Sent<Report>>
    ghost var log: seq<Report>
    ghost var history: History

    ghost function Events(): Queue<Report>
      reads this
    {
      Queue(capacity, waiting, dropped, received, log)
    }

    ghost function View(): State
      reads this
    {
      State(armed, lastSrc, timer, Events(), stopped, history)
    }

    constructor (discards: bool, bufSize: int)
      ensures this.discards == discards && View() == Start(if bufSize <= 0 then 16 else bufSize)
    {
      this.discards := discards;
      capacity := if bufSize <= 0 then 16 else bufSize;
      armed, lastSrc, timer, waiting, dropped, stopped := false, [], IDLE, [], 0, false;
      received, log, history := [], [], History([], 0, 0, 0);
    }

    method Send(r: Report)
      modifies this`waiting, this`dropped, this`log
      ensures Events() == Emit(old(Events()), r)
    {
      log := log + [r];
      var drops := dropped;
      if drops > 0 {
        if |waiting| < capacity {
          waiting := waiting + [Sent(r, drops)];
          dropped := dropped - drops;
        } else {
          dropped := dropped + 1;
        }
        return;
      }
      if |waiting| < capacity {
        waiting := waiting + [Sent(r, 0)];
      } else {
        dropped := dropped + 1;
      }
    }

    method HandleChange(src: Bytes, failed: bool)
      modifies this
      ensures View() == StepOf(discards, old(View()), Arrive(src, failed))
    {
      lastSrc := src;
      history := Arrived(history, src, failed);
      if failed {
        Send(Report(src, [], true));
        return;
      }
      if armed {
        var (stoppedTimer, wasRunning) := StopTimer(timer, discards);
        timer := stoppedTimer;
        if !wasRunning { timer := timer.(tick := false); }
      }
      timer := ResetTimer(timer, discards);
      armed := true;
    }

    method FireReload(src: Bytes, prev: Option<Snapshot>, cur: Option<Snapshot>, rebuilt: bool)
      requires Proper(prev) && Proper(cur)
      modifies this`waiting, this`dropped, this`log
      ensures Events() == Emit(old(Events()), Report(src, if rebuilt then Diff(prev, cur) else [], !rebuilt))
    {
      var changed: seq<Path> := [];
      if rebuilt { changed := DiffSnapshots(prev, cur); }
      Send(Report(src, changed, !rebuilt));
    }

    method HandleTick(prev: Option<Snapshot>, cur: Option<Snapshot>, rebuilt: bool)
      requires Proper(prev) && Proper(cur)
      modifies this
      ensures View() == StepOf(discards, old(View()), Tick(prev, cur, rebuilt))
    {
      timer := timer.(tick := false);
      armed := false;
      FireReload(lastSrc, prev, cur, rebuilt);
      lastSrc := [];
      history := Reloaded(history);
    }
  }
}
