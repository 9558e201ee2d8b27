/** The in-memory remote backend and its subscriptions (remote_inmemory.go), as atomic steps under its
    lock. A subscription is a channel with room for one tick. */
module Backend {
  import opened Paths
  import opened Runs

  /** closes counts how often the channel was closed. seen records history: the change count when its
      reader last took a tick, or subscribed. */
  datatype Chan = Chan(pending: bool, closes: nat, seen: nat)

  /** subs holds indices into chans. version counts the accepted changes. panicked is what a send on, or a
      close of, a closed channel leads to. */
  datatype State = State(
    data: map<Bytes, Bytes>,
    subs: seq<nat>,
    chans: seq<Chan>,
    closed: bool,
    version: nat,
    panicked: bool)

  datatype Op =
    | Put(key: Bytes, value: Bytes)
    | PutAll(entries: map<Bytes, Bytes>)
    | Delete(key: Bytes)
    | Watch
    | Cancel(chan: nat)
    | Close
    | Receive(chan: nat)

  const EMPTY := State(map[], [], [], false, 0, false)

  predicate Open(st: State, id: nat) {
    id < |st.chans| && st.chans[id].closes == 0
  }

  // ---------------------------------------------------------------- channel operations

  /** A send that never blocks: a pending tick absorbs it. */
  function Send(st: State, id: nat): State {
    if Open(st, id) then st.(chans := st.chans[id := st.chans[id].(pending := true)]) else st.(panicked := true)
  }

  function Shut(st: State, id: nat): State {
    if id >= |st.chans| then st.(panicked := true)
    else
      var c := st.chans[id];
      st.(chans := st.chans[id := c.(closes := c.closes + 1)], panicked := st.panicked || c.closes > 0)
  }

  /** notifyAll. */
  function SendAll(st: State, ids: seq<nat>): State {
    if ids == [] then st else Send(SendAll(st, ids[..|ids| - 1]), ids[|ids| - 1])
  }

  function ShutAll(st: State, ids: seq<nat>): State {
    if ids == [] then st else Shut(ShutAll(st, ids[..|ids| - 1]), ids[|ids| - 1])
  }

  // ---------------------------------------------------------------- steps

  function Change(st: State, data: map<Bytes, Bytes>): State {
    SendAll(st.(data := data, version := st.version + 1), st.subs)
  }

  /** The first position of id in ids, or |ids|. */
  function Find(ids: seq<nat>, id: nat): (i: nat)
    ensures i <= |ids| && (i < |ids| ==> ids[i] == id)
    ensures forall j | 0 <= j < i :: ids[j] != id
  {
    if ids == [] then 0 else if ids[0] == id then 0 else 1 + Find(ids[1..], id)
  }

  function Without(ids: seq<nat>, i: nat): seq<nat>
    requires i < |ids|
  {
    ids[..i] + ids[i + 1..]
  }

  function Step(st: State, op: Op): State {
    match op
    case Put(k, v) => if st.closed then st else Change(st, st.data[k := v])
    case PutAll(m) => if st.closed then st else Change(st, st.data + m)
    case Delete(k) => if st.closed || k !in st.data then st else Change(st, st.data - {k})
    case Watch =>
      if st.closed then st.(chans := st.chans + [Chan(false, 1, st.version)])
      else st.(chans := st.chans + [Chan(false, 0, st.version)], subs := st.subs + [|st.chans|])
    case Cancel(id) =>
      var i := Find(st.subs, id);
      if i == |st.subs| then st else Shut(st.(subs := Without(st.subs, i)), id)
    case Close => if st.closed then st else ShutAll(st.(closed := true), st.subs).(subs := [])
    case Receive(id) =>
      if id < |st.chans| && st.chans[id].pending
      then st.(chans := st.chans[id := st.chans[id].(pending := false, seen := st.version)])
      else st
  }

  // ---------------------------------------------------------------- what every step keeps

  predicate Increasing(ids: seq<nat>) {
    forall i, j | 0 <= i < j < |ids| :: ids[i] < ids[j]
  }

  /** The subscriber list holds exactly the open channels, oldest first. */
  ghost predicate SubsAreOpen(st: State) {
    Increasing(st.subs) && forall id :: id in st.subs <==> Open(st, id)
  }

  /** A tick waits only for a change not seen; and while the channel is open, every such change has one. */
  predicate TickMatches(st: State, c: Chan) {
    && c.seen <= st.version && (c.pending ==> c.seen < st.version)
    && (c.closes == 0 && c.seen < st.version ==> c.pending)
  }

  ghost predicate Inv(st: State) {
    && !st.panicked
    && SubsAreOpen(st)
    && (st.closed ==> st.subs == [])
    && forall id | 0 <= id < |st.chans| :: st.chans[id].closes <= 1 && TickMatches(st, st.chans[id])
  }

  function Ticked(c: Chan, hit: bool): Chan {
    if hit then c.(pending := true) else c
  }

  function ClosedOnce(c: Chan, hit: bool): Chan {
    if hit then c.(closes := c.closes + 1) else c
  }

  lemma {:induction false} SendAllIs(st: State, ids: seq<nat>)
    requires forall id | id in ids :: Open(st, id)
    ensures var r := SendAll(st, ids);
      && r == st.(chans := r.chans) && |r.chans| == |st.chans|
      && forall j | 0 <= j < |st.chans| :: r.chans[j] == Ticked(st.chans[j], j in ids)
  {
    if ids != [] {
      var init, last := ids[..|ids| - 1], ids[|ids| - 1];
      assert ids == init + [last] && last in ids;
      SendAllIs(st, init);
    }
  }

  lemma {:induction false} LastIsNew(ids: seq<nat>)
    requires Increasing(ids) && ids != []
    ensures var init, last := ids[..|ids| - 1], ids[|ids| - 1];
      Increasing(init) && last !in init && last in ids && forall x :: x in ids <==> x in init || x == last
  {}

  /** r is st with the channels of ids closed once more, and nothing else different. */
  ghost predicate Closes(st: State, r: State, ids: seq<nat>) {
    && r == st.(chans := r.chans) && |r.chans| == |st.chans|
    && forall j | 0 <= j < |st.chans| :: r.chans[j] == ClosedOnce(st.chans[j], j in ids)
  }

  lemma {:induction false} ShutAllIs(st: State, ids: seq<nat>)
    requires Increasing(ids) && forall id | id in ids :: Open(st, id)
    ensures Closes(st, ShutAll(st, ids), ids)
  {
    if ids != [] {
      LastIsNew(ids);
      ShutAllIs(st, ids[..|ids| - 1]);
    }
  }

  /** An accepted change leaves a tick pending on every open subscription and closes nothing. */
  lemma {:induction false} ChangeNotifies(st: State, data: map<Bytes, Bytes>)
    requires Inv(st) && !st.closed
    ensures var r := Change(st, data);
      && Inv(r) && r.data == data && r.version == st.version + 1 && r.subs == st.subs && r.closed == st.closed
      && forall id: nat | Open(r, id) :: r.chans[id].pending
  {
    var changed := st.(data := data, version := st.version + 1);
    SendAllIs(changed, st.subs);
    var r := Change(st, data);
    forall id: nat ensures Open(r, id) <==> Open(st, id) {}
    forall id: nat | Open(r, id) ensures r.chans[id].pending { assert id in st.subs; }
  }

  lemma {:induction false} WatchKeeps(st: State)
    requires Inv(st)
    ensures Inv(Step(st, Watch))
  {
    var r := Step(st, Watch);
    forall id: nat ensures id in r.subs <==> Open(r, id) {
      assert id in st.subs <==> Open(st, id);
      assert id < |st.chans| ==> r.chans[id] == st.chans[id];
    }
    assert forall i | 0 <= i < |st.subs| :: st.subs[i] in st.subs;
  }

  lemma {:induction false} WithoutIs(ids: seq<nat>, i: nat)
    requires Increasing(ids) && i < |ids|
    ensures Increasing(Without(ids, i)) && forall x :: x in Without(ids, i) <==> x in ids && x != ids[i]
  {}

  lemma {:induction false} CancelKeeps(st: State, id: nat)
    requires Inv(st)
    ensures Inv(Step(st, Cancel(id)))
  {
    var i := Find(st.subs, id);
    if i < |st.subs| {
      assert st.subs[i] in st.subs;
      WithoutIs(st.subs, i);
      var r := Step(st, Cancel(id));
      forall x: nat ensures x in r.subs <==> Open(r, x) { assert x in st.subs <==> Open(st, x); }
    }
  }

  lemma {:induction false} CloseKeeps(st: State)
    requires Inv(st)
    ensures Inv(Step(st, Close))
  {
    if !st.closed {
      ShutAllIs(st.(closed := true), st.subs);
      var r := Step(st, Close);
      forall id: nat ensures !Open(r, id) {
        if Open(st, id) { assert id in st.subs; }
      }
    }
  }

  lemma {:induction false} ReceiveKeeps(st: State, id: nat)
    requires Inv(st)
    ensures Inv(Step(st, Receive(id)))
  {}

  lemma {:induction false} StepKeeps(st: State, op: Op)
    requires Inv(st)
    ensures Inv(Step(st, op))
  {
    match op
    case Put(k, v) => if !st.closed { ChangeNotifies(st, st.data[k := v]); }
    case PutAll(m) => if !st.closed { ChangeNotifies(st, st.data + m); }
    case Delete(k) => if !st.closed && k in st.data { ChangeNotifies(st, st.data - {k}); }
    case Watch => WatchKeeps(st);
    case Cancel(id) => CancelKeeps(st, id);
    case Close => CloseKeeps(st);
    case Receive(id) => ReceiveKeeps(st, id);
  }

  // ---------------------------------------------------------------- what each step does

  /** Same data and same change count. */
  predicate NothingWritten(a: State, b: State) {
    a.data == b.data && a.version == b.version
  }

  /** data holds under k what the write op leaves there. */
  predicate WrittenBy(st: State, op: Op, data: map<Bytes, Bytes>, k: Bytes) {
    match op
    case Put(key, v) =>
      (k in data <==> k == key || k in st.data) && (k in data ==> data[k] == if k == key then v else st.data[k])
    case PutAll(m) =>
      (k in data <==> k in m || k in st.data) && (k in data ==> data[k] == if k in m then m[k] else st.data[k])
    case Delete(key) => (k in data <==> k != key && k in st.data) && (k in data ==> data[k] == st.data[k])
    case _ => true
  }

  /** What the writes write: Put its one key, PutAll its keys, Delete takes its one away, the other keys stay;
      nothing once the backend is closed, and nothing by any other operation. */
  lemma {:induction false} WritesEffect(st: State, op: Op, k: Bytes)
    requires Inv(st)
    ensures var next := Step(st, op);
      && (!st.closed ==> WrittenBy(st, op, next.data, k))
      && (st.closed || !(op.Put? || op.PutAll? || op.Delete?) ==> NothingWritten(st, next))
  {
    match op
    case Put(key, v) => if !st.closed { ChangeNotifies(st, st.data[key := v]); }
    case PutAll(m) => if !st.closed { ChangeNotifies(st, st.data + m); }
    case Delete(key) => if !st.closed && key in st.data { ChangeNotifies(st, st.data - {key}); }
    case Close => if !st.closed { ShutAllIs(st.(closed := true), st.subs); }
    case _ =>
  }

  lemma {:induction false} ChangeOpensNone(st: State, data: map<Bytes, Bytes>, id: nat)
    requires Inv(st)
    ensures Open(Change(st, data), id) <==> Open(st, id)
  {
    SendAllIs(st.(data := data, version := st.version + 1), st.subs);
  }

  lemma {:induction false} CancelClosesOne(st: State, x: nat, id: nat)
    requires Inv(st)
    ensures Open(Step(st, Cancel(x)), id) <==> Open(st, id) && id != x
  {
    assert x in st.subs <==> Open(st, x);
    assert Find(st.subs, x) < |st.subs| ==> st.subs[Find(st.subs, x)] in st.subs;
  }

  lemma {:induction false} CloseClosesAll(st: State, id: nat)
    requires Inv(st)
    ensures !Open(Step(st, Close), id)
  {
    CloseKeeps(st);
    assert id in Step(st, Close).subs <==> Open(Step(st, Close), id);
  }

  /** Which channels are open: an accepted watch adds its own, a cancel closes its own, Close closes all, and
      nothing else opens or closes one. */
  lemma {:induction false} ChannelsEffect(st: State, op: Op, id: nat)
    requires Inv(st)
    ensures Open(Step(st, op), id) <==>
      match op
      case Watch => Open(st, id) || (!st.closed && id == |st.chans|)
      case Cancel(x) => Open(st, id) && id != x
      case Close => false
      case _ => Open(st, id)
  {
    match op
    case Put(key, v) => ChangeOpensNone(st, st.data[key := v], id);
    case PutAll(m) => ChangeOpensNone(st, st.data + m, id);
    case Delete(key) => ChangeOpensNone(st, st.data - {key}, id);
    case Close => CloseClosesAll(st, id);
    case Cancel(x) => CancelClosesOne(st, x, id);
    case _ =>
  }

  /** A reader that takes a tick has seen every change so far, and the other channels keep theirs. */
  lemma {:induction false} ReceiveEffect(st: State, id: nat, other: nat)
    requires Inv(st) && id < |st.chans| && other < |st.chans|
    ensures var next := Step(st, Receive(id));
      && |next.chans| == |st.chans| && !next.chans[id].pending
      && (Open(st, id) ==> next.chans[id].seen == st.version)
      && (other != id ==> next.chans[other] == st.chans[other])
  {}

  // ---------------------------------------------------------------- runs

  predicate Always(st: State, op: Op) {
    true
  }

  /** In every interleaving: no send on or close of a closed channel, every channel closed at most once,
      the subscriber list exactly the open channels, and no change lost to an open subscription. */
  lemma {:induction false} EveryRunIsSafe(run: seq<Op>, n: nat)
    requires n <= |run|
    ensures Inv(After(Step, EMPTY, run, n))
  {
    forall st, op | Inv(st) && Always(st, op) ensures Inv(Step(st, op)) { StepKeeps(st, op); }
    Invariant(Step, Always, st => Inv(st), EMPTY, run, n);
  }

  /** Closing is final: from then on nothing is written, nothing is notified, and every channel, old or
      new, is closed. */
  lemma {:induction false} CloseIsFinal(st: State, run: seq<Op>, n: nat)
    requires Inv(st) && st.closed && n <= |run|
    ensures var r := After(Step, st, run, n);
      && r.closed && r.data == st.data && r.version == st.version
      && forall id | 0 <= id < |r.chans| :: r.chans[id].closes == 1
  {
    var inv := (s: State) => Inv(s) && s.closed && s.data == st.data && s.version == st.version;
    forall s, op | inv(s) && Always(s, op) ensures inv(Step(s, op)) { StepKeeps(s, op); }
    Invariant(Step, Always, inv, st, run, n);
    var r := After(Step, st, run, n);
    forall id | 0 <= id < |r.chans| ensures r.chans[id].closes == 1 { assert !Open(r, id); }
  }

  // ---------------------------------------------------------------- the object

  class MemoryBackend {
    var data: map<Bytes, Bytes>
    var subs: seq<nat>
    var chans: seq<Chan>
    var closed: bool
    var panicked: bool
    var version: nat

    ghost function View(): State
      reads this
    {
      State(data, subs, chans, closed, version, panicked)
    }

    ghost predicate Valid()
      reads this
    {
      Inv(View())
    }

    constructor ()
      ensures Valid() && View() == EMPTY
    {
      data, subs, chans, closed, version, panicked := map[], [], [], false, 0, false;
    }

    method NotifyAll()
      modifies this`chans, this`panicked
      ensures View() == SendAll(old(View()), subs)
    {
      for i := 0 to |subs|
        invariant View() == SendAll(old(View()), subs[..i])
      {
        assert subs[..i + 1][..i] == subs[..i];
        var id := subs[i];
        if id < |chans| && chans[id].closes == 0 {
          chans := chans[id := Chan(true, 0, chans[id].seen)];
        } else {
          panicked := true;
        }
      }
      assert subs[..|subs|] == subs;
    }

    method Put(k: Bytes, v: Bytes)
      requires Valid()
      modifies this
      ensures Valid() && View() == Step(old(View()), Op.Put(k, v))
    {
      StepKeeps(View(), Op.Put(k, v));
      if closed { return; }
      data, version := data[k := v], version + 1;
      NotifyAll();
    }

    method PutAll(entries: map<Bytes, Bytes>)
      requires Valid()
      modifies this
      ensures Valid() && View() == Step(old(View()), Op.PutAll(entries))
    {
      StepKeeps(View(), Op.PutAll(entries));
      if closed { return; }
      data, version := data + entries, version + 1;
      NotifyAll();
    }

    method Delete(k: Bytes)
      requires Valid()
      modifies this
      ensures Valid() && View() == Step(old(View()), Op.Delete(k))
    {
      StepKeeps(View(), Op.Delete(k));
      if closed || k !in data { return; }
      data, version := data - {k}, version + 1;
      NotifyAll();
    }

    /** Watch returns a fresh channel, which is already closed when the backend is. */
    method Watch() returns (id: nat)
      requires Valid()
      modifies this
      ensures Valid() && View() == Step(old(View()), Op.Watch)
      ensures id == |old(chans)| && (Open(View(), id) <==> !closed)
    {
      StepKeeps(View(), Op.Watch);
      id := |chans|;
      if closed {
        chans := chans + [Chan(false, 1, version)];
      } else {
        chans := chans + [Chan(false, 0, version)];
        subs := subs + [id];
      }
    }

    method Position(id: nat) returns (i: nat)
      ensures i == Find(subs, id)
    {
      for k := 0 to |subs|
        invariant id !in subs[..k]
      {
        if subs[k] == id {
          FindFirst(subs, id, k);
          return k;
        }
      }
      FindNone(subs, id);
      return |subs|;
    }

    method CloseChannel(id: nat)
      modifies this`chans, this`panicked
      ensures View() == Shut(old(View()), id)
    {
      if id >= |chans| {
        panicked := true;
      } else {
        panicked := panicked || chans[id].closes > 0;
        chans := chans[id := chans[id].(closes := chans[id].closes + 1)];
      }
    }

    /** The goroutine that waits for a subscription's context: drops the channel from the list and closes
        it, unless it is gone already. */
    method Cancel(id: nat)
      requires Valid()
      modifies this
      ensures Valid() && View() == Step(old(View()), Op.Cancel(id))
    {
      StepKeeps(View(), Op.Cancel(id));
      var i := Position(id);
      if i < |subs| {
        subs := Without(subs, i);
        CloseChannel(id);
      }
    }

    method Close()
      requires Valid()
      modifies this
      ensures Valid() && View() == Step(old(View()), Op.Close)
    {
      StepKeeps(View(), Op.Close);
      if closed { return; }
      closed := true;
      CloseAll();
    }

    /** The loop of Close over the subscriptions. */
    method CloseAll()
      modifies this`chans, this`panicked, this`subs
      ensures View() == ShutAll(old(View()), old(subs)).(subs := [])
    {
      for i := 0 to |subs|
        invariant subs == old(subs) && View() == ShutAll(old(View()), subs[..i])
      {
        assert subs[..i + 1][..i] == subs[..i];
        CloseChannel(subs[i]);
      }
      assert subs[..|subs|] == subs;
      subs := [];
    }
  }

  lemma {:induction false} FindFirst(ids: seq<nat>, id: nat, i: nat)
    requires i < |ids| && ids[i] == id && id !in ids[..i]
    ensures Find(ids, id) == i
  {}

  lemma {:induction false} FindNone(ids: seq<nat>, id: nat)
    requires id !in ids
    ensures Find(ids, id) == |ids|
  {}
}
