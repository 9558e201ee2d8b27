/** A bounded event channel that drops when full and counts what it dropped: the emit of the watch engine
    (watch.go) and of Live (live.go). */
module EventQueue {

  /** An event on the channel, with the number its drop warning states (0 when it carries none). */
  datatype Sent<P> = Sent(payload: P, drops: nat)

  /** received and log record history: what readers took, and every event ever emitted. */
  datatype Queue<P> = Queue(capacity: nat, waiting: seq<Sent<P>>, dropped: nat, received: seq<Sent<P>>, log: seq<P>)

  function Empty<P>(capacity: nat): Queue<P> {
    Queue(capacity, [], 0, [], [])
  }

  /** A send that does not block. The count rides on the first event that gets through. */
  function Emit<P>(q: Queue<P>, p: P): Queue<P> {
    if |q.waiting| < q.capacity
    then q.(waiting := q.waiting + [Sent(p, q.dropped)], dropped := 0, log := q.log + [p])
    else q.(dropped := q.dropped + 1, log := q.log + [p])
  }

  function Take<P>(q: Queue<P>): Queue<P> {
    if q.waiting == [] then q else q.(waiting := q.waiting[1..], received := q.received + [q.waiting[0]])
  }

  /** The drops that the events report together. */
  function Drops<P>(sent: seq<Sent<P>>): nat {
    if sent == [] then 0 else Drops(sent[..|sent| - 1]) + sent[|sent| - 1].drops
  }

  function Delivered<P>(q: Queue<P>): seq<Sent<P>> {
    q.received + q.waiting
  }

  /** Where in the log the k-th delivered event sits, going by the warnings alone. */
  function Place<P>(sent: seq<Sent<P>>, k: nat): nat
    requires k < |sent|
  {
    k + Drops(sent[..k + 1])
  }

  /** sent are events of log, each at its place. */
  ghost predicate Placed<P>(sent: seq<Sent<P>>, log: seq<P>) {
    forall k | 0 <= k < |sent| :: Place(sent, k) < |log| && sent[k].payload == log[Place(sent, k)]
  }

  /** Every emitted event is delivered, reported as dropped by a later one, or still counted; and the
      reported numbers tell exactly which events are missing. */
  ghost predicate Accounts<P>(q: Queue<P>) {
    var sent := Delivered(q);
    |q.log| == |sent| + Drops(sent) + q.dropped && Placed(sent, q.log)
  }

  /** An event is dropped only when the channel is full; otherwise it is the last one waiting and tells of
      every drop before it. Either way it is logged. */
  lemma {:induction false} EmitDelivers<P>(q: Queue<P>, p: P)
    ensures var r := Emit(q, p);
      && r.capacity == q.capacity && r.received == q.received && r.log == q.log + [p]
      && (|q.waiting| < q.capacity ==>
           && |r.waiting| == |q.waiting| + 1 && q.waiting <= r.waiting && r.dropped == 0
           && r.waiting[|q.waiting|].payload == p && r.waiting[|q.waiting|].drops == q.dropped)
      && (|q.waiting| >= q.capacity ==> r.waiting == q.waiting && r.dropped == q.dropped + 1)
  {}

  /** A reader takes the oldest event. */
  lemma {:induction false} TakeIsOldest<P>(q: Queue<P>)
    ensures var r := Take(q);
      && r.capacity == q.capacity && r.dropped == q.dropped && r.log == q.log
      && (q.waiting == [] ==> r == q)
      && (q.waiting != [] ==>
           && |r.received| == |q.received| + 1 && q.received <= r.received
           && r.received[|q.received|] == q.waiting[0] && [q.waiting[0]] + r.waiting == q.waiting)
  {}

  lemma {:induction false} PlacedMore<P>(sent: seq<Sent<P>>, log: seq<P>, p: P, drops: nat)
    requires Placed(sent, log) && |log| == |sent| + Drops(sent) + drops
    ensures Placed(sent + [Sent(p, drops)], log + [p])
    ensures Drops(sent + [Sent(p, drops)]) == Drops(sent) + drops
  {
    var more := sent + [Sent(p, drops)];
    assert more[..|sent|] == sent && more[..|sent| + 1] == more;
    forall k | 0 <= k < |more| ensures Place(more, k) < |log + [p]| && more[k].payload == (log + [p])[Place(more, k)] {
      if k < |sent| { assert more[..k + 1] == sent[..k + 1] && Place(more, k) == Place(sent, k); }
    }
  }

  lemma {:induction false} EmitAccounts<P>(q: Queue<P>, p: P)
    requires Accounts(q)
    ensures Accounts(Emit(q, p))
  {
    var sent, r := Delivered(q), Emit(q, p);
    if |q.waiting| < q.capacity {
      PlacedMore(sent, q.log, p, q.dropped);
      assert Delivered(r) == sent + [Sent(p, q.dropped)];
    }
  }

  lemma {:induction false} TakeAccounts<P>(q: Queue<P>)
    requires Accounts(q)
    ensures Accounts(Take(q)) && Delivered(Take(q)) == Delivered(q)
  {
    if q.waiting != [] {
      assert q.waiting == [q.waiting[0]] + q.waiting[1..];
      assert Delivered(Take(q)) == Delivered(q);
    }
  }
}
