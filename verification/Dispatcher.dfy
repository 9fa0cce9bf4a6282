// The ordered dispatcher of RemoteEndPoint::Data: notifications run one at a
// time on one thread, and a request is parked behind the last ordered
// notification that was accepted before it (its gate).
module Dispatch {
  import opened Base

  datatype Parked = Parked(gate: nat, sequence: nat)

  /** Where the notification thread stands. */
  datatype Worker =
    | Idle
    | Running(sequence: nat)      // inside the notification handler
    | Returned(sequence: nat)     // handler returned, completion not yet published
    | Releasing(batch: seq<nat>)  // posting the requests it has just released

  datatype Dispatcher = Dispatcher(
    queue: seq<nat>,
    parked: seq<Parked>,
    stopped: bool,
    last: Option<nat>,
    completed: Option<nat>,
    worker: Worker)

  datatype Verdict = PostNow | Park | Overloaded

  const Fresh := Dispatcher([], [], false, None, None, Idle)

  predicate GateSatisfied(d: Dispatcher, gate: nat) {
    d.completed.Some? && d.completed.value >= gate
  }

  predicate AtLimit(size: nat, limit: nat) {
    limit != 0 && size >= limit
  }

  /** Accepting a notification moves the gate; a full or stopped queue refuses it. */
  function EnqueueNotification(d: Dispatcher, sequence: nat, limit: nat): (r: (Dispatcher, bool))
  {
    if d.stopped || AtLimit(|d.queue|, limit) then
      (d, false)
    else
      (d.(last := Some(sequence), queue := d.queue + [sequence]), true)
  }

  function EnqueueRequest(d: Dispatcher, sequence: nat, limit: nat): (r: (Dispatcher, Verdict)) {
    if !d.stopped && d.last.Some? && !GateSatisfied(d, d.last.value) then
      if AtLimit(|d.parked|, limit) then
        (d, Overloaded)
      else
        (d.(parked := d.parked + [Parked(d.last.value, sequence)]), Park)
    else
      (d, PostNow)
  }

  function Take(d: Dispatcher): (r: Dispatcher)
    requires d.worker.Idle? && d.queue != []
  {
    d.(worker := Running(d.queue[0]), queue := d.queue[1..])
  }

  /** Requests whose gate is now satisfied, in parking order. */
  function Ready(parked: seq<Parked>, completed: nat): (r: seq<nat>) {
    if parked == [] then []
    else if parked[0].gate <= completed then [parked[0].sequence] + Ready(parked[1..], completed)
    else Ready(parked[1..], completed)
  }

  function StillParked(parked: seq<Parked>, completed: nat): (r: seq<Parked>) {
    if parked == [] then []
    else if parked[0].gate <= completed then StillParked(parked[1..], completed)
    else [parked[0]] + StillParked(parked[1..], completed)
  }

  /** Publishing a completion releases every request whose gate it satisfies. */
  function Complete(d: Dispatcher): (r: Dispatcher)
    requires d.worker.Returned?
  {
    var n := d.worker.sequence;
    d.(completed := Some(n), parked := StillParked(d.parked, n), worker := Releasing(Ready(d.parked, n)))
  }

  function Stop(d: Dispatcher): (r: Dispatcher) {
    d.(stopped := true, queue := [], parked := [])
  }

  function Sequences(parked: seq<Parked>): (r: seq<nat>)
    ensures |r| == |parked|
    ensures forall i :: 0 <= i < |r| ==> r[i] == parked[i].sequence
  {
    seq(|parked|, i requires 0 <= i < |parked| => parked[i].sequence)
  }

  // -- What the dispatcher keeps -------------------------------------------------

  /** Accepted notifications whose completion has not been published. */
  function Active(d: Dispatcher): seq<nat> {
    (if d.worker.Running? || d.worker.Returned? then [d.worker.sequence] else []) + d.queue
  }

  ghost predicate GatesSorted(parked: seq<Parked>) {
    forall i, j :: 0 <= i <= j < |parked| ==> parked[i].gate <= parked[j].gate
  }

  ghost predicate GatesIn(parked: seq<Parked>, active: seq<nat>) {
    forall i :: 0 <= i < |parked| ==> parked[i].gate in active
  }

  ghost predicate Inv(d: Dispatcher) {
    var active := Active(d);
    if d.stopped then
      d.queue == [] && d.parked == []
    else
      && Increasing(active)
      && (d.completed.Some? ==> forall i :: 0 <= i < |active| ==> d.completed.value < active[i])
      && (if active == [] then d.last == d.completed else d.last == Some(active[|active| - 1]))
      && GatesSorted(d.parked)
      && GatesIn(d.parked, active)
  }

  /** Each parked request waits for a notification that is queued or in flight, so
      with nothing queued or in flight nothing is parked. */
  lemma NothingStranded(d: Dispatcher)
    requires Inv(d)
    ensures GatesSorted(d.parked) && GatesIn(d.parked, Active(d))
    ensures Active(d) == [] ==> d.parked == []
  {
    assert d.parked != [] ==> d.parked[0].gate in Active(d);
  }

  /** The gate test at routing time is exact: a request waits if and only if an
      accepted notification is still queued or in flight. */
  lemma ParksExactlyBehindActive(d: Dispatcher)
    requires Inv(d) && !d.stopped
    ensures (d.last.Some? && !GateSatisfied(d, d.last.value)) <==> Active(d) != []
  {
    var active := Active(d);
    if active != [] {
      assert d.last == Some(active[|active| - 1]);
    }
  }

  lemma {:induction false} NoneReady(parked: seq<Parked>, completed: nat)
    requires forall i :: 0 <= i < |parked| ==> parked[i].gate > completed
    ensures Ready(parked, completed) == [] && StillParked(parked, completed) == parked
  {
    if parked != [] {
      NoneReady(parked[1..], completed);
    }
  }

  /** With sorted gates each release takes a prefix of the parked list. */
  lemma {:induction false} ReleaseIsPrefix(parked: seq<Parked>, completed: nat) returns (k: nat)
    requires GatesSorted(parked)
    ensures k <= |parked|
    ensures Ready(parked, completed) == Sequences(parked[..k])
    ensures StillParked(parked, completed) == parked[k..]
    ensures forall i :: 0 <= i < k ==> parked[i].gate <= completed
    ensures forall i :: k <= i < |parked| ==> parked[i].gate > completed
  {
    if parked == [] || parked[0].gate > completed {
      k := 0;
      NoneReady(parked, completed);
    } else {
      var tail := parked[1..];
      var j := ReleaseIsPrefix(tail, completed);
      k := j + 1;
      assert parked[k..] == tail[j..];
      assert Sequences(parked[..k]) == [parked[0].sequence] + Sequences(tail[..j]);
      assert forall i :: 0 < i < |parked| ==> parked[i] == tail[i - 1];
    }
  }

  lemma NotificationKeepsInv(d: Dispatcher, sequence: nat, limit: nat)
    requires Inv(d) && Below(Active(d), sequence)
    requires d.completed.Some? ==> d.completed.value < sequence
    ensures Inv(EnqueueNotification(d, sequence, limit).0)
  {
    var (d', accepted) := EnqueueNotification(d, sequence, limit);
    if accepted {
      assert Active(d') == Active(d) + [sequence];
      forall i | 0 <= i < |d'.parked| ensures d'.parked[i].gate in Active(d') {
        assert d.parked[i].gate in Active(d);
      }
    }
  }

  lemma RequestKeepsInv(d: Dispatcher, sequence: nat, limit: nat)
    requires Inv(d)
    ensures Inv(EnqueueRequest(d, sequence, limit).0)
  {
    var (d', verdict) := EnqueueRequest(d, sequence, limit);
    if verdict.Park? {
      ParksExactlyBehindActive(d);
      var active := Active(d);
      assert Active(d') == active;
      forall i | 0 <= i < |d.parked| ensures d.parked[i].gate <= d.last.value {
        var k :| 0 <= k < |active| && active[k] == d.parked[i].gate;
      }
    }
  }

  lemma TakeKeepsInv(d: Dispatcher)
    requires Inv(d) && d.worker.Idle? && d.queue != []
    ensures Inv(Take(d)) && Active(Take(d)) == Active(d)
  {
    assert Active(Take(d)) == Active(d);
  }

  lemma CompleteKeepsInv(d: Dispatcher) returns (k: nat)
    requires Inv(d) && d.worker.Returned?
    ensures Inv(Complete(d))
    ensures k <= |d.parked|
    ensures Complete(d).worker.batch == Sequences(d.parked[..k]) && Complete(d).parked == d.parked[k..]
    ensures forall i :: 0 <= i < k ==> d.parked[i].gate <= d.worker.sequence
  {
    var n := d.worker.sequence;
    var d' := Complete(d);
    if d.stopped {
      k := 0;
    } else {
      k := ReleaseIsPrefix(d.parked, n);
      RetiredFront(d, k, Sequences(d.parked[..k]));
    }
  }

  lemma RetiredFront(d: Dispatcher, k: nat, batch: seq<nat>)
    requires Inv(d) && d.worker.Returned? && !d.stopped && k <= |d.parked|
    requires forall i :: k <= i < |d.parked| ==> d.parked[i].gate > d.worker.sequence
    ensures Inv(d.(completed := Some(d.worker.sequence), parked := d.parked[k..], worker := Releasing(batch)))
  {
    var d' := d.(completed := Some(d.worker.sequence), parked := d.parked[k..], worker := Releasing(batch));
    var n, active := d.worker.sequence, Active(d);
    assert active == [n] + d.queue;
    assert Active(d') == d.queue;
    FrontOfIncreasing(n, d.queue);
    GatesSurvive(d.parked, k, n, d.queue);
    assert d.queue != [] ==> active[|active| - 1] == d.queue[|d.queue| - 1];
  }

  lemma FrontOfIncreasing(n: nat, queue: seq<nat>)
    requires Increasing([n] + queue)
    ensures Increasing(queue)
    ensures forall i :: 0 <= i < |queue| ==> n < queue[i]
  {
    var active := [n] + queue;
    forall i | 0 <= i < |queue| ensures active[i + 1] == queue[i] && n < queue[i] {
      assert active[0] < active[i + 1];
    }
  }

  lemma GatesSurvive(parked: seq<Parked>, k: nat, n: nat, queue: seq<nat>)
    requires k <= |parked| && GatesSorted(parked) && GatesIn(parked, [n] + queue)
    requires forall i :: k <= i < |parked| ==> parked[i].gate > n
    ensures GatesSorted(parked[k..]) && GatesIn(parked[k..], queue)
  {
    var rest := parked[k..];
    forall i | 0 <= i < |rest| ensures rest[i].gate in queue {
      assert rest[i] == parked[k + i] && parked[k + i].gate in [n] + queue;
    }
  }

  // -- The mutable object --------------------------------------------------------

  /** The state RemoteEndPoint::Data guards with ordered_mutex, plus the position
      of the notification thread. */
  class OrderedDispatcher {
    var notificationQueue: seq<nat>
    var parkedRequests: seq<Parked>
    var notificationStop: bool
    var hasLastOrdered: bool
    var lastOrdered: nat
    var hasCompleted: bool
    var completed: nat
    var worker: Worker

    function Model(): Dispatcher
      reads this
    {
      Dispatcher(notificationQueue, parkedRequests, notificationStop,
                 if hasLastOrdered then Some(lastOrdered) else None,
                 if hasCompleted then Some(completed) else None,
                 worker)
    }

    constructor ()
      ensures Model() == Fresh
    {
      notificationQueue, parkedRequests, notificationStop := [], [], false;
      hasLastOrdered, lastOrdered, hasCompleted, completed, worker := false, 0, false, 0, Idle;
    }

    method NotificationArrives(sequence: nat, limit: nat) returns (accepted: bool)
      modifies this
      ensures (Model(), accepted) == old(EnqueueNotification(Model(), sequence, limit))
    {
      if notificationStop {
        return false;
      }
      if limit != 0 && |notificationQueue| >= limit {
        return false;
      }
      hasLastOrdered := true;
      lastOrdered := sequence;
      notificationQueue := notificationQueue + [sequence];
      return true;
    }

    method RequestArrives(sequence: nat, limit: nat) returns (verdict: Verdict)
      modifies this
      ensures (Model(), verdict) == old(EnqueueRequest(Model(), sequence, limit))
    {
      verdict := PostNow;
      if !notificationStop && hasLastOrdered && !(hasCompleted && completed >= lastOrdered) {
        if limit != 0 && |parkedRequests| >= limit {
          verdict := Overloaded;
        } else {
          parkedRequests := parkedRequests + [Parked(lastOrdered, sequence)];
          verdict := Park;
        }
      }
    }

    method TakeNext()
      requires worker.Idle? && notificationQueue != []
      modifies this
      ensures Model() == old(Take(Model()))
    {
      worker := Running(notificationQueue[0]);
      notificationQueue := notificationQueue[1..];
    }

    /** The critical section after a handler has returned, with the erasing loop
        of releaseParkedRequestsLocked. */
    method PublishCompletion()
      requires worker.Returned?
      modifies this
      ensures Model() == old(Complete(Model()))
    {
      hasCompleted := true;
      completed := worker.sequence;
      var ready: seq<nat> := [];
      var i := 0;
      ghost var n, all := completed, parkedRequests;
      while i < |parkedRequests|
        invariant 0 <= i <= |parkedRequests|
        invariant Ready(all, n) == ready + Ready(parkedRequests[i..], n)
        invariant StillParked(all, n) == parkedRequests[..i] + StillParked(parkedRequests[i..], n)
        invariant hasCompleted && worker.Returned? && completed == n == worker.sequence
        invariant unchanged(this`notificationQueue) && unchanged(this`notificationStop)
        invariant unchanged(this`hasLastOrdered) && unchanged(this`lastOrdered) && unchanged(this`worker)
        decreases |parkedRequests| - i
      {
        var p := parkedRequests[i];
        ghost var rest := parkedRequests[i + 1..];
        assert parkedRequests[i..] == [p] + rest;
        assert parkedRequests[i..][1..] == rest;
        if hasCompleted && completed >= p.gate {
          ready := ready + [p.sequence];
          ghost var front := parkedRequests[..i];
          parkedRequests := parkedRequests[..i] + parkedRequests[i + 1..];
          assert parkedRequests[..i] == front && parkedRequests[i..] == rest;
        } else {
          i := i + 1;
        }
      }
      assert parkedRequests[i..] == [] && parkedRequests[..i] + [] == parkedRequests && ready + [] == ready;
      worker := Releasing(ready);
    }

    method StopDispatching()
      modifies this
      ensures Model() == old(Stop(Model()))
    {
      notificationStop := true;
      notificationQueue := [];
      parkedRequests := [];
    }
  }
}
