/** How much a cycle can have in flight, and that what is in flight gets done. */
module PipelineTraffic {
  import opened Pipeline
  import opened PipelineSafety
  import opened PipelineResults
  import opened PipelineTrails
  import opened TeardownPlan

  // ---------------------------------------------------------------- at most this much

  lemma {:induction false} HeldSize(workers: seq<Worker>)
    ensures |Held(workers)| <= |workers|
  {
    if workers != [] { HeldSize(workers[1..]); }
  }

  lemma {:induction false} UpToSize(n: nat)
    ensures |UpTo(n)| == n
  {
    if n > 0 { UpToSize(n - 1); }
  }

  /** The messages that have arrived and are neither finished nor dropped fit the callback, the queue
      and the workers. */
  lemma InFlightBound(env: Env, plan: seq<Op>, workers: nat, capacity: nat, stopped: bool, before: nat, run: seq<Event>)
    requires env.barrier && IsPlan(plan) && Sound(plan)
    requires Legal(env, Start(plan, workers, capacity, stopped, before), run)
    ensures var t := After(env, Start(plan, workers, capacity, stopped, before), run).t;
            t.arrived - |t.finished| - |t.dropped| <= 1 + capacity + workers
  {
    EveryMessageAccountedFor(env, plan, workers, capacity, stopped, before, run);
    StartInv(plan, workers, capacity, stopped, before);
    RunKeepsInv(env, Start(plan, workers, capacity, stopped, before), run);
    var t := After(env, Start(plan, workers, capacity, stopped, before), run).t;
    HeldSize(t.workers);
    UpToSize(t.arrived);
    SizesAddUp(t);
  }

  lemma SizesAddUp(t: Traffic)
    requires OrderInv(t) && CountInv(t)
    ensures |UpTo(t.arrived)| == |t.finished| + |Held(t.workers)| + |t.queue| + |t.dropped| + |Pending(t.callback)|
  {
    assert |multiset(t.taken)| == |multiset(t.finished)| + |Held(t.workers)|;
    assert |UpTo(t.arrived)| == |multiset(t.enqueued)| + |multiset(t.dropped)| + |Pending(t.callback)|;
  }

  // ---------------------------------------------------------------- and that much indeed

  function Nats(n: nat): seq<nat> { seq(n, i => i) }

  function Least(a: nat, b: nat): nat { if a < b then a else b }

  function Pool(workers: nat, k: nat): seq<Worker> { seq(workers, i requires 0 <= i < workers => if i < k then Busy(i, false) else Idle) }

  /** Traffic when k messages have come, each to the next idle worker, and the rest are queued. */
  function Filled(workers: nat, capacity: nat, k: nat): Traffic {
    var w := Least(k, workers);
    Traffic(Waiting, Nats(k)[w..], capacity, Pool(workers, k), 0, false, k, Nats(k), Nats(w), [], [])
  }

  lemma NatsMore(k: nat)
    ensures Nats(k + 1) == Nats(k) + [k]
  {
  }

  lemma PoolMore(workers: nat, k: nat)
    requires k < workers
    ensures Pool(workers, k)[k] == Idle && Pool(workers, k)[k := Busy(k, false)] == Pool(workers, k + 1)
  {
  }

  lemma PoolFull(workers: nat, k: nat)
    requires k >= workers
    ensures Pool(workers, k) == Pool(workers, k + 1)
  {
  }

  function OnceServing(plan: seq<Op>, stopped: bool): Control {
    Control(plan, Serving, Path(4), [Online], true, true, false, false, false, stopped)
  }

  lemma ReachServing(env: Env, plan: seq<Op>, workers: nat, capacity: nat, stopped: bool) returns (run: seq<Event>)
    ensures Legal(env, Start(plan, workers, capacity, stopped, 0), run)
    ensures After(env, Start(plan, workers, capacity, stopped, 0), run) == Cycle(OnceServing(plan, stopped), Filled(workers, capacity, 0))
  {
    var s := Start(plan, workers, capacity, stopped, 0);
    run := [OptionsBuilt(true)];
    assert run[1..] == [];
    Extend(env, s, run, ConnectEnds(Completed(true)));
    run := run + [ConnectEnds(Completed(true))];
    Extend(env, s, run, PublishEnds);
    run := run + [PublishEnds];
    Extend(env, s, run, SubscribeEnds(Completed(true)));
    run := run + [SubscribeEnds(Completed(true))];
    assert [StopWorkers] + [StopMqtt] + [ReleaseCallback] + [StopTimer] == Path(4);
    assert Pool(workers, 0) == s.t.workers && Nats(0) == [] && [] + [Online] == [Online];
  }

  /** The next message has reached the callback. */
  function Offered(workers: nat, capacity: nat, k: nat): Traffic {
    Filled(workers, capacity, k).(callback := Sending(k), arrived := k + 1)
  }

  lemma QueueLength(workers: nat, capacity: nat, k: nat)
    ensures |Filled(workers, capacity, k).queue| == if k < workers then 0 else k - workers
  {
  }

  /** And then the queue. */
  function Put(workers: nat, capacity: nat, k: nat): Traffic {
    Filled(workers, capacity, k).(arrived := k + 1, queue := Nats(k + 1)[Least(k, workers)..], enqueued := Nats(k + 1))
  }

  lemma PutOne(env: Env, c: Control, workers: nat, capacity: nat, k: nat)
    requires c.routed && c.attached && !c.closed && k < workers + capacity && capacity > 0
    ensures var s := Cycle(c, Filled(workers, capacity, k));
            Legal(env, s, [Arrive, Enqueue]) && After(env, s, [Arrive, Enqueue]) == Cycle(c, Put(workers, capacity, k))
  {
    var s := Cycle(c, Filled(workers, capacity, k));
    assert [Arrive, Enqueue][1..] == [Enqueue] && [Enqueue][1..] == [];
    assert Apply(env, s, Arrive) == Cycle(c, Offered(workers, capacity, k));
    QueueLength(workers, capacity, k);
    NatsMore(k);
    assert Nats(k)[Least(k, workers)..] + [k] == Nats(k + 1)[Least(k, workers)..];
  }

  lemma TakeOne(env: Env, c: Control, workers: nat, capacity: nat, k: nat)
    requires k < workers
    ensures TrafficReady(env, c, Put(workers, capacity, k), Take(k, false))
    ensures TrafficNext(env, c, Put(workers, capacity, k), Take(k, false)) == Filled(workers, capacity, k + 1)
  {
    PoolMore(workers, k);
    NatsMore(k);
    assert Put(workers, capacity, k).queue == [k] && Nats(k + 1)[k + 1..] == [];
  }

  /** One more message, taken by the next worker or queued. */
  lemma FillOne(env: Env, c: Control, workers: nat, capacity: nat, k: nat) returns (run: seq<Event>)
    requires c.routed && c.attached && !c.closed && k < workers + capacity && capacity > 0
    ensures Legal(env, Cycle(c, Filled(workers, capacity, k)), run)
    ensures After(env, Cycle(c, Filled(workers, capacity, k)), run) == Cycle(c, Filled(workers, capacity, k + 1))
  {
    run := [Arrive, Enqueue];
    PutOne(env, c, workers, capacity, k);
    if k < workers {
      TakeOne(env, c, workers, capacity, k);
      Extend(env, Cycle(c, Filled(workers, capacity, k)), run, Take(k, false));
      run := run + [Take(k, false)];
    } else {
      PoolFull(workers, k);
    }
  }

  lemma {:induction false} FillTo(env: Env, plan: seq<Op>, workers: nat, capacity: nat, stopped: bool, k: nat) returns (run: seq<Event>)
    requires capacity > 0 && k <= workers + capacity
    ensures Legal(env, Start(plan, workers, capacity, stopped, 0), run)
    ensures After(env, Start(plan, workers, capacity, stopped, 0), run) == Cycle(OnceServing(plan, stopped), Filled(workers, capacity, k))
    decreases k
  {
    if k == 0 {
      run := ReachServing(env, plan, workers, capacity, stopped);
    } else {
      run := FillTo(env, plan, workers, capacity, stopped, k - 1);
      var more := FillOne(env, OnceServing(plan, stopped), workers, capacity, k - 1);
      Chain(env, Start(plan, workers, capacity, stopped, 0), run, more);
      run := run + more;
    }
  }

  /** The callback holds a message and nothing that the callback or a worker does can take it off. */
  predicate Blocked(env: Env, s: Cycle) {
    s.t.callback.Sending? && !Enabled(env, s, Arrive) && !Enabled(env, s, Enqueue) && !Enabled(env, s, Drop) && !Enabled(env, s, SendOnClosed)
  }

  /** The bound is reached: while it serves, a cycle has every worker busy and the queue filled up to its
      capacity before the callback blocks, and none of its messages is lost. */
  lemma BackPressureOnlyWhenFull(env: Env, plan: seq<Op>, workers: nat, capacity: nat, stopped: bool) returns (run: seq<Event>)
    requires capacity > 0
    ensures Legal(env, Start(plan, workers, capacity, stopped, 0), run)
    ensures var s := After(env, Start(plan, workers, capacity, stopped, 0), run);
            && s.c.pc.Serving? && Blocked(env, s) && s.t.arrived == workers + capacity + 1
            && |s.t.queue| == capacity && s.t.finished == [] && s.t.dropped == []
            && |s.t.workers| == workers && forall w :: 0 <= w < workers ==> s.t.workers[w].Busy?
  {
    run := FillTo(env, plan, workers, capacity, stopped, workers + capacity);
    QueueLength(workers, capacity, workers + capacity);
    Extend(env, Start(plan, workers, capacity, stopped, 0), run, Arrive);
    run := run + [Arrive];
  }

  // ---------------------------------------------------------------- what is in flight gets done

  /** No worker has left while the cycle serves. */
  predicate Staffed(s: Cycle) {
    !s.c.cancelled && !s.c.closed ==> forall w :: 0 <= w < |s.t.workers| ==> !s.t.workers[w].Exited?
  }

  lemma {:induction false} RunKeepsStaff(env: Env, s: Cycle, run: seq<Event>)
    requires Staffed(s) && Legal(env, s, run)
    ensures Staffed(After(env, s, run))
    decreases |run|
  {
    if run != [] {
      RunKeepsStaff(env, Apply(env, s, run[0]), run[1..]);
    }
  }

  predicate NoneHung(t: Traffic) { forall w :: 0 <= w < |t.workers| && t.workers[w].Busy? ==> !t.workers[w].hung }

  /** Only the callback and the workers act, on what has arrived. */
  predicate Inside(run: seq<Event>) { forall e :: e in run ==> e.Enqueue? || e.Take? || e.Finish? }

  predicate AtEase(t: Traffic) { t.callback.Waiting? && t.queue == [] && forall w :: 0 <= w < |t.workers| ==> t.workers[w].Idle? }

  /** What to do next, short of being at ease. */
  lemma NextInside(env: Env, s: Cycle) returns (e: Event)
    requires s.c.pc.Serving? && !s.t.crashed && !s.c.closed && Staffed(s) && !s.c.cancelled && NoneHung(s.t)
    requires |s.t.workers| > 0 && s.t.capacity > 0 && !AtEase(s.t)
    ensures Enabled(env, s, e) && (e.Enqueue? || e.Finish? || (e.Take? && !e.hangs))
  {
    if w :| 0 <= w < |s.t.workers| && s.t.workers[w].Busy? {
      e := Finish(w);
    } else if s.t.queue != [] {
      e := Take(0, false);
    } else {
      e := Enqueue;
    }
  }

  /** While it serves, a cycle whose commands all end can bring everything that has arrived to its end,
      with no more help than from its callback and its workers. */
  lemma {:induction false} ServingFinishes(env: Env, s: Cycle) returns (run: seq<Event>)
    requires s.c.pc.Serving? && !s.t.crashed && !s.c.closed && Staffed(s) && !s.c.cancelled && NoneHung(s.t)
    requires |s.t.workers| > 0 && s.t.capacity > 0
    ensures Legal(env, s, run) && Inside(run) && AtEase(After(env, s, run).t)
    ensures var s' := After(env, s, run); s'.c == s.c && s'.t.arrived == s.t.arrived && s'.t.dropped == s.t.dropped
    decreases TrafficMeasure(s.t)
  {
    run := [];
    if !AtEase(s.t) {
      var e := NextInside(env, s);
      TrafficStepMeasure(env, s.c, s.t, e);
      var rest := ServingFinishes(env, Apply(env, s, e));
      run := [e] + rest;
      assert run[1..] == rest;
    }
  }

  lemma AtEaseHoldsNothing(t: Traffic)
    requires OrderInv(t) && CountInv(t) && AtEase(t) && t.dropped == []
    ensures forall m: nat :: m in t.finished <==> m < t.arrived
  {
    IdleHoldNothing(t.workers);
    PlacesCount(t);
    assert Places(t) == multiset(t.finished);
    forall m: nat ensures m in t.finished <==> m < t.arrived {
      assert m in t.finished <==> multiset(t.finished)[m] > 0;
      assert Places(t)[m] == if m < t.arrived then 1 else 0;
    }
  }

  lemma {:induction false} IdleHoldNothing(workers: seq<Worker>)
    requires forall w :: 0 <= w < |workers| ==> workers[w].Idle?
    ensures Held(workers) == multiset{}
  {
    if workers != [] {
      assert forall w :: 0 <= w < |workers[1..]| ==> workers[1..][w] == workers[w + 1];
      IdleHoldNothing(workers[1..]);
    }
  }

  /** From wherever a run has got to, as long as the cycle serves and its commands end: exactly what has
      arrived can be finished, by the callback and the workers alone. */
  lemma WhatArrivesCanBeFinished(env: Env, plan: seq<Op>, workers: nat, capacity: nat, stopped: bool, before: nat, run: seq<Event>)
    returns (more: seq<Event>)
    requires env.barrier && IsPlan(plan) && Sound(plan) && workers > 0 && capacity > 0
    requires Legal(env, Start(plan, workers, capacity, stopped, before), run)
    requires var s := After(env, Start(plan, workers, capacity, stopped, before), run); s.c.pc.Serving? && NoneHung(s.t)
    ensures Inside(more)
    ensures var s := After(env, Start(plan, workers, capacity, stopped, before), run);
            Legal(env, s, more) && forall m: nat :: m in After(env, s, more).t.finished <==> m < s.t.arrived
  {
    var s0 := Start(plan, workers, capacity, stopped, before);
    StartInv(plan, workers, capacity, stopped, before);
    RunKeepsInv(env, s0, run);
    RunKeepsStaff(env, s0, run);
    RunKeepsShape(env, s0, run);
    var s := After(env, s0, run);
    more := ServingFinishes(env, s);
    RunKeepsInv(env, s, more);
    AtEaseHoldsNothing(After(env, s, more).t);
  }

  // ---------------------------------------------------------------- during a teardown

  /** A worker that has not left and can end what it is at. */
  predicate AtWork(env: Env, s: Cycle, w: nat) {
    w < |s.t.workers| && !s.t.workers[w].Exited? && (s.t.workers[w].Busy? && s.t.workers[w].hung ==> s.c.cancelled && env.heedsCancel)
  }

  /** Whatever the control: as long as one such worker is left, everything queued can still be run. */
  lemma {:induction false} QueuedCanStillBeRun(env: Env, s: Cycle, w: nat) returns (run: seq<Event>)
    requires !s.t.crashed && AtWork(env, s, w)
    ensures Legal(env, s, run) && (forall e :: e in run ==> e.Take? || e.Finish?)
    ensures var s' := After(env, s, run); s'.c == s.c && s'.t.queue == [] && w < |s'.t.workers| && s'.t.workers[w].Idle?
    ensures After(env, s, run).t.finished == s.t.finished + (if s.t.workers[w].Busy? then [s.t.workers[w].msg] else []) + s.t.queue
    decreases TrafficMeasure(s.t)
  {
    run := [];
    if s.t.workers[w].Busy? || s.t.queue != [] {
      var e := if s.t.workers[w].Busy? then Finish(w) else Take(w, false);
      TrafficStepMeasure(env, s.c, s.t, e);
      var rest := QueuedCanStillBeRun(env, Apply(env, s, e), w);
      run := [e] + rest;
      assert run[1..] == rest;
    }
  }

  // ---------------------------------------------------------------- when messages may come

  lemma MainOpens(c: Control, e: Event)
    requires MainReady(c, e)
    ensures MainNext(c, e).routed <==> c.routed || e == PublishEnds
  {
    MainSchedules(c, e);
    if !Returning(MainNext(c, e)) {
      match e
      case OptionsBuilt(_) =>
      case ConnectEnds(_) =>
      case PublishEnds =>
      case SubscribeEnds(_) =>
      case ServeEnds(_) =>
    }
  }

  /** The flags that teardown operations set. */
  predicate Sets(c: Control, op: Op) {
    match op
    case CloseDraining => c.draining
    case CancelCommands => c.cancelled
    case CloseQueue => c.closed
    case Disconnect => !c.attached
    case _ => true
  }

  lemma TearDownSets(c: Control)
    requires c.pc.Unwinding? && c.pc.todo != []
    ensures forall op :: Sets(TornDown(c), op) <==> Sets(c, op) || c.pc.todo[0] == op
    ensures TornDown(c).routed == c.routed
  {
  }

  lemma SameSets(c: Control, c': Control)
    requires SameFlags(c, c')
    ensures forall op :: Sets(c', op) <==> Sets(c, op)
  {
  }

  lemma StepOpen(env: Env, s: Cycle, e: Event)
    requires Enabled(env, s, e)
    ensures Apply(env, s, e).c.routed <==> s.c.routed || e == PublishEnds
    ensures forall op :: Sets(Apply(env, s, e).c, op) <==> Sets(s.c, op) || (e.TearDown? && s.c.pc.todo[0] == op)
  {
    if MainEvent(e) {
      MainSchedules(s.c, e);
      MainOpens(s.c, e);
      SameSets(s.c, MainNext(s.c, e));
    } else if e.TearDown? {
      TearDownSets(s.c);
    } else {
      SameSets(s.c, Apply(env, s, e).c);
    }
  }

  /** The callback is installed by the subscribe, and each flag is set by its operation. */
  lemma {:induction false} RunOpen(env: Env, s: Cycle, run: seq<Event>)
    requires Legal(env, s, run)
    ensures After(env, s, run).c.routed <==> s.c.routed || PublishEnds in run
    ensures forall op :: Sets(After(env, s, run).c, op) <==> Sets(s.c, op) || op in Performed(env, s, run)
    decreases |run|
  {
    if run != [] {
      StepOpen(env, s, run[0]);
      RunOpen(env, Apply(env, s, run[0]), run[1..]);
      assert run == [run[0]] + run[1..];
    }
  }

  /** Given the barrier, a message can come exactly from the moment the cycle subscribes, before the broker has
      answered, until it has disconnected, whenever the callback is not at another; and one that the callback
      holds can be queued as long as there is room, or dropped once the teardown has released the callback. */
  lemma TrafficExactlyWhileOpen(env: Env, plan: seq<Op>, workers: nat, capacity: nat, stopped: bool, before: nat, run: seq<Event>)
    requires env.barrier && IsPlan(plan) && Sound(plan) && Legal(env, Start(plan, workers, capacity, stopped, before), run)
    ensures var s0 := Start(plan, workers, capacity, stopped, before);
            var s, done := After(env, s0, run), Performed(env, s0, run);
            && (Enabled(env, s, Arrive) <==> PublishEnds in run && Disconnect !in done && s.t.callback.Waiting?)
            && (Enabled(env, s, Enqueue) <==> s.t.callback.Sending? && |s.t.queue| < capacity)
            && (Enabled(env, s, Drop) <==> s.t.callback.Sending? && CloseDraining in done)
  {
    var s0 := Start(plan, workers, capacity, stopped, before);
    RunOpen(env, s0, run);
    RunKeepsShape(env, s0, run);
    NoSendOnClosedQueue(env, plan, workers, capacity, stopped, before, run);
    var c, done := After(env, s0, run).c, Performed(env, s0, run);
    assert Sets(c, Disconnect) <==> Disconnect in done;
    assert Sets(c, CloseDraining) <==> CloseDraining in done;
  }

  /** And a worker: it takes a message whenever it is idle and one is queued, ends a command unless that hangs and
      its context is not cancelled or not heeded, and leaves only idle, on the cancellation or once the closed
      queue is empty. */
  lemma WorkersActExactly(env: Env, plan: seq<Op>, workers: nat, capacity: nat, stopped: bool, before: nat, run: seq<Event>, w: nat, hangs: bool)
    requires env.barrier && IsPlan(plan) && Sound(plan) && Legal(env, Start(plan, workers, capacity, stopped, before), run) && w < workers
    ensures var s0 := Start(plan, workers, capacity, stopped, before);
            var s, done := After(env, s0, run), Performed(env, s0, run);
            && |s.t.workers| == workers
            && var worker := s.t.workers[w];
            && (Enabled(env, s, Take(w, hangs)) <==> worker.Idle? && s.t.queue != [])
            && (Enabled(env, s, Finish(w)) <==> worker.Busy? && (worker.hung ==> CancelCommands in done && env.heedsCancel))
            && (Enabled(env, s, ExitOnCancel(w)) <==> worker.Idle? && CancelCommands in done)
            && (Enabled(env, s, ExitOnClose(w)) <==> worker.Idle? && CloseQueue in done && s.t.queue == [])
  {
    var s0 := Start(plan, workers, capacity, stopped, before);
    RunOpen(env, s0, run);
    RunKeepsShape(env, s0, run);
    NoSendOnClosedQueue(env, plan, workers, capacity, stopped, before, run);
    var c, done := After(env, s0, run).c, Performed(env, s0, run);
    assert Sets(c, CancelCommands) <==> CancelCommands in done;
    assert Sets(c, CloseQueue) <==> CloseQueue in done;
  }
}
