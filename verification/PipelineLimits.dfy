/** Which teardown orders are safe, and concrete runs that show where the guarantees of a cycle end. */
module PipelineLimits {
  import opened Pipeline
  import opened PipelineSafety
  import opened PipelineResults
  import opened PipelineTrails
  import opened TeardownPlan
  import PipelineTraffic

  const LOST := Result(false, true, 0)

  /** A cycle with one worker that serves, or has just lost its connection. */
  function Served(plan: seq<Op>, t: Traffic): Cycle {
    Cycle(Control(plan, Serving, Path(4), [Online], true, true, false, false, false, true), t)
  }

  function Lost(plan: seq<Op>, t: Traffic): Cycle {
    Cycle(Control(plan, Unwinding(LOST, plan), Path(4), [Online, Offline], true, true, false, false, false, true), t)
  }

  const CALM := Traffic(Waiting, [], 1, [Idle], 0, false, 0, [], [], [], [])

  function Begin(plan: seq<Op>): Cycle { Start(plan, 1, 1, true, 0) }

  lemma ReachServing(env: Env, plan: seq<Op>) returns (run: seq<Event>)
    ensures Legal(env, Begin(plan), run) && After(env, Begin(plan), run) == Served(plan, CALM)
  {
    run := PipelineTraffic.ReachServing(env, plan, 1, 1, true);
    assert PipelineTraffic.Filled(1, 1, 0) == CALM by {
      assert PipelineTraffic.Pool(1, 0) == [Idle] && PipelineTraffic.Nats(0) == [];
    }
  }

  lemma LoseConnection(env: Env, plan: seq<Op>, run0: seq<Event>, t: Traffic) returns (run: seq<Event>)
    requires Legal(env, Begin(plan), run0) && After(env, Begin(plan), run0) == Served(plan, t) && !t.crashed
    ensures Legal(env, Begin(plan), run) && After(env, Begin(plan), run) == Lost(plan, t)
  {
    WholePlan(plan);
    Extend(env, Begin(plan), run0, ServeEnds(LinkLost));
    run := run0 + [ServeEnds(LinkLost)];
    assert [Online] + [Offline] == [Online, Offline];
  }

  // ---------------------------------------------------------------- states that never end

  /** The join is still to come, and waits for a command that nothing will end before it. */
  ghost predicate Hung(env: Env, s: Cycle) {
    && s.c.pc.Unwinding? && JoinWorkers in s.c.pc.todo
    && s.t.workers != [] && s.t.workers[0].Busy? && s.t.workers[0].hung
    && (env.heedsCancel ==> !s.c.cancelled && NeverAfter(s.c.pc.todo, CancelCommands, JoinWorkers))
  }

  lemma HungStays(env: Env, s: Cycle, e: Event)
    requires Hung(env, s) && Enabled(env, s, e)
    ensures Hung(env, Apply(env, s, e))
  {
    if e.TearDown? {
      var todo := s.c.pc.todo;
      assert todo == [todo[0]] + todo[1..];
      assert todo[0] != JoinWorkers by { assert !s.t.workers[0].Exited?; }
      if env.heedsCancel { PoppedOrder(todo, CancelCommands, JoinWorkers); }
    }
  }

  lemma {:induction false} HungForever(env: Env, s: Cycle, run: seq<Event>)
    requires Hung(env, s) && Legal(env, s, run)
    ensures Hung(env, After(env, s, run))
    decreases |run|
  {
    if run != [] {
      HungStays(env, s, run[0]);
      HungForever(env, Apply(env, s, run[0]), run[1..]);
    }
  }

  /** Disconnect is still to come, and waits for a callback that nothing will release before it: the
      queue is full, and the one worker is hung or gone. */
  ghost predicate Jammed(s: Cycle) {
    && s.c.pc.Unwinding? && Disconnect in s.c.pc.todo
    && !s.c.draining && NeverAfter(s.c.pc.todo, CloseDraining, Disconnect)
    && !s.c.closed && NeverAfter(s.c.pc.todo, CloseQueue, Disconnect)
    && s.t.callback.Sending? && |s.t.queue| >= s.t.capacity && |s.t.workers| == 1
    && (s.t.workers[0].Exited?
        || (s.t.workers[0].Busy? && s.t.workers[0].hung && !s.c.cancelled && NeverAfter(s.c.pc.todo, CancelCommands, Disconnect)))
  }

  lemma JammedStays(env: Env, s: Cycle, e: Event)
    requires env.barrier && Jammed(s) && Enabled(env, s, e)
    ensures Jammed(Apply(env, s, e))
  {
    if e.TearDown? {
      var todo := s.c.pc.todo;
      assert todo == [todo[0]] + todo[1..];
      PoppedOrder(todo, CloseDraining, Disconnect);
      PoppedOrder(todo, CloseQueue, Disconnect);
      if !s.t.workers[0].Exited? { PoppedOrder(todo, CancelCommands, Disconnect); }
    }
  }

  lemma {:induction false} JammedForever(env: Env, s: Cycle, run: seq<Event>)
    requires env.barrier && Jammed(s) && Legal(env, s, run)
    ensures Jammed(After(env, s, run))
    decreases |run|
  {
    if run != [] {
      JammedStays(env, s, run[0]);
      JammedForever(env, Apply(env, s, run[0]), run[1..]);
    }
  }

  // ---------------------------------------------------------------- walking through a teardown

  predicate OneWorker(t: Traffic) { |t.workers| == 1 && !t.crashed }

  /** Whether the next n operations can all run, the worker leaving when it is joined. */
  ghost predicate Walkable(env: Env, c: Control, t: Traffic, n: nat) {
    && c.pc.Unwinding? && c.pc.todo != [] && n <= |c.pc.todo| && OneWorker(t)
    && (Disconnect in c.pc.todo[..n] ==> t.callback.Waiting? || !env.barrier)
    && (JoinWorkers in c.pc.todo[..n] ==>
          && !t.workers[0].Busy? && NeverAfter(c.pc.todo, JoinWorkers, CancelCommands)
          && (c.cancelled || CancelCommands in c.pc.todo))
  }

  /** The control once they have. */
  function Past(c: Control, n: nat): Control
    requires c.pc.Unwinding? && n <= |c.pc.todo|
  {
    var done := c.pc.todo[..n];
    c.(pc := if n == |c.pc.todo| then Done(c.pc.result) else Unwinding(c.pc.result, c.pc.todo[n..]),
       draining := c.draining || CloseDraining in done, attached := c.attached && Disconnect !in done,
       cancelled := c.cancelled || CancelCommands in done, closed := c.closed || CloseQueue in done)
  }

  lemma PastFirst(c: Control)
    requires c.pc.Unwinding? && c.pc.todo != []
    ensures Past(c, 1) == TornDown(c)
  {
    assert c.pc.todo[..1] == [c.pc.todo[0]];
  }

  lemma PastMore(c: Control, n: nat)
    requires c.pc.Unwinding? && 1 <= n <= |c.pc.todo| && |c.pc.todo| > 1
    ensures Past(Past(c, 1), n - 1) == Past(c, n)
  {
    var todo := c.pc.todo;
    assert todo[1..][n - 1..] == todo[n..];
    assert todo[..n] == todo[..1] + todo[1..][..n - 1];
  }

  predicate SameButExited(t: Traffic, t': Traffic, joined: bool) {
    && |t'.workers| == |t.workers| && t' == t.(workers := t'.workers)
    && (if joined then AllExited(t'.workers) else t' == t)
  }

  /** Before it is joined an idle worker leaves on the cancelled context. */
  lemma Leave(env: Env, s: Cycle) returns (run: seq<Event>, t: Traffic)
    requires Walkable(env, s.c, s.t, 1)
    ensures Legal(env, s, run) && After(env, s, run) == s.(t := t) && OpReady(env, t, s.c.pc.todo[0])
    ensures SameButExited(s.t, t, s.c.pc.todo[0] == JoinWorkers)
  {
    run, t := [], s.t;
    var todo := s.c.pc.todo;
    assert todo[..1] == [todo[0]] && todo == [todo[0]] + todo[1..];
    if todo[0] == JoinWorkers {
      PoppedOrder(todo, JoinWorkers, CancelCommands);
      if s.t.workers[0].Idle? {
        run, t := [ExitOnCancel(0)], s.t.(workers := s.t.workers[0 := Exited]);
        assert run[1..] == [];
      }
    }
  }

  lemma WalkableOn(env: Env, c: Control, t: Traffic, t': Traffic, n: nat)
    requires Walkable(env, c, t, n) && 1 < n && SameButExited(t, t', c.pc.todo[0] == JoinWorkers)
    ensures Walkable(env, c, t, 1) && Walkable(env, Past(c, 1), t', n - 1)
    ensures JoinWorkers in c.pc.todo[..n] <==> c.pc.todo[0] == JoinWorkers || JoinWorkers in c.pc.todo[1..][..n - 1]
  {
    var todo := c.pc.todo;
    assert todo[..n] == [todo[0]] + todo[1..][..n - 1] && todo == [todo[0]] + todo[1..];
    if JoinWorkers in todo[..n] { PoppedOrder(todo, JoinWorkers, CancelCommands); }
  }

  /** Runs the next n operations. */
  lemma {:induction false} Walk(env: Env, s: Cycle, n: nat) returns (run: seq<Event>, t: Traffic)
    requires n > 0 && Walkable(env, s.c, s.t, n) && DistinctOps(s.c.pc.todo)
    ensures Legal(env, s, run) && After(env, s, run) == Cycle(Past(s.c, n), t)
    ensures SameButExited(s.t, t, JoinWorkers in s.c.pc.todo[..n])
    decreases n
  {
    var todo := s.c.pc.todo;
    assert todo[..1] == [todo[0]] && todo[..n][0] == todo[0];
    run, t := Leave(env, s);
    Extend(env, s, run, TearDown);
    run := run + [TearDown];
    PastFirst(s.c);
    if n > 1 {
      WalkableOn(env, s.c, s.t, t, n);
      Popped(todo);
      var more;
      more, t := Walk(env, Cycle(Past(s.c, 1), t), n - 1);
      Chain(env, s, run, more);
      run := run + more;
      PastMore(s.c, n);
    }
  }

  // ---------------------------------------------------------------- the unsafe orders

  ghost predicate CanEnd(env: Env, s: Cycle) {
    exists run :: Legal(env, s, run) && After(env, s, run).c.pc.Done?
  }

  ghost predicate NeverPanics(env: Env, plan: seq<Op>) {
    forall workers, capacity, stopped, before, run ::
      Legal(env, Start(plan, workers, capacity, stopped, before), run) ==>
        !After(env, Start(plan, workers, capacity, stopped, before), run).t.crashed
  }

  /** From wherever a run may have got to, a cycle that is returning can still reach its end. */
  ghost predicate AlwaysEnds(env: Env, plan: seq<Op>) {
    forall workers, capacity, stopped, before, run ::
      Legal(env, Start(plan, workers, capacity, stopped, before), run) ==>
        var s := After(env, Start(plan, workers, capacity, stopped, before), run);
        Returning(s.c) ==> CanEnd(env, s)
  }

  lemma Arriving(env: Env, plan: seq<Op>, run0: seq<Event>, t: Traffic) returns (run: seq<Event>)
    requires Legal(env, Begin(plan), run0) && After(env, Begin(plan), run0) == Served(plan, t)
    requires !t.crashed && t.callback.Waiting?
    ensures Legal(env, Begin(plan), run)
    ensures After(env, Begin(plan), run) == Served(plan, t.(callback := Sending(t.arrived), arrived := t.arrived + 1))
  {
    Extend(env, Begin(plan), run0, Arrive);
    run := run0 + [Arrive];
  }

  const HELD := CALM.(workers := [Busy(0, true)], arrived := 1, enqueued := [0], taken := [0])

  /** A worker holds a command that only a cancellation ends. */
  lemma ReachHeld(env: Env, plan: seq<Op>) returns (run: seq<Event>)
    ensures Legal(env, Begin(plan), run) && After(env, Begin(plan), run) == Served(plan, HELD)
  {
    run := ReachServing(env, plan);
    run := Arriving(env, plan, run, CALM);
    Extend(env, Begin(plan), run, Enqueue);
    run := run + [Enqueue];
    Extend(env, Begin(plan), run, Take(0, true));
    run := run + [Take(0, true)];
  }

  const FULL := HELD.(callback := Sending(2), queue := [1], arrived := 3, enqueued := [0, 1])

  /** Besides, the queue is full and the callback blocked. */
  lemma ReachFull(env: Env, plan: seq<Op>) returns (run: seq<Event>)
    ensures Legal(env, Begin(plan), run) && After(env, Begin(plan), run) == Served(plan, FULL)
  {
    run := ReachHeld(env, plan);
    run := Arriving(env, plan, run, HELD);
    Extend(env, Begin(plan), run, Enqueue);
    run := run + [Enqueue];
    run := Arriving(env, plan, run, HELD.(queue := [1], arrived := 2, enqueued := [0, 1]));
  }

  /** If commands ignore their context, or are joined before they are cancelled, a hung one keeps the
      teardown from ever ending. */
  lemma HungCommandIsNeverJoined(env: Env, plan: seq<Op>) returns (run: seq<Event>)
    requires IsPlan(plan) && (!env.heedsCancel || !NeverAfter(plan, JoinWorkers, CancelCommands))
    ensures Legal(env, Begin(plan), run)
    ensures var s := After(env, Begin(plan), run); Returning(s.c) && !CanEnd(env, s)
  {
    run := ReachHeld(env, plan);
    run := LoseConnection(env, plan, run, HELD);
    var s := After(env, Begin(plan), run);
    OneWay(plan, JoinWorkers, CancelCommands);
    forall more | Legal(env, s, more) ensures !After(env, s, more).c.pc.Done? {
      HungForever(env, s, more);
    }
  }

  /** Without the barrier, or with the queue closed before the disconnect, a send meets the closed queue. */
  lemma LateSendPanics(env: Env, plan: seq<Op>) returns (run: seq<Event>)
    requires IsPlan(plan) && NeverAfter(plan, JoinWorkers, CancelCommands)
    requires !env.barrier || !NeverAfter(plan, CloseQueue, Disconnect)
    ensures Legal(env, Begin(plan), run) && After(env, Begin(plan), run).t.crashed
    ensures plan != [] && plan[|plan| - 1] != CloseQueue ==> After(env, Begin(plan), run).c.pc.Unwinding?
  {
    var t := CALM.(callback := Sending(0), arrived := 1);
    run := ReachServing(env, plan);
    run := Arriving(env, plan, run, CALM);
    run := LoseConnection(env, plan, run, t);
    var s := After(env, Begin(plan), run);
    assert CloseQueue in plan && CancelCommands in plan;
    var n :| 0 <= n < |plan| && plan[n] == CloseQueue;
    if env.barrier { OneWay(plan, CloseQueue, Disconnect); }
    forall i | env.barrier && 0 <= i < n + 1 ensures plan[i] != Disconnect {
      assert i == n || plan[i] != Disconnect;
    }
    assert plan[..n + 1][n] == CloseQueue;
    var more, t' := Walk(env, s, n + 1);
    Chain(env, Begin(plan), run, more);
    run := run + more;
    Extend(env, Begin(plan), run, SendOnClosed);
    run := run + [SendOnClosed];
  }

  /** A panic in the middle of a teardown ends the process there. */
  lemma PanicIsTheEnd(env: Env, s: Cycle)
    requires s.t.crashed && s.c.pc.Unwinding?
    ensures Returning(s.c) && !CanEnd(env, s)
  {
    forall more | Legal(env, s, more) ensures !After(env, s, more).c.pc.Done? {
      assert more == [];
    }
  }

  /** If it is disconnected before the callback is released, a full queue keeps the teardown from ever ending. */
  lemma BlockedCallbackIsNeverLeft(env: Env, plan: seq<Op>) returns (run: seq<Event>)
    requires env.barrier && env.heedsCancel && IsPlan(plan)
    requires NeverAfter(plan, JoinWorkers, CancelCommands) && NeverAfter(plan, CloseQueue, Disconnect)
    requires !NeverAfter(plan, Disconnect, CloseDraining)
    ensures Legal(env, Begin(plan), run)
    ensures var s := After(env, Begin(plan), run); Returning(s.c) && !CanEnd(env, s)
  {
    run := ReachFull(env, plan);
    run := LoseConnection(env, plan, run, FULL);
    OneWay(plan, Disconnect, CloseDraining);
    if !NeverAfter(plan, CancelCommands, Disconnect) {
      OneWay(plan, CancelCommands, Disconnect);
      run := WorkerGone(env, plan, run);
    }
    var s := After(env, Begin(plan), run);
    assert Disconnect in plan;
    forall more | Legal(env, s, more) ensures !After(env, s, more).c.pc.Done? {
      JammedForever(env, s, more);
    }
  }

  lemma NotYet(plan: seq<Op>, n: nat, op: Op, later: Op)
    requires DistinctOps(plan) && n < |plan| && plan[n] == op && op != later && NeverAfter(plan, later, op)
    ensures later !in plan[..n + 1]
  {
    forall i | 0 <= i < n + 1 ensures plan[i] != later {
      assert i < n || plan[i] == op;
    }
  }

  lemma StillToCome(plan: seq<Op>, n: nat, early: Op, late: Op)
    requires n <= |plan| && late in plan[n..] && NeverAfter(plan, early, late)
    ensures NeverAfter(plan[n..], early, late)
    ensures early !in plan[..n]
  {
    var j :| 0 <= j < |plan[n..]| && plan[n..][j] == late;
    assert plan[n + j] == late;
    forall i | 0 <= i < n ensures plan[i] != early {
      assert plan[n + j] == late;
    }
    forall i, k | 0 <= i < k < |plan[n..]| && plan[n..][i] == early ensures plan[n..][k] != late {
      assert plan[n + i] == early && plan[n + k] == plan[n..][k];
    }
  }

  /** Where cancelling comes first, nothing that waits or closes comes before it. */
  lemma UpToCancel(plan: seq<Op>) returns (n: nat)
    requires IsPlan(plan) && NeverAfter(plan, JoinWorkers, CancelCommands) && NeverAfter(plan, Disconnect, CancelCommands)
    requires NeverAfter(plan, CloseQueue, Disconnect) && NeverAfter(plan, CloseDraining, Disconnect)
    ensures 0 < n < |plan| && CancelCommands in plan[..n] && Disconnect in plan[n..]
    ensures JoinWorkers !in plan[..n] && Disconnect !in plan[..n] && CloseDraining !in plan[..n] && CloseQueue !in plan[..n]
    ensures NeverAfter(plan[n..], CloseDraining, Disconnect) && NeverAfter(plan[n..], CloseQueue, Disconnect)
  {
    assert CancelCommands in plan && Disconnect in plan;
    var i :| 0 <= i < |plan| && plan[i] == CancelCommands;
    n := i + 1;
    NotYet(plan, i, CancelCommands, JoinWorkers);
    NotYet(plan, i, CancelCommands, Disconnect);
    assert plan == plan[..n] + plan[n..] && plan[..n][i] == CancelCommands;
    StillToCome(plan, n, CloseDraining, Disconnect);
    StillToCome(plan, n, CloseQueue, Disconnect);
  }

  /** Then the hung worker ends its command and leaves, with the queue still full. */
  lemma WorkerGone(env: Env, plan: seq<Op>, run0: seq<Event>) returns (run: seq<Event>)
    requires env.barrier && env.heedsCancel && IsPlan(plan)
    requires NeverAfter(plan, JoinWorkers, CancelCommands) && NeverAfter(plan, CloseQueue, Disconnect)
    requires NeverAfter(plan, CloseDraining, Disconnect) && NeverAfter(plan, Disconnect, CancelCommands)
    requires Legal(env, Begin(plan), run0) && After(env, Begin(plan), run0) == Lost(plan, FULL)
    ensures Legal(env, Begin(plan), run) && Jammed(After(env, Begin(plan), run))
  {
    var n := UpToCancel(plan);
    var more, t := Walk(env, Lost(plan, FULL), n);
    var last := FinishAndLeave(env, Cycle(Past(Lost(plan, FULL).c, n), FULL));
    Chain(env, Lost(plan, FULL), more, last);
    Chain(env, Begin(plan), run0, more + last);
    run := run0 + (more + last);
  }

  lemma FinishAndLeave(env: Env, s: Cycle) returns (run: seq<Event>)
    requires env.heedsCancel && s.c.pc.Unwinding? && Disconnect in s.c.pc.todo && s.c.cancelled && s.t == FULL
    requires !s.c.draining && NeverAfter(s.c.pc.todo, CloseDraining, Disconnect)
    requires !s.c.closed && NeverAfter(s.c.pc.todo, CloseQueue, Disconnect)
    ensures Legal(env, s, run) && Jammed(After(env, s, run))
  {
    run := [Finish(0)];
    assert run[1..] == [];
    Extend(env, s, run, ExitOnCancel(0));
    run := run + [ExitOnCancel(0)];
  }

  // ---------------------------------------------------------------- the safe orders

  /** Of all orders of the seven operations, those that never panic and always end, whatever the
      interleaving, are the ones that release the callback before the disconnect, disconnect before the
      queue is closed, and cancel before the join; and none is, unless Disconnect is a barrier and
      commands heed their cancelled context. */
  lemma TeardownSafeExactlyIf(env: Env, plan: seq<Op>)
    requires IsPlan(plan)
    ensures NeverPanics(env, plan) && AlwaysEnds(env, plan) <==> env.barrier && env.heedsCancel && Sound(plan)
  {
    if !env.heedsCancel || !NeverAfter(plan, JoinWorkers, CancelCommands) {
      var run := HungCommandIsNeverJoined(env, plan);
    } else if !env.barrier || !NeverAfter(plan, CloseQueue, Disconnect) {
      var run := LateSendPanics(env, plan);
    } else if !NeverAfter(plan, Disconnect, CloseDraining) {
      var run := BlockedCallbackIsNeverLeft(env, plan);
    } else {
      SoundNeverPanics(env, plan);
      SoundAlwaysEnds(env, plan);
    }
  }

  lemma SoundNeverPanics(env: Env, plan: seq<Op>)
    requires env.barrier && IsPlan(plan) && Sound(plan)
    ensures NeverPanics(env, plan)
  {
    forall workers, capacity, stopped, before, run | Legal(env, Start(plan, workers, capacity, stopped, before), run)
      ensures !After(env, Start(plan, workers, capacity, stopped, before), run).t.crashed
    {
      NoSendOnClosedQueue(env, plan, workers, capacity, stopped, before, run);
    }
  }

  lemma SoundAlwaysEnds(env: Env, plan: seq<Op>)
    requires env.barrier && env.heedsCancel && IsPlan(plan) && Sound(plan)
    ensures AlwaysEnds(env, plan)
  {
    forall workers, capacity, stopped, before, run | Legal(env, Start(plan, workers, capacity, stopped, before), run)
      ensures var s := After(env, Start(plan, workers, capacity, stopped, before), run); Returning(s.c) ==> CanEnd(env, s)
    {
      var s := After(env, Start(plan, workers, capacity, stopped, before), run);
      StartInv(plan, workers, capacity, stopped, before);
      RunKeepsInv(env, Start(plan, workers, capacity, stopped, before), run);
      if Returning(s.c) { var more := TeardownReachesTheEnd(env, s); }
    }
  }

  /** For the code's own order: panic freedom holds exactly because Disconnect is a barrier. */
  lemma PanicFreeExactlyWithBarrier(env: Env)
    ensures NeverPanics(env, LIFO) <==> env.barrier
  {
    LifoIsSound();
    if env.barrier {
      SoundNeverPanics(env, LIFO);
    } else {
      var run := LateSendPanics(env, LIFO);
    }
  }

  /** And it always ends exactly because, besides, commands heed their cancelled context: a late send
      would end the process with the join still to come. */
  lemma EndsExactlyIfCommandsHeedCancel(env: Env)
    ensures AlwaysEnds(env, LIFO) <==> env.barrier && env.heedsCancel
  {
    LifoIsSound();
    if !env.barrier {
      var run := LateSendPanics(env, LIFO);
      PanicIsTheEnd(env, After(env, Begin(LIFO), run));
    } else if env.heedsCancel {
      SoundAlwaysEnds(env, LIFO);
    } else {
      var run := HungCommandIsNeverJoined(env, LIFO);
    }
  }

  // ---------------------------------------------------------------- what a cycle may leave behind

  /** The queue does not survive the cycle: a message whose callback has returned, so that it is
      acknowledged, can be left in the queue, neither run nor counted as dropped. */
  lemma AcknowledgedMessageCanBeAbandoned(env: Env) returns (run: seq<Event>)
    ensures Legal(env, Begin(LIFO), run)
    ensures var s := After(env, Begin(LIFO), run);
            s.c.pc.Done? && s.t.queue == [0] && s.t.finished == [] && s.t.droppedMessages == 0
  {
    LifoIsSound();
    var t := CALM.(queue := [0], arrived := 1, enqueued := [0]);
    run := ReachServing(env, LIFO);
    run := Arriving(env, LIFO, run, CALM);
    Extend(env, Begin(LIFO), run, Enqueue);
    run := run + [Enqueue];
    run := LoseConnection(env, LIFO, run, t);
    assert LIFO[..7] == LIFO;
    var more, t' := Walk(env, Lost(LIFO, t), 7);
    Chain(env, Begin(LIFO), run, more);
    run := run + more;
  }

  // ---------------------------------------------------------------- every ending occurs

  lemma {:induction false} NoMainOnceReturning(env: Env, s: Cycle, run: seq<Event>)
    requires Returning(s.c) && Legal(env, s, run)
    ensures Trail(run) == []
    decreases |run|
  {
    if run != [] {
      StepTodo(env, s, run[0]);
      NoMainOnceReturning(env, Apply(env, s, run[0]), run[1..]);
    }
  }

  lemma {:induction false} TrailAppend(a: seq<Event>, b: seq<Event>)
    requires Trail(b) == [] && forall e :: e in a ==> MainEvent(e)
    ensures Trail(a + b) == a
  {
    if a == [] {
      assert a + b == b;
    } else {
      assert (a + b)[1..] == a[1..] + b && (a + b)[0] == a[0] && a == [a[0]] + a[1..];
      TrailAppend(a[1..], b);
    }
  }

  /** The cycle has come n events far, with the stop signal given. */
  predicate At(s: Cycle, trail: seq<Event>, n: nat)
    requires n <= |trail|
  {
    !s.t.crashed && s.c.stopped && Follows(s.c, trail[..n])
  }

  /** Of a whole trail, no shorter part is whole. */
  lemma Undecided(trail: seq<Event>, n: nat)
    requires Whole(trail) && n <= |trail|
    ensures Whole(trail[..n]) <==> n == |trail|
    ensures n < |trail| ==> GetsOn(trail[..n], n) && MainEvent(trail[n])
  {
    assert GetsOn(trail, |trail| - 1);
    if n == |trail| { assert trail[..n] == trail; }
  }

  lemma NextIsReady(c: Control, trail: seq<Event>, n: nat)
    requires Whole(trail) && n < |trail| && !Returning(c) && Stage(c.pc) == n && c.stopped
    ensures MainReady(c, trail[n])
  {
    assert GetsOn(trail, |trail| - 1);
  }

  lemma NextOfTrail(env: Env, s: Cycle, trail: seq<Event>, n: nat)
    requires Whole(trail) && n < |trail| && At(s, trail, n)
    ensures MainEvent(trail[n]) && Enabled(env, s, trail[n]) && At(Apply(env, s, trail[n]), trail, n + 1)
  {
    Undecided(trail, n);
    NextIsReady(s.c, trail, n);
    MainSchedules(s.c, trail[n]);
    StepFollows(env, s, trail[n], trail[..n]);
    assert trail[..n + 1] == trail[..n] + [trail[n]];
  }

  lemma EndOfTrail(s: Cycle, trail: seq<Event>)
    requires Whole(trail) && At(s, trail, |trail|)
    ensures Returning(s.c)
  {
    Undecided(trail, |trail|);
    assert trail[..|trail|] == trail;
  }

  lemma {:induction false} TrailRuns(env: Env, s: Cycle, trail: seq<Event>, n: nat)
    requires Whole(trail) && n <= |trail| && At(s, trail, n)
    ensures Legal(env, s, trail[n..]) && Returning(After(env, s, trail[n..]).c)
    ensures forall i :: n <= i < |trail| ==> MainEvent(trail[i])
    decreases |trail| - n
  {
    if n == |trail| {
      EndOfTrail(s, trail);
      assert trail[n..] == [];
    } else {
      NextOfTrail(env, s, trail, n);
      assert trail[n..][1..] == trail[n + 1..] && trail[n..][0] == trail[n];
      TrailRuns(env, Apply(env, s, trail[n]), trail, n + 1);
    }
  }

  /** Whatever way a cycle may go and return, some run goes just so and ends. */
  lemma EveryEndingOccurs(env: Env, plan: seq<Op>, workers: nat, capacity: nat, before: nat, trail: seq<Event>) returns (run: seq<Event>)
    requires env.barrier && env.heedsCancel && IsPlan(plan) && Sound(plan) && Whole(trail)
    ensures Legal(env, Start(plan, workers, capacity, true, before), run) && Trail(run) == trail
    ensures After(env, Start(plan, workers, capacity, true, before), run).c.pc.Done?
  {
    var s := Start(plan, workers, capacity, true, before);
    assert trail[..0] == [];
    TrailRuns(env, s, trail, 0);
    assert trail[0..] == trail;
    StartInv(plan, workers, capacity, true, before);
    RunKeepsInv(env, s, trail);
    var more := TeardownReachesTheEnd(env, After(env, s, trail));
    NoMainOnceReturning(env, After(env, s, trail), more);
    Chain(env, s, trail, more);
    TrailAppend(trail, more);
    run := trail + more;
  }
}
