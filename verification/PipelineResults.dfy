/** What the invariant of PipelineSafety says about whole runs of a connection cycle. */
module PipelineResults {
  import opened Pipeline
  import opened PipelineSafety
  import opened PipelineTrails
  import opened TeardownPlan

  // ---------------------------------------------------------------- safety

  lemma ClosedMeansQuiet(env: Env, s: Cycle)
    requires env.barrier && ControlInv(s.c) && SafeInv(s)
    ensures !Enabled(env, s, SendOnClosed) && (s.c.closed ==> s.t.callback.Waiting?)
  {
  }

  /** On every return path and in every interleaving, no send meets a closed queue. */
  lemma NoSendOnClosedQueue(env: Env, plan: seq<Op>, workers: nat, capacity: nat, stopped: bool, before: nat, run: seq<Event>)
    requires env.barrier && IsPlan(plan) && Sound(plan)
    requires Legal(env, Start(plan, workers, capacity, stopped, before), run)
    ensures var s := After(env, Start(plan, workers, capacity, stopped, before), run);
            !s.t.crashed && !Enabled(env, s, SendOnClosed) && (s.c.closed ==> s.t.callback.Waiting?)
  {
    var s0 := Start(plan, workers, capacity, stopped, before);
    StartInv(plan, workers, capacity, stopped, before);
    RunKeepsInv(env, s0, run);
    ClosedMeansQuiet(env, After(env, s0, run));
  }

  // ---------------------------------------------------------------- the message ledger

  /** Where a message can be: with the callback, queued, with a worker, finished or dropped. */
  function Places(t: Traffic): multiset<nat> {
    Pending(t.callback) + multiset(t.queue) + Held(t.workers) + multiset(t.finished) + multiset(t.dropped)
  }

  lemma UpToCounts(n: nat, m: nat)
    ensures UpTo(n)[m] == if m < n then 1 else 0
  {
  }

  lemma {:induction false} RunKeepsShape(env: Env, s: Cycle, run: seq<Event>)
    requires Legal(env, s, run)
    ensures var s' := After(env, s, run);
            && |s'.t.workers| == |s.t.workers| && s'.t.capacity == s.t.capacity
            && s'.t.droppedMessages - |s'.t.dropped| == s.t.droppedMessages - |s.t.dropped|
    decreases |run|
  {
    if run != [] {
      RunKeepsShape(env, Apply(env, s, run[0]), run[1..]);
    }
  }

  /** Every message handed to the callback is in exactly one place; none other is anywhere.
      Messages leave the queue in the order they entered it, which is arrival order, and the
      drop counter grows by exactly the drops, all of which follow the closing of `draining`. */
  lemma EveryMessageAccountedFor(env: Env, plan: seq<Op>, workers: nat, capacity: nat, stopped: bool, before: nat, run: seq<Event>)
    requires env.barrier && IsPlan(plan) && Sound(plan)
    requires Legal(env, Start(plan, workers, capacity, stopped, before), run)
    ensures var s := After(env, Start(plan, workers, capacity, stopped, before), run);
            && (forall m: nat :: Places(s.t)[m] == if m < s.t.arrived then 1 else 0)
            && s.t.enqueued == s.t.taken + s.t.queue && Increasing(s.t.enqueued)
            && |s.t.queue| <= capacity && |s.t.workers| == workers
            && s.t.droppedMessages == before + |s.t.dropped|
            && (s.t.dropped != [] ==> s.c.draining)
  {
    var s0 := Start(plan, workers, capacity, stopped, before);
    StartInv(plan, workers, capacity, stopped, before);
    RunKeepsInv(env, s0, run);
    RunKeepsShape(env, s0, run);
    PlacesCount(After(env, s0, run).t);
  }

  lemma PlacesCount(t: Traffic)
    requires OrderInv(t) && CountInv(t)
    ensures forall m: nat :: Places(t)[m] == if m < t.arrived then 1 else 0
  {
    assert multiset(t.taken + t.queue) == multiset(t.taken) + multiset(t.queue);
    assert Places(t) == UpTo(t.arrived);
    forall m: nat ensures Places(t)[m] == if m < t.arrived then 1 else 0 {
      UpToCounts(t.arrived, m);
    }
  }

  lemma ExitedHoldNothing(workers: seq<Worker>)
    requires AllExited(workers)
    ensures Held(workers) == multiset{}
  {
    if workers != [] {
      assert forall i :: 0 <= i < |workers[1..]| ==> workers[1..][i] == workers[i + 1];
      ExitedHoldNothing(workers[1..]);
    }
  }

  lemma NothingInFlight(t: Traffic)
    requires OrderInv(t) && CountInv(t) && t.callback.Waiting? && AllExited(t.workers)
    ensures Places(t) == multiset(t.finished) + multiset(t.dropped) + multiset(t.queue)
    ensures multiset(t.enqueued) == multiset(t.finished) + multiset(t.queue)
  {
    ExitedHoldNothing(t.workers);
    assert multiset(t.taken + t.queue) == multiset(t.taken) + multiset(t.queue);
  }

  /** When the cycle has ended, each message was finished, was dropped, or lies abandoned in the
      queue; an enqueued one was run exactly when it is not in the queue any more. */
  lemma EndOfCycle(env: Env, plan: seq<Op>, workers: nat, capacity: nat, stopped: bool, before: nat, run: seq<Event>)
    requires env.barrier && IsPlan(plan) && Sound(plan)
    requires Legal(env, Start(plan, workers, capacity, stopped, before), run)
    requires After(env, Start(plan, workers, capacity, stopped, before), run).c.pc.Done?
    ensures var t := After(env, Start(plan, workers, capacity, stopped, before), run).t;
            && t.callback.Waiting? && AllExited(t.workers)
            && (forall m: nat :: multiset(t.finished)[m] + multiset(t.dropped)[m] + multiset(t.queue)[m] == if m < t.arrived then 1 else 0)
            && (forall m :: m in t.enqueued ==> (m in t.finished <==> m !in t.queue))
  {
    var s0 := Start(plan, workers, capacity, stopped, before);
    StartInv(plan, workers, capacity, stopped, before);
    RunKeepsInv(env, s0, run);
    AtRest(After(env, s0, run).t);
  }

  lemma AtRest(t: Traffic)
    requires OrderInv(t) && CountInv(t) && t.callback.Waiting? && AllExited(t.workers)
    ensures forall m: nat :: multiset(t.finished)[m] + multiset(t.dropped)[m] + multiset(t.queue)[m] == if m < t.arrived then 1 else 0
    ensures forall m :: m in t.enqueued ==> (m in t.finished <==> m !in t.queue)
  {
    PlacesCount(t);
    NothingInFlight(t);
    forall m: nat ensures multiset(t.finished)[m] + multiset(t.dropped)[m] + multiset(t.queue)[m] == if m < t.arrived then 1 else 0 {
      assert Places(t)[m] == if m < t.arrived then 1 else 0;
    }
    forall m | m in t.enqueued ensures m in t.finished <==> m !in t.queue {
      assert m in multiset(t.enqueued);
      assert Places(t)[m] <= 1;
    }
  }

  // ---------------------------------------------------------------- teardown always finishes

  function Weight(w: Worker): nat { if w.Idle? then 1 else if w.Busy? then 2 else 0 }

  function Weights(workers: seq<Worker>): nat {
    if workers == [] then 0 else Weight(workers[0]) + Weights(workers[1..])
  }

  /** Teardown operations still to come; more than all of them while the cycle is not yet returning. */
  function Left(c: Control): nat { if Returning(c) then |Todo(c)| else |c.plan| + 1 }

  /** No callback will come any more. */
  predicate Detached(c: Control) { Returning(c) && (c.routed ==> !c.attached) }

  /** Work left before everything is at rest. */
  function Measure(s: Cycle): nat {
    Left(s.c) + TrafficMeasure(s.t) + (if s.c.stopped then 0 else 1)
  }

  lemma WeightsUpdate(workers: seq<Worker>, w: nat, x: Worker)
    requires w < |workers|
    ensures Weights(workers[w := x]) == Weights(workers) - Weight(workers[w]) + Weight(x)
  {
    if w == 0 {
      assert workers[w := x][1..] == workers[1..];
    } else {
      WeightsUpdate(workers[1..], w - 1, x);
      assert workers[w := x][1..] == workers[1..][w - 1 := x];
    }
  }

  function TrafficMeasure(t: Traffic): nat {
    (if t.callback.Sending? then 3 else 0) + 2 * |t.queue| + Weights(t.workers)
  }

  lemma TrafficStepMeasure(env: Env, c: Control, t: Traffic, e: Event)
    requires TrafficReady(env, c, t, e) && !e.SendOnClosed?
    ensures TrafficMeasure(TrafficNext(env, c, t, e)) <= if e.Arrive? then TrafficMeasure(t) + 3 else TrafficMeasure(t) - 1
  {
    match e
    case Take(w, hangs) => WeightsUpdate(t.workers, w, Busy(t.queue[0], hangs));
    case Finish(w) => WeightsUpdate(t.workers, w, Idle);
    case ExitOnCancel(w) => WeightsUpdate(t.workers, w, Exited);
    case ExitOnClose(w) => WeightsUpdate(t.workers, w, Exited);
    case _ =>
  }

  /** Once the cycle is returning, every step but an arrival takes work away. */
  lemma StepMeasure(env: Env, s: Cycle, e: Event)
    requires env.barrier && ControlInv(s.c) && SafeInv(s) && Returning(s.c) && Enabled(env, s, e)
    ensures Returning(Apply(env, s, e).c)
    ensures Measure(Apply(env, s, e)) <= if e.Arrive? then Measure(s) + 3 else Measure(s) - 1
    ensures Detached(s.c) ==> !e.Arrive? && Detached(Apply(env, s, e).c)
  {
    if e.TearDown? {
      TearDownKeepsControl(s.c);
    } else if !e.Stop? {
      assert !MainEvent(e);
      TrafficStepMeasure(env, s.c, s.t, e);
    }
  }

  ghost function Arrivals(run: seq<Event>): nat {
    if run == [] then 0 else (if run[0].Arrive? then 1 else 0) + Arrivals(run[1..])
  }

  /** The length of any run of a teardown is bounded by the work there was and the messages that
      still arrived; after Disconnect none arrive, so from there it is bounded outright. */
  lemma {:induction false} TeardownBound(env: Env, s: Cycle, run: seq<Event>)
    requires env.barrier && Inv(s) && Returning(s.c) && Legal(env, s, run)
    ensures |run| + Measure(After(env, s, run)) <= Measure(s) + 4 * Arrivals(run)
    ensures Detached(s.c) ==> Arrivals(run) == 0 && |run| <= Measure(s)
    decreases |run|
  {
    if run != [] {
      StepMeasure(env, s, run[0]);
      StepKeepsInv(env, s, run[0]);
      TeardownBound(env, Apply(env, s, run[0]), run[1..]);
    }
  }

  /** In every state of a teardown something other than an arrival or the stop signal can happen,
      whatever was queued, hung or blocked when it began. */
  lemma TeardownNeverStuck(env: Env, s: Cycle) returns (e: Event)
    requires env.barrier && env.heedsCancel && Inv(s) && s.c.pc.Unwinding?
    ensures Enabled(env, s, e) && (e.TearDown? || e.Drop? || e.Finish? || e.ExitOnCancel?)
  {
    e := NextInTeardown(env, s);
  }

  lemma NextInTeardown(env: Env, s: Cycle) returns (e: Event)
    requires env.barrier && env.heedsCancel && ControlInv(s.c) && SafeInv(s) && s.c.pc.Unwinding?
    ensures Enabled(env, s, e) && (e.TearDown? || e.Drop? || e.Finish? || e.ExitOnCancel?)
  {
    var op := s.c.pc.todo[0];
    PoppedSound(s.c.pc.todo);
    if OpReady(env, s.t, op) {
      e := TearDown;
    } else if op == Disconnect {
      e := Drop;
    } else {
      assert op == JoinWorkers;
      var w :| 0 <= w < |s.t.workers| && !s.t.workers[w].Exited?;
      e := if s.t.workers[w].Idle? then ExitOnCancel(w) else Finish(w);
    }
  }

  /** That step takes work away and leaves the queue alone. */
  lemma TeardownStep(env: Env, s: Cycle) returns (e: Event)
    requires env.barrier && env.heedsCancel && Inv(s) && s.c.pc.Unwinding?
    ensures Enabled(env, s, e) && !e.Arrive?
    ensures var s' := Apply(env, s, e);
            Inv(s') && Returning(s'.c) && Measure(s') < Measure(s) && s'.t.queue == s.t.queue && s'.t.arrived == s.t.arrived
  {
    e := TeardownNeverStuck(env, s);
    StepMeasure(env, s, e);
    StepKeepsInv(env, s, e);
  }

  /** A returning cycle reaches its end with no help from outside, and without anyone having to
      take another message from the queue. */
  lemma {:induction false} TeardownReachesTheEnd(env: Env, s: Cycle) returns (run: seq<Event>)
    requires env.barrier && env.heedsCancel && Inv(s) && Returning(s.c)
    ensures Legal(env, s, run) && After(env, s, run).c.pc.Done? && Arrivals(run) == 0 && |run| <= Measure(s)
    ensures After(env, s, run).t.queue == s.t.queue && After(env, s, run).t.arrived == s.t.arrived
    decreases Measure(s)
  {
    run := [];
    if s.c.pc.Unwinding? {
      var e := TeardownStep(env, s);
      var rest := TeardownReachesTheEnd(env, Apply(env, s, e));
      run := [e] + rest;
      assert run[1..] == rest;
    }
  }

  /** After Disconnect an empty queue stays empty. */
  lemma {:induction false} EmptyStaysEmpty(env: Env, s: Cycle, run: seq<Event>)
    requires env.barrier && Inv(s) && Detached(s.c) && s.t.queue == [] && Legal(env, s, run)
    ensures After(env, s, run).t.queue == []
    decreases |run|
  {
    if run != [] {
      StepMeasure(env, s, run[0]);
      StepKeepsInv(env, s, run[0]);
      EmptyStaysEmpty(env, Apply(env, s, run[0]), run[1..]);
    }
  }

  ghost predicate NothingAbandoned(env: Env, s: Cycle) {
    forall run :: Legal(env, s, run) && After(env, s, run).c.pc.Done? ==> After(env, s, run).t.queue == []
  }

  /** Once disconnected, it is certain that every acknowledged message is run exactly if the queue
      is already empty: whatever it still holds, some interleaving abandons. */
  lemma AbandonedExactlyIfQueued(env: Env, s: Cycle)
    requires env.barrier && env.heedsCancel && Inv(s) && Detached(s.c)
    ensures NothingAbandoned(env, s) <==> s.t.queue == []
  {
    if s.t.queue == [] {
      forall run | Legal(env, s, run) ensures After(env, s, run).t.queue == [] {
        EmptyStaysEmpty(env, s, run);
      }
    } else {
      var run := TeardownReachesTheEnd(env, s);
      assert After(env, s, run).t.queue != [];
    }
  }

  // ---------------------------------------------------------------- lifecycle notices

  lemma {:induction false} RunKeepsNotices(env: Env, s: Cycle, run: seq<Event>)
    requires NoticeInv(s.c) && Legal(env, s, run)
    ensures NoticeInv(After(env, s, run).c)
    decreases |run|
  {
    if run != [] {
      if run[0].TearDown? {
        TearDownKeepsNotices(s.c);
      } else if MainEvent(run[0]) {
        MainKeepsNotices(s.c, run[0]);
      }
      RunKeepsNotices(env, Apply(env, s, run[0]), run[1..]);
    }
  }

  /** Every finished cycle said nothing, Stopped, or Online and then one of Stopped, Offline, Reconnecting,
      and Stopped needs a stop; which, and what it returns, is what the events of its run tell. */
  lemma CycleOutcome(env: Env, plan: seq<Op>, workers: nat, capacity: nat, stopped: bool, before: nat, run: seq<Event>)
    requires Legal(env, Start(plan, workers, capacity, stopped, before), run)
    requires After(env, Start(plan, workers, capacity, stopped, before), run).c.pc.Done?
    ensures var c := After(env, Start(plan, workers, capacity, stopped, before), run).c;
            && Outcome(c.notices, c.pc.result) && (Ends(c.notices, Stopped) ==> c.stopped)
            && Whole(Trail(run)) && ToldBy(run, c.pc.result, c.notices)
  {
    RunKeepsNotices(env, Start(plan, workers, capacity, stopped, before), run);
    CycleTold(env, plan, workers, capacity, stopped, before, run);
  }

  // ---------------------------------------------------------------- building runs

  lemma Extend(env: Env, s: Cycle, run: seq<Event>, e: Event)
    requires Legal(env, s, run) && Enabled(env, After(env, s, run), e)
    ensures Legal(env, s, run + [e]) && After(env, s, run + [e]) == Apply(env, After(env, s, run), e)
    decreases |run|
  {
    if run == [] {
      assert (run + [e])[1..] == [];
    } else {
      Extend(env, Apply(env, s, run[0]), run[1..], e);
      assert (run + [e])[1..] == run[1..] + [e];
    }
  }

  /** Runs `more` after `run`. */
  lemma {:induction false} Chain(env: Env, s: Cycle, run: seq<Event>, more: seq<Event>)
    requires Legal(env, s, run) && Legal(env, After(env, s, run), more)
    ensures Legal(env, s, run + more) && After(env, s, run + more) == After(env, After(env, s, run), more)
    decreases |run|
  {
    if run == [] {
      assert run + more == more;
    } else {
      Chain(env, Apply(env, s, run[0]), run[1..], more);
      assert (run + more)[1..] == run[1..] + more;
    }
  }
}
