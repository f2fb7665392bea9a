/** What the events of a cycle's own goroutine say about how it ends and what its teardown runs. */
module PipelineTrails {
  import opened Pipeline
  import opened TeardownPlan
  import opened PipelineSafety

  // ---------------------------------------------------------------- the events of the cycle's goroutine

  /** Its events in a run, in order. */
  function Trail(run: seq<Event>): seq<Event> {
    if run == [] then [] else (if MainEvent(run[0]) then [run[0]] else []) + Trail(run[1..])
  }

  lemma {:induction false} TrailMembers(run: seq<Event>, e: Event)
    ensures e in Trail(run) <==> e in run && MainEvent(e)
  {
    if run != [] {
      TrailMembers(run[1..], e);
      assert run == [run[0]] + run[1..];
    }
  }

  /** The first n events are those of a cycle that gets on: options, connect, publish, subscribe. */
  predicate GetsOn(trail: seq<Event>, n: nat) {
    && n <= |trail| && n <= 4
    && (n > 0 ==> trail[0] == OptionsBuilt(true))
    && (n > 1 ==> trail[1] == ConnectEnds(Completed(true)))
    && (n > 2 ==> trail[2] == PublishEnds)
    && (n > 3 ==> trail[3] == SubscribeEnds(Completed(true)))
  }

  /** A whole cycle returns at the first of them that does not succeed, or once it has served. */
  predicate Whole(trail: seq<Event>) {
    trail != [] && GetsOn(trail, |trail| - 1) &&
    match |trail|
    case 1 => trail[0] == OptionsBuilt(false)
    case 2 => trail[1].ConnectEnds? && trail[1].tok != Completed(true)
    case 4 => trail[3].SubscribeEnds? && trail[3].tok != Completed(true)
    case 5 => trail[4].ServeEnds?
    case _ => false
  }

  /** What the cycle returns and has said, by the last of its events. */
  predicate Tells(last: Event, r: Result, said: seq<Notice>) {
    match last
    case OptionsBuilt(_) => r == Result(true, false, 1) && said == []
    case ConnectEnds(tok) => r == Result(tok.Interrupted?, false, 0) && said == if tok.Interrupted? then [Stopped] else []
    case SubscribeEnds(tok) => r == Result(tok.Interrupted?, false, 0) && said == if tok.Interrupted? then [Stopped] else []
    case ServeEnds(why) =>
      && r == Result(why.StopSeen?, true, 0)
      && said == [Online, if why.StopSeen? then Stopped else if why.LinkLost? then Offline else Reconnecting]
    case _ => false
  }

  /** How far a cycle has come before it returns. */
  function Stage(pc: Pc): nat {
    match pc
    case Configuring => 0
    case Connecting => 1
    case Publishing => 2
    case Subscribing => 3
    case _ => 4
  }

  predicate Follows(c: Control, trail: seq<Event>) {
    if Returning(c) then Whole(trail) && Tells(trail[|trail| - 1], c.pc.result, c.notices)
    else
      && |trail| == Stage(c.pc) && GetsOn(trail, |trail|)
      && c.notices == if c.pc.Serving? then [Online] else []
  }

  lemma GetsOnMore(trail: seq<Event>, e: Event)
    requires GetsOn(trail, |trail|)
    ensures GetsOn(trail + [e], |trail|) && (trail + [e])[|trail|] == e
  {
  }

  /** Returning at an event that ends the cycle. */
  lemma ReturnFollows(c: Control, e: Event, trail: seq<Event>, r: Result, said: seq<Notice>)
    requires GetsOn(trail, |trail|) && Whole(trail + [e]) && Tells(e, r, c.notices + said)
    ensures Follows(Return(c, r, said), trail + [e])
  {
    assert (trail + [e])[|trail|] == e;
  }

  lemma OptionsFollow(c: Control, e: Event, trail: seq<Event>)
    requires Follows(c, trail) && MainReady(c, e) && e.OptionsBuilt?
    ensures Follows(MainNext(c, e), trail + [e])
  {
    GetsOnMore(trail, e);
    if !e.ok { ReturnFollows(c, e, trail, Result(true, false, GENERIC_ERROR), []); }
  }

  lemma ConnectFollows(c: Control, e: Event, trail: seq<Event>)
    requires Follows(c, trail) && MainReady(c, e) && e.ConnectEnds?
    ensures Follows(MainNext(c, e), trail + [e])
  {
    GetsOnMore(trail, e);
    if e.tok.Interrupted? {
      ReturnFollows(c, e, trail, Result(true, false, 0), [Stopped]);
    } else if e.tok != Completed(true) {
      ReturnFollows(c, e, trail, Result(false, false, 0), []);
    }
  }

  lemma SubscribeFollows(c: Control, e: Event, trail: seq<Event>)
    requires Follows(c, trail) && MainReady(c, e) && (e.PublishEnds? || e.SubscribeEnds?)
    ensures Follows(MainNext(c, e), trail + [e])
  {
    GetsOnMore(trail, e);
    if e.SubscribeEnds? {
      if e.tok.Interrupted? {
        ReturnFollows(c, e, trail, Result(true, false, 0), [Stopped]);
      } else if e.tok != Completed(true) {
        ReturnFollows(c, e, trail, Result(false, false, 0), []);
      }
    }
  }

  lemma ServeFollows(c: Control, e: Event, trail: seq<Event>)
    requires Follows(c, trail) && MainReady(c, e) && e.ServeEnds?
    ensures Follows(MainNext(c, e), trail + [e])
  {
    GetsOnMore(trail, e);
    var n := if e.why.StopSeen? then Stopped else if e.why.LinkLost? then Offline else Reconnecting;
    assert [Online] + [n] == [Online, n];
    ReturnFollows(c, e, trail, Result(e.why.StopSeen?, true, 0), [n]);
  }

  lemma StepFollows(env: Env, s: Cycle, e: Event, trail: seq<Event>)
    requires Follows(s.c, trail) && Enabled(env, s, e)
    ensures Follows(Apply(env, s, e).c, if MainEvent(e) then trail + [e] else trail)
  {
    match e
    case OptionsBuilt(_) => OptionsFollow(s.c, e, trail);
    case ConnectEnds(_) => ConnectFollows(s.c, e, trail);
    case PublishEnds => SubscribeFollows(s.c, e, trail);
    case SubscribeEnds(_) => SubscribeFollows(s.c, e, trail);
    case ServeEnds(_) => ServeFollows(s.c, e, trail);
    case _ =>
  }

  lemma TrailStep(before: seq<Event>, run: seq<Event>)
    requires run != []
    ensures (if MainEvent(run[0]) then before + [run[0]] else before) + Trail(run[1..]) == before + Trail(run)
  {
    if !MainEvent(run[0]) { assert [] + Trail(run[1..]) == Trail(run[1..]); }
  }

  lemma {:induction false} RunFollows(env: Env, s: Cycle, run: seq<Event>, before: seq<Event>)
    requires Follows(s.c, before) && Legal(env, s, run)
    ensures Follows(After(env, s, run).c, before + Trail(run))
    decreases |run|
  {
    if run == [] {
      assert before + [] == before;
    } else {
      StepFollows(env, s, run[0], before);
      TrailStep(before, run);
      RunFollows(env, Apply(env, s, run[0]), run[1..], if MainEvent(run[0]) then before + [run[0]] else before);
    }
  }

  // ---------------------------------------------------------------- how a cycle ends

  /** A stop was seen while connecting or subscribing. */
  predicate CutShort(run: seq<Event>) {
    ConnectEnds(TokenEnd.Interrupted) in run || SubscribeEnds(TokenEnd.Interrupted) in run
  }

  lemma WholeMembers(trail: seq<Event>)
    requires Whole(trail)
    ensures var last := trail[|trail| - 1];
            && (OptionsBuilt(false) in trail <==> |trail| == 1) && (OptionsBuilt(true) in trail <==> |trail| >= 2)
            && (PublishEnds in trail <==> |trail| >= 4) && (SubscribeEnds(Completed(true)) in trail <==> |trail| == 5)
            && (CutShort(trail) <==> (last.ConnectEnds? || last.SubscribeEnds?) && last.tok.Interrupted?)
            && (forall why :: ServeEnds(why) in trail <==> last == ServeEnds(why))
  {
    assert forall e :: e in trail <==> exists i :: 0 <= i < |trail| && trail[i] == e;
  }

  /** What the events of a run say of a cycle's end: it fails for good exactly if its options cannot be
      built, asks to return exactly then or once it has seen the stop signal, and has been online exactly
      if it got subscribed, in which case alone the backoff is cleared. */
  predicate ToldBy(run: seq<Event>, r: Result, said: seq<Notice>) {
    && r.exit == (if OptionsBuilt(false) in run then 1 else 0)
    && (r.shouldReturn <==> OptionsBuilt(false) in run || CutShort(run) || ServeEnds(StopSeen) in run)
    && (r.clearBackoff <==> SubscribeEnds(Completed(true)) in run)
    && said == (if SubscribeEnds(Completed(true)) in run then [Online] else [])
               + (if CutShort(run) || ServeEnds(StopSeen) in run then [Stopped]
                  else if ServeEnds(LinkLost) in run then [Offline]
                  else if ServeEnds(TokenDue) in run then [Reconnecting] else [])
  }

  lemma TrailTells(trail: seq<Event>, r: Result, said: seq<Notice>)
    requires Whole(trail) && Tells(trail[|trail| - 1], r, said)
    ensures ToldBy(trail, r, said)
  {
    WholeMembers(trail);
  }

  lemma SameTold(run: seq<Event>, r: Result, said: seq<Notice>)
    requires ToldBy(Trail(run), r, said)
    ensures ToldBy(run, r, said)
  {
    forall e | MainEvent(e) ensures e in Trail(run) <==> e in run {
      TrailMembers(run, e);
    }
  }

  lemma CycleTold(env: Env, plan: seq<Op>, workers: nat, capacity: nat, stopped: bool, before: nat, run: seq<Event>)
    requires Legal(env, Start(plan, workers, capacity, stopped, before), run)
    requires After(env, Start(plan, workers, capacity, stopped, before), run).c.pc.Done?
    ensures var c := After(env, Start(plan, workers, capacity, stopped, before), run).c;
            Whole(Trail(run)) && ToldBy(run, c.pc.result, c.notices)
  {
    RunFollows(env, Start(plan, workers, capacity, stopped, before), run, []);
    var c := After(env, Start(plan, workers, capacity, stopped, before), run).c;
    assert [] + Trail(run) == Trail(run);
    TrailTells(Trail(run), c.pc.result, c.notices);
    SameTold(run, c.pc.result, c.notices);
  }

  // ---------------------------------------------------------------- what a teardown runs

  /** The teardown operations that a run performs, in order. */
  ghost function Performed(env: Env, s: Cycle, run: seq<Event>): seq<Op>
    requires Legal(env, s, run)
    decreases |run|
  {
    if run == [] then []
    else (if run[0].TearDown? then [s.c.pc.todo[0]] else []) + Performed(env, Apply(env, s, run[0]), run[1..])
  }

  lemma StepTodo(env: Env, s: Cycle, e: Event)
    requires Returning(s.c) && Enabled(env, s, e)
    ensures var c := Apply(env, s, e).c;
            && Returning(c) && c.plan == s.c.plan && c.deferred == s.c.deferred
            && (if e.TearDown? then s.c.pc.Unwinding? && Todo(s.c) == [s.c.pc.todo[0]] + Todo(c) else Todo(c) == Todo(s.c))
  {
  }

  predicate SameFlags(c: Control, c': Control) {
    c'.attached == c.attached && c'.draining == c.draining && c'.cancelled == c.cancelled && c'.closed == c.closed
  }

  /** The control while its cycle returns. */
  predicate Returns(c: Control, c': Control, ops: seq<Op>) {
    && c'.plan == c.plan && c'.stopped == c.stopped && SameFlags(c, c')
    && (Returning(c') ==> c'.deferred == c.deferred && c'.routed == c.routed && c'.pc == Unwinding(c'.pc.result, ops))
  }

  lemma ReturnReturns(c: Control, r: Result, said: seq<Notice>)
    ensures Returns(c, Return(c, r, said), Scheduled(c.plan, c.deferred))
  {
  }

  lemma MainSchedules(c: Control, e: Event)
    requires MainReady(c, e)
    ensures Returns(c, MainNext(c, e), Scheduled(c.plan, c.deferred))
  {
    match e
    case OptionsBuilt(_) => ReturnReturns(c, Result(true, false, GENERIC_ERROR), []);
    case ConnectEnds(_) =>
      ReturnReturns(c, Result(true, false, 0), [Stopped]);
      ReturnReturns(c, Result(false, false, 0), []);
    case PublishEnds =>
    case SubscribeEnds(_) =>
      ReturnReturns(c, Result(true, false, 0), [Stopped]);
      ReturnReturns(c, Result(false, false, 0), []);
    case ServeEnds(_) =>
      ReturnReturns(c, Result(true, true, 0), [Stopped]);
      ReturnReturns(c, Result(false, true, 0), [Offline]);
      ReturnReturns(c, Result(false, true, 0), [Reconnecting]);
  }

  lemma StepScheduled(env: Env, s: Cycle, e: Event)
    requires !Returning(s.c) && Enabled(env, s, e)
    ensures !e.TearDown?
    ensures var c := Apply(env, s, e).c; c.plan == s.c.plan && (Returning(c) ==> Todo(c) == Scheduled(c.plan, c.deferred))
  {
    if MainEvent(e) { MainSchedules(s.c, e); }
  }

  lemma {:induction false} PerformsTodo(env: Env, s: Cycle, run: seq<Event>)
    requires Legal(env, s, run) && Returning(s.c)
    ensures var c := After(env, s, run).c;
            && Returning(c) && c.plan == s.c.plan && c.deferred == s.c.deferred
            && Performed(env, s, run) + Todo(c) == Todo(s.c)
    decreases |run|
  {
    if run != [] {
      StepTodo(env, s, run[0]);
      PerformsTodo(env, Apply(env, s, run[0]), run[1..]);
    }
  }

  lemma {:induction false} PerformsScheduled(env: Env, s: Cycle, run: seq<Event>)
    requires Legal(env, s, run) && !Returning(s.c)
    ensures var c := After(env, s, run).c;
            c.plan == s.c.plan && (Returning(c) ==> Performed(env, s, run) + Todo(c) == Scheduled(c.plan, c.deferred))
    decreases |run|
  {
    if run != [] {
      StepScheduled(env, s, run[0]);
      var s' := Apply(env, s, run[0]);
      if Returning(s'.c) {
        PerformsTodo(env, s', run[1..]);
      } else {
        PerformsScheduled(env, s', run[1..]);
      }
    }
  }

  /** How many functions have been deferred. */
  function Deferrals(c: Control, trail: seq<Event>): nat {
    if Returning(c) then (if |trail| <= 2 then |trail| else |trail| - 1)
    else if Stage(c.pc) < 2 then Stage(c.pc) + 1 else Stage(c.pc)
  }

  predicate DefersBy(c: Control, trail: seq<Event>) { Follows(c, trail) && c.deferred == Path(Deferrals(c, trail)) }

  lemma StepDefers(env: Env, s: Cycle, e: Event, trail: seq<Event>)
    requires DefersBy(s.c, trail) && Enabled(env, s, e)
    ensures DefersBy(Apply(env, s, e).c, if MainEvent(e) then trail + [e] else trail)
  {
    StepFollows(env, s, e, trail);
    assert Path(2) == Path(1) + [StopMqtt] && Path(3) == Path(2) + [ReleaseCallback] && Path(4) == Path(3) + [StopTimer];
  }

  lemma {:induction false} RunDefers(env: Env, s: Cycle, run: seq<Event>, before: seq<Event>)
    requires DefersBy(s.c, before) && Legal(env, s, run)
    ensures DefersBy(After(env, s, run).c, before + Trail(run))
    decreases |run|
  {
    if run == [] {
      assert before + [] == before;
    } else {
      StepDefers(env, s, run[0], before);
      TrailStep(before, run);
      RunDefers(env, Apply(env, s, run[0]), run[1..], if MainEvent(run[0]) then before + [run[0]] else before);
    }
  }

  /** The operations due by what a run has done: those of every function deferred on the way. */
  predicate Due(op: Op, run: seq<Event>) {
    match op
    case Unsubscribe => OptionsBuilt(true) in run
    case Disconnect => OptionsBuilt(true) in run
    case CloseDraining => PublishEnds in run
    case StopRenewTimer => SubscribeEnds(Completed(true)) in run
    case _ => true
  }

  lemma DueByPath(trail: seq<Event>, run: seq<Event>)
    requires Whole(trail) && trail == Trail(run)
    ensures forall op :: Owner(op) in Path(if |trail| <= 2 then |trail| else |trail| - 1) <==> Due(op, run)
  {
    WholeMembers(trail);
    TrailMembers(run, OptionsBuilt(true));
    TrailMembers(run, PublishEnds);
    TrailMembers(run, SubscribeEnds(Completed(true)));
  }

  /** A cycle that has ended has run exactly the operations due, each once, in the order of its plan. */
  lemma TeardownRunsWhatIsDue(env: Env, plan: seq<Op>, workers: nat, capacity: nat, stopped: bool, before: nat, run: seq<Event>)
    requires IsPlan(plan) && Legal(env, Start(plan, workers, capacity, stopped, before), run)
    requires After(env, Start(plan, workers, capacity, stopped, before), run).c.pc.Done?
    ensures var ops := Performed(env, Start(plan, workers, capacity, stopped, before), run);
            && DistinctOps(ops) && (forall op :: op in ops <==> Due(op, run))
            && (forall a, b :: NeverAfter(plan, a, b) ==> NeverAfter(ops, a, b))
  {
    var s := Start(plan, workers, capacity, stopped, before);
    var c, ops := After(env, s, run).c, Performed(env, s, run);
    PerformsScheduled(env, s, run);
    assert ops + [] == ops;
    RunDefers(env, s, run, []);
    assert [] + Trail(run) == Trail(run);
    DueByPath(Trail(run), run);
    ScheduledOps(plan, c.deferred);
    forall a, b | NeverAfter(plan, a, b) ensures NeverAfter(ops, a, b) {
      ScheduledOrder(plan, c.deferred, a, b);
    }
  }
}
