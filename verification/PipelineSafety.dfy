/** What every interleaving of the cycle goroutine, the callback and the workers keeps. */
module PipelineSafety {
  import opened Pipeline
  import opened TeardownPlan

  // ---------------------------------------------------------------- control

  /** The teardown operations still to come; none while the cycle is not yet returning. */
  function Todo(c: Control): seq<Op> { if c.pc.Unwinding? then c.pc.todo else [] }

  predicate Returning(c: Control) { c.pc.Unwinding? || c.pc.Done? }

  ghost predicate PcInv(c: Control) {
    match c.pc
    case Configuring => c.deferred == Path(1)
    case Connecting => c.deferred == Path(2)
    case Publishing => c.deferred == Path(2)
    case Subscribing => c.deferred == Path(3)
    case Serving => c.deferred == Path(4)
    case Unwinding(_, todo) => todo != [] && DistinctOps(todo) && Sound(todo)
    case Done(_) => true
  }

  /** Each flag tells whether its operation has run. */
  ghost predicate FlagInv(c: Control) {
    if Returning(c) then
      && (c.cancelled <==> CancelCommands !in Todo(c))
      && (c.closed <==> CloseQueue !in Todo(c))
      && (c.routed ==> (c.attached <==> Disconnect in Todo(c)) && (c.draining <==> CloseDraining !in Todo(c)))
    else
      && !c.cancelled && !c.closed && !c.draining && c.attached
      && (c.routed <==> c.pc.Subscribing? || c.pc.Serving?)
  }

  /** What has run had to come first. */
  ghost predicate RankInv(c: Control) {
    Returning(c) ==>
      && (CloseDraining in Todo(c) ==> Disconnect in Todo(c))
      && (Disconnect in Todo(c) ==> CloseQueue in Todo(c))
      && (CancelCommands in Todo(c) ==> JoinWorkers in Todo(c))
  }

  ghost predicate ControlInv(c: Control) { IsPlan(c.plan) && Sound(c.plan) && PcInv(c) && FlagInv(c) && RankInv(c) }

  predicate Ends(said: seq<Notice>, n: Notice) { said != [] && said[|said| - 1] == n }

  /** The lifecycle notices of a cycle, matched to what it returns. */
  predicate Outcome(said: seq<Notice>, r: Result) {
    && |said| <= 2
    && (|said| == 2 ==> said[0] == Online && (said[1] == Stopped || said[1] == Offline || said[1] == Reconnecting))
    && (|said| == 1 ==> said[0] == Stopped)
    && (r.clearBackoff <==> |said| == 2)
    && (r.shouldReturn <==> Ends(said, Stopped) || r.exit == GENERIC_ERROR)
    && (r.exit == 0 || (r.exit == GENERIC_ERROR && said == []))
  }

  ghost predicate NoticeInv(c: Control) {
    match c.pc
    case Unwinding(r, _) => Outcome(c.notices, r) && (Ends(c.notices, Stopped) ==> c.stopped)
    case Done(r) => Outcome(c.notices, r) && (Ends(c.notices, Stopped) ==> c.stopped)
    case Serving => |c.notices| == 1 && c.notices[0] == Online
    case _ => c.notices == []
  }

  lemma ReturnKeepsControl(c: Control, result: Result, said: seq<Notice>, k: nat)
    requires ControlInv(c) && !Returning(c) && 1 <= k <= 4 && c.deferred == Path(k) && (c.routed ==> k >= 3)
    ensures ControlInv(Return(c, result, said))
  {
    ScheduledOps(c.plan, c.deferred);
    ScheduledOrder(c.plan, c.deferred, Disconnect, CloseDraining);
    ScheduledOrder(c.plan, c.deferred, CloseQueue, Disconnect);
    ScheduledOrder(c.plan, c.deferred, JoinWorkers, CancelCommands);
    assert JoinWorkers in Scheduled(c.plan, c.deferred);
  }

  lemma MainKeepsControl(c: Control, e: Event)
    requires ControlInv(c) && MainReady(c, e)
    ensures ControlInv(MainNext(c, e))
  {
    match e
    case OptionsBuilt(_) => ReturnKeepsControl(c, Result(true, false, GENERIC_ERROR), [], 1);
    case ConnectEnds(_) =>
      ReturnKeepsControl(c, Result(true, false, 0), [Stopped], 2);
      ReturnKeepsControl(c, Result(false, false, 0), [], 2);
    case PublishEnds =>
    case SubscribeEnds(_) =>
      ReturnKeepsControl(c, Result(true, false, 0), [Stopped], 3);
      ReturnKeepsControl(c, Result(false, false, 0), [], 3);
    case ServeEnds(_) =>
      ReturnKeepsControl(c, Result(true, true, 0), [Stopped], 4);
      ReturnKeepsControl(c, Result(false, true, 0), [Offline], 4);
      ReturnKeepsControl(c, Result(false, true, 0), [Reconnecting], 4);
  }

  lemma ReturnKeepsNotices(c: Control, r: Result, said: seq<Notice>)
    requires Outcome(c.notices + said, r) && (Ends(c.notices + said, Stopped) ==> c.stopped)
    ensures NoticeInv(Return(c, r, said))
  {
  }

  lemma MainKeepsNotices(c: Control, e: Event)
    requires NoticeInv(c) && MainReady(c, e)
    ensures NoticeInv(MainNext(c, e))
  {
    match e
    case OptionsBuilt(ok) => ReturnKeepsNotices(c, Result(true, false, GENERIC_ERROR), []);
    case ConnectEnds(tok) =>
      if tok.Interrupted? { ReturnKeepsNotices(c, Result(true, false, 0), [Stopped]); }
      ReturnKeepsNotices(c, Result(false, false, 0), []);
    case PublishEnds =>
    case SubscribeEnds(tok) =>
      if tok.Interrupted? { ReturnKeepsNotices(c, Result(true, false, 0), [Stopped]); }
      ReturnKeepsNotices(c, Result(false, false, 0), []);
    case ServeEnds(why) =>
      if why.StopSeen? {
        ReturnKeepsNotices(c, Result(true, true, 0), [Stopped]);
      } else {
        ReturnKeepsNotices(c, Result(false, true, 0), [if why.LinkLost? then Offline else Reconnecting]);
      }
  }

  lemma TearDownKeepsControl(c: Control)
    requires ControlInv(c) && c.pc.Unwinding?
    ensures ControlInv(TornDown(c)) && Returning(TornDown(c)) && Todo(TornDown(c)) == Todo(c)[1..]
  {
    PoppedSound(c.pc.todo);
  }

  lemma TearDownKeepsNotices(c: Control)
    requires NoticeInv(c) && c.pc.Unwinding? && c.pc.todo != []
    ensures NoticeInv(TornDown(c))
  {
  }

  // ---------------------------------------------------------------- ledger

  function HeldBy(w: Worker): multiset<nat> { if w.Busy? then multiset{w.msg} else multiset{} }

  function Held(workers: seq<Worker>): multiset<nat> {
    if workers == [] then multiset{} else HeldBy(workers[0]) + Held(workers[1..])
  }

  function Pending(c: Callback): multiset<nat> { if c.Sending? then multiset{c.msg} else multiset{} }

  function UpTo(n: nat): multiset<nat> { if n == 0 then multiset{} else UpTo(n - 1) + multiset{n - 1} }

  ghost predicate Increasing(s: seq<nat>) { forall i, j :: 0 <= i < j < |s| ==> s[i] < s[j] }

  ghost predicate Below(s: seq<nat>, bound: nat) { forall i :: 0 <= i < |s| ==> s[i] < bound }

  ghost predicate OrderInv(t: Traffic) {
    && t.enqueued == t.taken + t.queue
    && |t.queue| <= t.capacity
    && (t.callback.Sending? ==> t.arrived == t.callback.msg + 1)
    && Increasing(t.enqueued)
    && Below(t.enqueued, if t.callback.Sending? then t.callback.msg else t.arrived)
  }

  ghost predicate CountInv(t: Traffic) {
    && multiset(t.taken) == multiset(t.finished) + Held(t.workers)
    && Balanced(t.arrived, t.enqueued, t.dropped, t.callback)
  }

  lemma Regroup(a: multiset<nat>, b: multiset<nat>, c: multiset<nat>, d: multiset<nat>, e: multiset<nat>)
    requires b + c == d + e
    ensures (a + b) + c == (a + d) + e
  {
    assert (a + b) + c == a + (b + c) && (a + d) + e == a + (d + e);
  }

  lemma {:induction false} HeldUpdate(workers: seq<Worker>, w: nat, x: Worker)
    requires w < |workers|
    ensures Held(workers[w := x]) + HeldBy(workers[w]) == Held(workers) + HeldBy(x)
  {
    var changed := workers[w := x];
    if w == 0 {
      assert changed[1..] == workers[1..];
    } else {
      HeldUpdate(workers[1..], w - 1, x);
      assert changed[1..] == workers[1..][w - 1 := x];
      Regroup(HeldBy(workers[0]), Held(changed[1..]), HeldBy(workers[w]), Held(workers[1..]), HeldBy(x));
    }
  }

  lemma TrafficKeepsOrder(env: Env, c: Control, t: Traffic, e: Event)
    requires OrderInv(t) && TrafficReady(env, c, t, e)
    ensures OrderInv(TrafficNext(env, c, t, e))
  {
    var t' := TrafficNext(env, c, t, e);
    if e.Enqueue? {
      assert t'.enqueued == t'.taken + t'.queue;
    } else if e.Take? {
      assert t.queue == [t.queue[0]] + t.queue[1..];
      assert t'.enqueued == t'.taken + t'.queue;
    }
  }

  /** The callback's side of the ledger. */
  predicate Balanced(arrived: nat, enqueued: seq<nat>, dropped: seq<nat>, callback: Callback) {
    UpTo(arrived) == multiset(enqueued) + multiset(dropped) + Pending(callback)
  }

  lemma CallbackKeepsCount(env: Env, c: Control, t: Traffic, e: Event)
    requires CountInv(t) && TrafficReady(env, c, t, e)
    requires e.Arrive? || e.Enqueue? || e.SendOnClosed? || e.Drop?
    ensures CountInv(TrafficNext(env, c, t, e))
  {
    match e
    case Arrive => CountArrive(t.arrived, t.enqueued, t.dropped);
    case Enqueue => CountEnqueue(t.arrived, t.enqueued, t.dropped, t.callback.msg);
    case Drop => CountDrop(t.arrived, t.enqueued, t.dropped, t.callback.msg);
    case _ =>
  }

  lemma CountArrive(arrived: nat, enqueued: seq<nat>, dropped: seq<nat>)
    requires Balanced(arrived, enqueued, dropped, Waiting)
    ensures Balanced(arrived + 1, enqueued, dropped, Sending(arrived))
  {
    assert multiset(enqueued) + multiset(dropped) + multiset{} == multiset(enqueued) + multiset(dropped);
  }

  lemma CountEnqueue(arrived: nat, enqueued: seq<nat>, dropped: seq<nat>, m: nat)
    requires Balanced(arrived, enqueued, dropped, Sending(m))
    ensures Balanced(arrived, enqueued + [m], dropped, Waiting)
  {
    assert multiset(enqueued + [m]) == multiset(enqueued) + multiset{m};
  }

  lemma CountDrop(arrived: nat, enqueued: seq<nat>, dropped: seq<nat>, m: nat)
    requires Balanced(arrived, enqueued, dropped, Sending(m))
    ensures Balanced(arrived, enqueued, dropped + [m], Waiting)
  {
    assert multiset(dropped + [m]) == multiset(dropped) + multiset{m};
  }

  lemma FinishKeepsCount(taken: multiset<nat>, finished: seq<nat>, workers: seq<Worker>, w: nat)
    requires w < |workers| && workers[w].Busy?
    requires taken == multiset(finished) + Held(workers)
    ensures taken == multiset(finished + [workers[w].msg]) + Held(workers[w := Idle])
  {
    HeldUpdate(workers, w, Idle);
    var after, m := Held(workers[w := Idle]), multiset{workers[w].msg};
    assert after + m == Held(workers);
    assert multiset(finished + [workers[w].msg]) == multiset(finished) + m;
    assert multiset(finished) + m + after == multiset(finished) + (after + m);
  }

  lemma TakeKeepsCount(taken: seq<nat>, finished: multiset<nat>, workers: seq<Worker>, w: nat, m: nat, hangs: bool)
    requires w < |workers| && workers[w].Idle?
    requires multiset(taken) == finished + Held(workers)
    ensures multiset(taken + [m]) == finished + Held(workers[w := Busy(m, hangs)])
  {
    HeldUpdate(workers, w, Busy(m, hangs));
    var after := Held(workers[w := Busy(m, hangs)]);
    assert after == after + multiset{};
    assert multiset(taken + [m]) == multiset(taken) + multiset{m};
    assert finished + Held(workers) + multiset{m} == finished + (Held(workers) + multiset{m});
  }

  lemma ExitKeepsHeld(workers: seq<Worker>, w: nat)
    requires w < |workers| && workers[w].Idle?
    ensures Held(workers[w := Exited]) == Held(workers)
  {
    HeldUpdate(workers, w, Exited);
    assert Held(workers[w := Exited]) == Held(workers[w := Exited]) + multiset{};
    assert Held(workers) == Held(workers) + multiset{};
  }

  lemma WorkerKeepsCount(env: Env, c: Control, t: Traffic, e: Event)
    requires OrderInv(t) && CountInv(t) && TrafficReady(env, c, t, e)
    requires e.Take? || e.Finish? || e.ExitOnCancel? || e.ExitOnClose?
    ensures CountInv(TrafficNext(env, c, t, e))
  {
    match e
    case Take(w, hangs) => TakeKeepsCount(t.taken, multiset(t.finished), t.workers, w, t.queue[0], hangs);
    case Finish(w) => FinishKeepsCount(multiset(t.taken), t.finished, t.workers, w);
    case ExitOnCancel(w) => ExitKeepsHeld(t.workers, w);
    case ExitOnClose(w) => ExitKeepsHeld(t.workers, w);
  }

  // ---------------------------------------------------------------- the invariant

  ghost predicate SafeInv(s: Cycle) {
    && !s.t.crashed
    && (s.t.callback.Sending? ==> s.c.routed && s.c.attached)
    && (Returning(s.c) && JoinWorkers !in Todo(s.c) ==> AllExited(s.t.workers))
    && (s.t.dropped != [] ==> s.c.draining)
  }

  ghost predicate Inv(s: Cycle) {
    ControlInv(s.c) && NoticeInv(s.c) && OrderInv(s.t) && CountInv(s.t) && SafeInv(s)
  }

  lemma NothingHeldAtStart(n: nat)
    ensures Held(seq(n, _ => Idle)) == multiset{}
  {
    if n > 0 {
      assert seq(n, _ => Idle)[1..] == seq<Worker>(n - 1, _ => Idle);
      NothingHeldAtStart(n - 1);
    }
  }

  lemma StartInv(plan: seq<Op>, workers: nat, capacity: nat, stopped: bool, droppedBefore: nat)
    requires IsPlan(plan) && Sound(plan)
    ensures Inv(Start(plan, workers, capacity, stopped, droppedBefore))
  {
    NothingHeldAtStart(workers);
  }

  lemma TrafficKeepsSafe(env: Env, s: Cycle, e: Event)
    requires env.barrier && ControlInv(s.c) && SafeInv(s) && TrafficReady(env, s.c, s.t, e)
    ensures SafeInv(s.(t := TrafficNext(env, s.c, s.t, e)))
  {
  }

  lemma MainKeepsSafe(s: Cycle, e: Event)
    requires ControlInv(s.c) && SafeInv(s) && MainReady(s.c, e)
    ensures SafeInv(s.(c := MainNext(s.c, e)))
  {
    ScheduledOps(s.c.plan, s.c.deferred);
  }

  lemma TearDownKeepsSafe(env: Env, s: Cycle)
    requires env.barrier && ControlInv(s.c) && SafeInv(s) && Enabled(env, s, TearDown)
    ensures SafeInv(s.(c := TornDown(s.c)))
  {
    PoppedSound(s.c.pc.todo);
  }

  lemma TrafficKeepsInv(env: Env, s: Cycle, e: Event)
    requires env.barrier && Inv(s) && TrafficReady(env, s.c, s.t, e)
    ensures Inv(s.(t := TrafficNext(env, s.c, s.t, e)))
  {
    TrafficKeepsOrder(env, s.c, s.t, e);
    if e.Arrive? || e.Enqueue? || e.SendOnClosed? || e.Drop? {
      CallbackKeepsCount(env, s.c, s.t, e);
    } else {
      WorkerKeepsCount(env, s.c, s.t, e);
    }
    TrafficKeepsSafe(env, s, e);
  }

  lemma MainKeepsInv(s: Cycle, e: Event)
    requires Inv(s) && MainReady(s.c, e)
    ensures Inv(s.(c := MainNext(s.c, e)))
  {
    MainKeepsControl(s.c, e);
    MainKeepsNotices(s.c, e);
    MainKeepsSafe(s, e);
  }

  lemma StepKeepsInv(env: Env, s: Cycle, e: Event)
    requires env.barrier && Inv(s) && Enabled(env, s, e)
    ensures Inv(Apply(env, s, e))
  {
    if e.Stop? {
    } else if e.TearDown? {
      TearDownKeepsControl(s.c);
      TearDownKeepsNotices(s.c);
      TearDownKeepsSafe(env, s);
    } else if MainEvent(e) {
      MainKeepsInv(s, e);
    } else {
      TrafficKeepsInv(env, s, e);
    }
  }

  lemma {:induction false} RunKeepsInv(env: Env, s: Cycle, run: seq<Event>)
    requires env.barrier && Inv(s) && Legal(env, s, run)
    ensures Inv(After(env, s, run))
    decreases |run|
  {
    if run != [] {
      StepKeepsInv(env, s, run[0]);
      RunKeepsInv(env, Apply(env, s, run[0]), run[1..]);
    }
  }
}
