/** One MQTT connection cycle: the subscribe callback, the bounded message queue, the worker
    pool and the deferred teardown, as a labelled transition system.  Messages are named by
    their arrival number, so a ledger over them speaks about each delivery separately. */
module Pipeline {

  // ---------------------------------------------------------------- state

  /** `hung` marks a command that returns only once its context is cancelled. */
  datatype Worker = Idle | Busy(msg: nat, hung: bool) | Exited

  /** The subscribe callback runs on one ordered goroutine, so there is at most one call. */
  datatype Callback = Waiting | Sending(msg: nat)

  /** The functions `runCycle` defers, and the operations inside each of them. */
  datatype Deferred = StopWorkers | StopMqtt | ReleaseCallback | StopTimer
  datatype Op = CancelCommands | CloseQueue | JoinWorkers | Unsubscribe | Disconnect | CloseDraining | StopRenewTimer

  datatype Notice = AgentStarted | Online | Offline | Reconnecting | Stopped
  datatype Result = Result(shouldReturn: bool, clearBackoff: bool, exit: nat)

  /** Where the goroutine that runs the cycle stands. */
  datatype Pc =
    | Configuring | Connecting | Publishing | Subscribing | Serving
    | Unwinding(result: Result, todo: seq<Op>)
    | Done(result: Result)

  /** The cycle's own goroutine and the signals it owns.  `plan` is the order of a whole teardown;
      `attached` holds until Disconnect has returned; `routed` once Subscribe has installed the callback. */
  datatype Control = Control(
    plan: seq<Op>, pc: Pc, deferred: seq<Deferred>, notices: seq<Notice>,
    routed: bool, attached: bool, draining: bool, cancelled: bool, closed: bool, stopped: bool)

  /** The callback, the queue and the workers, with the history of every message. */
  datatype Traffic = Traffic(
    callback: Callback, queue: seq<nat>, capacity: nat, workers: seq<Worker>,
    droppedMessages: nat, crashed: bool,
    arrived: nat, enqueued: seq<nat>, taken: seq<nat>, finished: seq<nat>, dropped: seq<nat>)

  datatype Cycle = Cycle(c: Control, t: Traffic)

  /** What is taken on trust about the code around the cycle.
      barrier: once Disconnect has returned no callback runs, and it returns only between calls.
      heedsCancel: a command returns once its context is cancelled. */
  datatype Env = Env(barrier: bool, heedsCancel: bool)

  const GENERIC_ERROR: nat := 1

  function Ops(d: Deferred): seq<Op> {
    match d
    case StopWorkers => [CancelCommands, CloseQueue, JoinWorkers]
    case StopMqtt => [Unsubscribe, Disconnect]
    case ReleaseCallback => [CloseDraining]
    case StopTimer => [StopRenewTimer]
  }

  /** Deferred functions run last-in first-out: what a teardown runs on the code's own plan. */
  function Unwind(deferred: seq<Deferred>): seq<Op> {
    if deferred == [] then []
    else Ops(deferred[|deferred| - 1]) + Unwind(deferred[..|deferred| - 1])
  }

  function Owner(op: Op): Deferred {
    match op
    case CancelCommands => StopWorkers
    case CloseQueue => StopWorkers
    case JoinWorkers => StopWorkers
    case Unsubscribe => StopMqtt
    case Disconnect => StopMqtt
    case CloseDraining => ReleaseCallback
    case StopRenewTimer => StopTimer
  }

  /** The operations of a plan whose function has been deferred, in the order of the plan. */
  function Scheduled(plan: seq<Op>, deferred: seq<Deferred>): seq<Op> {
    if plan == [] then []
    else (if Owner(plan[0]) in deferred then [plan[0]] else []) + Scheduled(plan[1..], deferred)
  }

  /** The order that deferring last-in first-out gives a cycle which got as far as serving. */
  const LIFO: seq<Op> := [StopRenewTimer, CloseDraining, Unsubscribe, Disconnect, CancelCommands, CloseQueue, JoinWorkers]

  function Start(plan: seq<Op>, workers: nat, capacity: nat, stopped: bool, droppedBefore: nat): Cycle {
    Cycle(Control(plan, Configuring, [StopWorkers], [], false, true, false, false, false, stopped),
          Traffic(Waiting, [], capacity, seq(workers, _ => Idle), droppedBefore, false, 0, [], [], [], []))
  }

  // ---------------------------------------------------------------- steps

  datatype TokenEnd = Completed(ok: bool) | TimedOut | Interrupted
  datatype ServeEnd = StopSeen | LinkLost | TokenDue

  datatype Event =
    | Stop
    | OptionsBuilt(ok: bool) | ConnectEnds(tok: TokenEnd) | PublishEnds | SubscribeEnds(tok: TokenEnd) | ServeEnds(why: ServeEnd)
    | TearDown
    | Arrive | Enqueue | SendOnClosed | Drop
    | Take(w: nat, hangs: bool) | Finish(w: nat) | ExitOnCancel(w: nat) | ExitOnClose(w: nat)

  predicate MainEvent(e: Event) {
    e.OptionsBuilt? || e.ConnectEnds? || e.PublishEnds? || e.SubscribeEnds? || e.ServeEnds?
  }

  predicate AllExited(workers: seq<Worker>) {
    forall i :: 0 <= i < |workers| ==> workers[i].Exited?
  }

  /** Disconnect waits for a running callback; the final join waits for every worker.  The
      unsubscribe wait is bounded, and nothing else blocks. */
  predicate OpReady(env: Env, t: Traffic, op: Op) {
    match op
    case Disconnect => env.barrier ==> t.callback.Waiting?
    case JoinWorkers => AllExited(t.workers)
    case _ => true
  }

  predicate MainReady(c: Control, e: Event) {
    match e
    case OptionsBuilt(_) => c.pc.Configuring?
    case ConnectEnds(tok) => c.pc.Connecting? && (tok.Interrupted? ==> c.stopped)
    case PublishEnds => c.pc.Publishing?
    case SubscribeEnds(tok) => c.pc.Subscribing? && (tok.Interrupted? ==> c.stopped)
    case ServeEnds(why) => c.pc.Serving? && (why.StopSeen? ==> c.stopped)
    case _ => false
  }

  predicate IsIdle(t: Traffic, w: nat) { w < |t.workers| && t.workers[w].Idle? }

  predicate IsBusy(t: Traffic, w: nat) { w < |t.workers| && t.workers[w].Busy? }

  predicate TrafficReady(env: Env, c: Control, t: Traffic, e: Event) {
    match e
    case Arrive => c.routed && t.callback.Waiting? && (env.barrier ==> c.attached)
    // The callback selects between a send on the queue and a closed draining channel.
    case Enqueue => t.callback.Sending? && !c.closed && |t.queue| < t.capacity
    case SendOnClosed => t.callback.Sending? && c.closed
    case Drop => t.callback.Sending? && c.draining
    // A worker selects between a receive and the cycle context; a closed queue still yields what it holds.
    case Take(w, _) => IsIdle(t, w) && t.queue != []
    case Finish(w) => IsBusy(t, w) && (t.workers[w].hung ==> c.cancelled && env.heedsCancel)
    case ExitOnCancel(w) => IsIdle(t, w) && c.cancelled
    case ExitOnClose(w) => IsIdle(t, w) && c.closed && t.queue == []
    case _ => false
  }

  predicate Enabled(env: Env, s: Cycle, e: Event) {
    && !s.t.crashed
    && (if e.Stop? then !s.c.stopped
        else if e.TearDown? then s.c.pc.Unwinding? && s.c.pc.todo != [] && OpReady(env, s.t, s.c.pc.todo[0])
        else if MainEvent(e) then MainReady(s.c, e)
        else TrafficReady(env, s.c, s.t, e))
  }

  function Return(c: Control, result: Result, said: seq<Notice>): Control {
    c.(pc := Unwinding(result, Scheduled(c.plan, c.deferred)), notices := c.notices + said)
  }

  function MainNext(c: Control, e: Event): Control
    requires MainReady(c, e)
  {
    match e
    case OptionsBuilt(ok) =>
      if ok then c.(pc := Connecting, deferred := c.deferred + [StopMqtt])
      else Return(c, Result(true, false, GENERIC_ERROR), [])
    case ConnectEnds(tok) =>
      if tok.Interrupted? then Return(c, Result(true, false, 0), [Stopped])
      else if tok == Completed(true) then c.(pc := Publishing)
      else Return(c, Result(false, false, 0), [])
    case PublishEnds =>
      c.(pc := Subscribing, deferred := c.deferred + [ReleaseCallback], routed := true)
    case SubscribeEnds(tok) =>
      if tok.Interrupted? then Return(c, Result(true, false, 0), [Stopped])
      else if tok == Completed(true) then
        c.(pc := Serving, deferred := c.deferred + [StopTimer], notices := c.notices + [Online])
      else Return(c, Result(false, false, 0), [])
    case ServeEnds(why) =>
      if why.StopSeen? then Return(c, Result(true, true, 0), [Stopped])
      else if why.LinkLost? then Return(c, Result(false, true, 0), [Offline])
      else Return(c, Result(false, true, 0), [Reconnecting])
  }

  /** The first operation left runs; each of four sets its flag. */
  function TornDown(c: Control): Control
    requires c.pc.Unwinding? && c.pc.todo != []
  {
    var op, left := c.pc.todo[0], c.pc.todo[1..];
    c.(pc := if left == [] then Done(c.pc.result) else Unwinding(c.pc.result, left),
       draining := c.draining || op == CloseDraining,
       attached := c.attached && op != Disconnect,
       cancelled := c.cancelled || op == CancelCommands,
       closed := c.closed || op == CloseQueue)
  }

  function TrafficNext(env: Env, c: Control, t: Traffic, e: Event): Traffic
    requires TrafficReady(env, c, t, e)
  {
    match e
    case Arrive => t.(callback := Sending(t.arrived), arrived := t.arrived + 1)
    case Enqueue => t.(callback := Waiting, queue := t.queue + [t.callback.msg], enqueued := t.enqueued + [t.callback.msg])
    case SendOnClosed => t.(crashed := true)
    case Drop => t.(callback := Waiting, dropped := t.dropped + [t.callback.msg], droppedMessages := t.droppedMessages + 1)
    case Take(w, hangs) =>
      t.(workers := t.workers[w := Busy(t.queue[0], hangs)], queue := t.queue[1..], taken := t.taken + [t.queue[0]])
    case Finish(w) => t.(workers := t.workers[w := Idle], finished := t.finished + [t.workers[w].msg])
    case ExitOnCancel(w) => t.(workers := t.workers[w := Exited])
    case ExitOnClose(w) => t.(workers := t.workers[w := Exited])
  }

  function Apply(env: Env, s: Cycle, e: Event): Cycle
    requires Enabled(env, s, e)
  {
    if e.Stop? then s.(c := s.c.(stopped := true))
    else if e.TearDown? then s.(c := TornDown(s.c))
    else if MainEvent(e) then s.(c := MainNext(s.c, e))
    else s.(t := TrafficNext(env, s.c, s.t, e))
  }

  ghost predicate Legal(env: Env, s: Cycle, run: seq<Event>)
    decreases |run|
  {
    run == [] || (Enabled(env, s, run[0]) && Legal(env, Apply(env, s, run[0]), run[1..]))
  }

  ghost function After(env: Env, s: Cycle, run: seq<Event>): Cycle
    requires Legal(env, s, run)
    decreases |run|
  {
    if run == [] then s else After(env, Apply(env, s, run[0]), run[1..])
  }
}
