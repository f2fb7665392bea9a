/** The plugin supervisor's lock-held sections as steps over a value, and the subprocesses around it. */
module PluginState {
  import opened Numbers

  type Handle = nat

  const RESTART_BASE: int := 5 * SECOND
  const RESTART_MAX: int := 5 * MINUTE
  const STABLE_UPTIME: int := 2 * MINUTE

  /** History of relaunch attempts and deliveries; `stable` marks an attempt that found the dead
      subprocess past the stability window. */
  datatype Mark = Attempt(at: int, stable: bool) | Delivery

  /** The handle and when its subprocess was launched. */
  datatype Held = Held(client: Option<Handle>, notifier: Option<Handle>, startedAt: Option<int>)

  datatype Pace = Pace(nextRestartAt: Option<int>, backoff: int)

  /** The plugin's subprocesses: running, and observed to have exited.  Every launch mints a new handle. */
  datatype Procs = Procs(live: set<Handle>, exited: set<Handle>, nextHandle: Handle)

  datatype Tally = Tally(failing: bool, notifyFailures: nat, restarts: nat, restartFailures: nat, errorLines: nat)

  datatype Plugin = Plugin(
    restartable: bool, closed: bool, held: Held, pace: Pace, tally: Tally,
    procs: Procs, clock: int, log: seq<Mark>, outcomes: seq<bool>)

  const NOTHING := Held(None, None, None)

  /** A wrapper as the loader builds it, around a subprocess launched at `now`. */
  function Loaded(restartable: bool, now: int): Plugin {
    Plugin(restartable, false, Held(Some(0), Some(0), Some(now)), Pace(None, RESTART_BASE), Tally(false, 0, 0, 0, 0),
           Procs({0}, {}, 1), now, [], [])
  }

  datatype Event =
    | Begin(now: int, launchOk: bool)    // Notify up to its unlock
    | Check(now: int, launchOk: bool)    // CheckHealth
    | Lost(client: Option<Handle>)       // a Notify that used `client` met a transport error
    | Failed                             // recordFailure
    | Delivered                          // recordSuccess
    | Kill
    | Dies(h: Handle)                    // a subprocess exits by itself
    | Observed(h: Handle)                // go-plugin notices that it has

  predicate Enabled(s: Plugin, e: Event) {
    match e
    case Begin(now, _) => now >= s.clock
    case Check(now, _) => now >= s.clock
    case Dies(h) => h in s.procs.live
    case Observed(h) => h < s.procs.nextHandle && h !in s.procs.live
    case _ => true
  }

  function Reaped(p: Procs, client: Option<Handle>): Procs {
    if client.Some? then p.(live := p.live - {client.value}, exited := p.exited + {client.value}) else p
  }

  function Dropped(s: Plugin): Plugin {
    s.(held := NOTHING, procs := Reaped(s.procs, s.held.client))
  }

  predicate Dead(s: Plugin) {
    s.restartable && (s.held.client.None? || s.held.notifier.None? || s.held.client.value in s.procs.exited)
  }

  predicate LongLived(held: Held, now: int) { held.startedAt.Some? && now - held.startedAt.value >= STABLE_UPTIME }

  predicate TooEarly(s: Plugin, now: int) {
    !LongLived(s.held, now) && s.pace.nextRestartAt.Some? && now < s.pace.nextRestartAt.value
  }

  function BackoffNow(s: Plugin, now: int): int {
    if s.pace.backoff <= 0 || LongLived(s.held, now) then RESTART_BASE else s.pace.backoff
  }

  function Charged(s: Plugin, now: int): Plugin {
    var backoff := BackoffNow(s, now);
    s.(pace := Pace(Some(now + backoff), Min(2 * backoff, RESTART_MAX)),
       log := s.log + [Attempt(now, LongLived(s.held, now))])
  }

  /** A launch mints a handle; a failed one leaves nothing running. */
  function Launched(s: Plugin, now: int, ok: bool): Plugin {
    var h := s.procs.nextHandle;
    if ok then
      s.(held := Held(Some(h), Some(h), Some(now)),
         procs := s.procs.(nextHandle := h + 1, live := s.procs.live + {h}),
         tally := s.tally.(restarts := s.tally.restarts + 1))
    else
      s.(procs := s.procs.(nextHandle := h + 1, exited := s.procs.exited + {h}),
         tally := s.tally.(restartFailures := s.tally.restartFailures + 1))
  }

  function Restarted(s: Plugin, now: int, ok: bool): Plugin {
    if s.closed || !s.restartable then s
    else if TooEarly(s, now) then s.(pace := s.pace.(backoff := BackoffNow(s, now)))
    else Launched(Dropped(Charged(s, now)), now, ok)
  }

  /** The lock-held part that Notify and CheckHealth share: relaunch a dead subprocess. */
  function Revived(s: Plugin, now: int, ok: bool): Plugin {
    (if s.closed || !Dead(s) then s else Restarted(s, now, ok)).(clock := now)
  }

  function Apply(s: Plugin, e: Event): Plugin {
    match e
    case Begin(now, ok) => Revived(s, now, ok)
    case Check(now, ok) => Revived(s, now, ok)
    case Lost(client) => if s.held.client == client then Dropped(s) else s
    case Failed =>
      s.(tally := s.tally.(notifyFailures := s.tally.notifyFailures + 1, failing := true,
                           errorLines := s.tally.errorLines + (if s.tally.failing then 0 else 1)),
         outcomes := s.outcomes + [false])
    case Delivered =>
      s.(pace := Pace(None, RESTART_BASE), tally := s.tally.(failing := false),
         log := s.log + [Delivery], outcomes := s.outcomes + [true])
    case Kill => Dropped(s.(closed := true))
    case Dies(h) => s.(procs := s.procs.(live := s.procs.live - {h}))
    case Observed(h) => s.(procs := s.procs.(exited := s.procs.exited + {h}))
  }

  ghost predicate Legal(s: Plugin, run: seq<Event>)
    decreases |run|
  {
    run == [] || (Enabled(s, run[0]) && Legal(Apply(s, run[0]), run[1..]))
  }

  ghost function After(s: Plugin, run: seq<Event>): Plugin
    decreases |run|
  {
    if run == [] then s else After(Apply(s, run[0]), run[1..])
  }
}
