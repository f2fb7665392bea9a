/** The wrapper around one notification plugin.  Each section that runs under its mutex is a method
    proved to be one step of PluginState; Notify shows where other goroutines may come between. */
module Supervisor {
  import opened Numbers
  import opened PluginState
  import opened PluginResults

  /** How a launch goes: it can fail at the handshake, at dispensing, or at the type of what is dispensed. */
  datatype Launch = Works | NoClient | NoDispense | WrongType

  /** How the RPC of a Notify ends. */
  datatype Rpc = Accepted | Refused | Broken

  ghost predicate Reaches(s: Plugin, s': Plugin) {
    exists run :: Legal(s, run) && After(s, run) == s'
  }

  lemma StepReaches(s: Plugin, e: Event)
    requires Enabled(s, e)
    ensures Reaches(s, Apply(s, e))
  {
    assert [e][1..] == [];
    assert Legal(Apply(s, e), []) && After(Apply(s, e), []) == Apply(s, e);
    assert Legal(s, [e]) && After(s, [e]) == Apply(s, e);
  }

  lemma {:induction false} Joined(s: Plugin, a: seq<Event>, b: seq<Event>)
    requires Legal(s, a) && Legal(After(s, a), b)
    ensures Legal(s, a + b) && After(s, a + b) == After(After(s, a), b)
    decreases |a|
  {
    if a == [] {
      assert a + b == b;
    } else {
      Joined(Apply(s, a[0]), a[1..], b);
      assert (a + b)[1..] == a[1..] + b;
    }
  }

  lemma ReachesOn(s: Plugin, s1: Plugin, s2: Plugin)
    requires Reaches(s, s1) && Reaches(s1, s2)
    ensures Reaches(s, s2)
  {
    var a :| Legal(s, a) && After(s, a) == s1;
    var b :| Legal(s1, b) && After(s1, b) == s2;
    Joined(s, a, b);
  }

  lemma AndThen(s0: Plugin, steps: seq<Event>, e: Event)
    requires Legal(s0, steps) && Enabled(After(s0, steps), e)
    ensures Legal(s0, steps + [e]) && After(s0, steps + [e]) == Apply(After(s0, steps), e)
  {
    assert [e][1..] == [];
    Joined(s0, steps, [e]);
  }

  /** Where a call has got to: somewhere that a run leads to, and if it is quiet, where its own steps lead. */
  ghost predicate OnTrack(s0: Plugin, s: Plugin, steps: seq<Event>, quiet: bool) {
    OwnInv(s) && Reaches(s0, s) && (quiet ==> Legal(s0, steps) && After(s0, steps) == s)
  }

  lemma Begins(s: Plugin, quiet: bool)
    requires OwnInv(s)
    ensures OnTrack(s, s, [], quiet)
  {
    assert Legal(s, []) && After(s, []) == s;
  }

  lemma Does(s0: Plugin, s: Plugin, steps: seq<Event>, e: Event, quiet: bool)
    requires OnTrack(s0, s, steps, quiet) && Enabled(s, e)
    ensures OnTrack(s0, Apply(s, e), steps + [e], quiet)
  {
    StepOwned(s, e);
    StepReaches(s, e);
    ReachesOn(s0, s, Apply(s, e));
    if quiet { AndThen(s0, steps, e); }
  }

  lemma OthersDid(s0: Plugin, s: Plugin, s': Plugin, steps: seq<Event>, quiet: bool)
    requires OnTrack(s0, s, steps, quiet) && OwnInv(s') && Reaches(s, s') && (quiet ==> s' == s)
    ensures OnTrack(s0, s', steps, quiet)
  {
    ReachesOn(s0, s, s');
  }

  class Wrapper {
    const restartable: bool
    var client: Option<Handle>
    var notifier: Option<Handle>
    var startedAt: Option<int>
    var nextRestartAt: Option<int>
    var restartBackoff: int
    var closed: bool
    var failing: bool
    var notifyFailures: nat
    var restarts: nat
    var restartFailures: nat
    // the plugin's subprocesses, as the operating system and go-plugin see them
    var live: set<Handle>
    var exited: set<Handle>
    var nextHandle: Handle
    var clock: int
    // the agent log's "delivery failed" lines, and the histories the restart schedule is judged by
    var errorLines: nat
    ghost var log: seq<Mark>
    ghost var outcomes: seq<bool>

    ghost function State(): Plugin
      reads this
    {
      Plugin(restartable, closed, Held(client, notifier, startedAt), Pace(nextRestartAt, restartBackoff),
             Tally(failing, notifyFailures, restarts, restartFailures, errorLines),
             Procs(live, exited, nextHandle), clock, log, outcomes)
    }

    constructor (restartable: bool, now: int)
      ensures State() == Loaded(restartable, now)
    {
      this.restartable := restartable;
      client, notifier, startedAt := Some(0), Some(0), Some(now);
      nextRestartAt, restartBackoff := None, RESTART_BASE;
      closed, failing, notifyFailures, restarts, restartFailures, errorLines := false, false, 0, 0, 0, 0;
      live, exited, nextHandle, clock := {0}, {}, 1, now;
      log, outcomes := [], [];
    }

    method KillClient(h: Handle)
      modifies this`live, this`exited
      ensures live == old(live) - {h} && exited == old(exited) + {h}
    {
      live, exited := live - {h}, exited + {h};
    }

    method DropLocked()
      modifies this
      ensures State() == Dropped(old(State()))
    {
      if client.Some? {
        KillClient(client.value);
      }
      client, notifier, startedAt := None, None, None;
    }

    method DeadLocked() returns (dead: bool)
      ensures dead == Dead(State())
    {
      if !restartable {
        return false;
      }
      return client.None? || notifier.None? || client.value in exited;
    }

    /** Starts a subprocess; on any failure what was started is killed again. */
    method LaunchNotifier(launch: Launch) returns (ok: bool, h: Handle)
      requires nextHandle !in live
      modifies this`live, this`exited, this`nextHandle
      ensures ok == launch.Works? && h == old(nextHandle) && nextHandle == old(nextHandle) + 1
      ensures live == old(live) + (if ok then {h} else {})
      ensures exited == old(exited) + (if ok then {} else {h})
    {
      h := nextHandle;
      nextHandle := nextHandle + 1;
      live := live + {h};
      if launch.NoClient? {
        KillClient(h);
        return false, h;
      }
      if launch.NoDispense? {
        KillClient(h);
        return false, h;
      }
      if launch.WrongType? {
        KillClient(h);
        return false, h;
      }
      return true, h;
    }

    /** The part of a restart that consults and charges the schedule. */
    method ChargeLocked(now: int) returns (go: bool)
      modifies this`restartBackoff, this`nextRestartAt, this`log
      ensures go == !TooEarly(old(State()), now)
      ensures go ==> State() == Charged(old(State()), now)
      ensures !go ==> nextRestartAt == old(nextRestartAt)
      ensures !go ==> State() == old(State()).(pace := Pace(nextRestartAt, BackoffNow(old(State()), now)))
    {
      if restartBackoff <= 0 {
        restartBackoff := RESTART_BASE;
      }
      ghost var stable := LongLived(Held(client, notifier, startedAt), now);
      if startedAt.Some? && now - startedAt.value >= STABLE_UPTIME {
        restartBackoff := RESTART_BASE;
        nextRestartAt := None;
      }
      if nextRestartAt.Some? && now < nextRestartAt.value {
        return false;
      }
      var backoff := restartBackoff;
      nextRestartAt := Some(now + backoff);
      restartBackoff := Min(2 * backoff, RESTART_MAX);
      log := log + [Attempt(now, stable)];
      return true;
    }

    /** The part of a restart that replaces the subprocess. */
    method RelaunchLocked(now: int, launch: Launch)
      requires nextHandle !in live
      modifies this
      ensures State() == Launched(Dropped(old(State())), now, launch.Works?)
    {
      DropLocked();
      var ok, h := LaunchNotifier(launch);
      if !ok {
        restartFailures := restartFailures + 1;
        return;
      }
      client, notifier, startedAt := Some(h), Some(h), Some(now);
      restarts := restarts + 1;
    }

    method RestartLocked(now: int, launch: Launch)
      requires nextHandle !in live
      modifies this
      ensures State() == Restarted(old(State()), now, launch.Works?)
    {
      if closed || !restartable {
        return;
      }
      var go := ChargeLocked(now);
      if !go {
        return;
      }
      RelaunchLocked(now, launch);
    }

    method Kill()
      modifies this
      ensures State() == Apply(old(State()), Event.Kill)
    {
      closed := true;
      DropLocked();
    }

    method CheckHealth(now: int, launch: Launch)
      requires OwnInv(State())
      modifies this
      ensures State() == Apply(old(State()), Check(now, launch.Works?))
    {
      clock := now;
      if !closed {
        var dead := DeadLocked();
        if dead {
          RestartLocked(now, launch);
        }
      }
    }

    method RecordFailure()
      modifies this
      ensures State() == Apply(old(State()), Failed)
    {
      notifyFailures := notifyFailures + 1;
      outcomes := outcomes + [false];
      if failing {
        return;
      }
      failing := true;
      errorLines := errorLines + 1;
    }

    method RecordSuccess()
      modifies this
      ensures State() == Apply(old(State()), Delivered)
    {
      restartBackoff := RESTART_BASE;
      nextRestartAt := None;
      log, outcomes := log + [Delivery], outcomes + [true];
      if !failing {
        return;
      }
      failing := false;
    }

    /** Notify up to the point where it releases the mutex. */
    method BeginNotify(now: int, launch: Launch) returns (wasClosed: bool, n: Option<Handle>, c: Option<Handle>)
      requires OwnInv(State())
      modifies this
      ensures State() == Apply(old(State()), Begin(now, launch.Works?))
      ensures wasClosed == closed && (!wasClosed ==> n == notifier && c == client)
    {
      clock := now;
      wasClosed, n, c := closed, None, None;
      if closed {
        return;
      }
      var dead := DeadLocked();
      if dead {
        RestartLocked(now, launch);
      }
      n, c := notifier, client;
    }

    /** After a transport error: drop the handle only if it is still the one the call used. */
    method DropIfCurrent(used: Option<Handle>)
      modifies this
      ensures State() == Apply(old(State()), Lost(used))
    {
      if client == used {
        DropLocked();
      }
    }

    /** Whatever other goroutines and the subprocesses do while the mutex is free; nothing if it is quiet. */
    method Others(ghost quiet: bool)
      requires OwnInv(State())
      modifies this
      ensures OwnInv(State()) && Reaches(old(State()), State())
      ensures quiet ==> State() == old(State())
    {
      assert Legal(State(), []) && After(State(), []) == State();
    }

    /** The rest of a Notify whose channel broke: drops the handle it used, unless it is another by now. */
    method LetGo(used: Option<Handle>, ghost s0: Plugin, ghost steps: seq<Event>, ghost quiet: bool)
      requires OnTrack(s0, State(), steps, quiet) && used.Some? && used.value < nextHandle
      modifies this
      ensures OnTrack(s0, State(), steps + [Lost(used)], quiet) && client != used
    {
      Does(s0, State(), steps, Lost(used), quiet);
      DropIfCurrent(used);
      ghost var s2 := State();
      Others(quiet);
      OthersDid(s0, s2, State(), steps + [Lost(used)], quiet);
      StaysGone(s2, State(), used.value);
    }

    /** A whole Notify.  It is a run of steps of the transition system with any other steps between
        them, so what holds of every run holds however calls interleave; `steps` are its own, and if it
        is quiet there are no others.  It reports no error exactly when the plugin accepted, the wrapper
        was closed, or there is nothing to launch; only a broken channel makes it leave the handle it
        used, and that for good. */
    method Notify(now: int, launch: Launch, rpc: Rpc, ghost quiet: bool)
      returns (err: bool, delivered: bool, used: Option<Handle>, ghost steps: seq<Event>)
      requires OwnInv(State()) && now >= clock
      modifies this
      ensures OwnInv(State()) && Reaches(old(State()), State())
      ensures delivered <==> used.Some? && rpc.Accepted?
      ensures delivered ==> !err && !failing && nextRestartAt.None? && restartBackoff == RESTART_BASE
      ensures err ==> failing
      ensures !err ==> delivered || old(closed) || !restartable
      ensures old(closed) ==> !err && used.None?
      ensures used.Some? && rpc.Broken? ==> client != used
      ensures steps == [Begin(now, launch.Works?)] + (if used.Some? && rpc.Broken? then [Lost(used)] else [])
                       + (if delivered then [Delivered] else if err then [Failed] else [])
      ensures quiet ==> Legal(old(State()), steps) && State() == After(old(State()), steps)
    {
      ghost var s0 := State();
      Begins(s0, quiet);
      Does(s0, s0, [], Begin(now, launch.Works?), quiet);
      var wasClosed, n, c := BeginNotify(now, launch);
      used, steps := None, [] + [Begin(now, launch.Works?)];
      if wasClosed || (n.None? && !restartable) {
        return false, false, None, steps;
      }
      used := n;
      ghost var s1 := State();
      Others(quiet);
      OthersDid(s0, s1, State(), steps, quiet);
      if n.Some? && rpc.Accepted? {
        Does(s0, State(), steps, Delivered, quiet);
        RecordSuccess();
        return false, true, used, steps + [Delivered];
      }
      if n.Some? && rpc.Broken? {
        LimitOfRun(s1, State());
        LetGo(c, s0, steps, quiet);
        steps := steps + [Lost(c)];
      }
      Does(s0, State(), steps, Failed, quiet);
      RecordFailure();
      return true, false, used, steps + [Failed];
    }
  }

  lemma LimitOfRun(s: Plugin, s': Plugin)
    requires OwnInv(s) && Reaches(s, s')
    ensures s'.procs.nextHandle >= s.procs.nextHandle
  {
    var run :| Legal(s, run) && After(s, run) == s';
    HandlesAreFresh(s, run);
  }

  lemma StaysGone(s: Plugin, s': Plugin, h: Handle)
    requires OwnInv(s) && Reaches(s, s') && h < s.procs.nextHandle && s.held.client != Some(h)
    ensures s'.held.client != Some(h)
  {
    var run :| Legal(s, run) && After(s, run) == s';
    LetGoForGood(s, run, h);
  }
}
