/** Ownership and crash-loop limits over every interleaving of Notify, CheckHealth and Kill. */
module PluginResults {
  import opened Numbers
  import opened PluginState

  // ---------------------------------------------------------------- ownership

  ghost predicate Owned(held: Held, p: Procs) {
    && held.client == held.notifier
    && p.live <= (if held.client.Some? then {held.client.value} else {})
    && p.live !! p.exited
    && (held.client.Some? ==> held.client.value < p.nextHandle)
    && (forall h :: h in p.exited ==> h < p.nextHandle)
  }

  ghost predicate OwnInv(s: Plugin) {
    Owned(s.held, s.procs) && (s.closed ==> s.held.client.None?)
  }

  lemma ReapedOwned(held: Held, p: Procs)
    requires Owned(held, p)
    ensures Owned(NOTHING, Reaped(p, held.client)) && Reaped(p, held.client).live == {}
  {
  }

  lemma StepOwned(s: Plugin, e: Event)
    requires OwnInv(s) && Enabled(s, e)
    ensures OwnInv(Apply(s, e))
  {
    ReapedOwned(s.held, s.procs);
    if e.Begin? || e.Check? {
      assert Revived(s, e.now, e.launchOk).closed == s.closed;
    }
  }

  /** No orphan, ever: a running subprocess of the plugin is the one the wrapper holds. */
  lemma {:induction false} RunOwned(s: Plugin, run: seq<Event>)
    requires OwnInv(s) && Legal(s, run)
    ensures OwnInv(After(s, run))
    decreases |run|
  {
    if run != [] {
      StepOwned(s, run[0]);
      RunOwned(Apply(s, run[0]), run[1..]);
    }
  }

  lemma NoOrphans(restartable: bool, t0: int, run: seq<Event>)
    requires Legal(Loaded(restartable, t0), run)
    ensures var s := After(Loaded(restartable, t0), run);
            && |s.procs.live| <= 1
            && (forall h :: h in s.procs.live ==> s.held.client == Some(h) && s.held.notifier == Some(h) && h !in s.procs.exited)
  {
    var s := After(Loaded(restartable, t0), run);
    RunOwned(Loaded(restartable, t0), run);
    if s.held.client.Some? {
      SubsetSize(s.procs.live, {s.held.client.value});
    }
  }

  /** A running subprocess ends only by itself, by Kill, or by a transport error of a call that used
      that very subprocess: neither a relaunch nor a stale error ever takes it down. */
  lemma OnlyItsOwnErrorsKill(s: Plugin, e: Event, h: Handle)
    requires OwnInv(s) && Enabled(s, e) && h in s.procs.live
    ensures h in Apply(s, e).procs.live <==> e != Dies(h) && e != Kill && e != Lost(Some(h))
  {
  }

  /** A handle, once issued, is never issued again. */
  lemma {:induction false} HandlesAreFresh(s: Plugin, run: seq<Event>)
    requires OwnInv(s) && Legal(s, run)
    ensures After(s, run).procs.nextHandle >= s.procs.nextHandle
    ensures forall h :: h in After(s, run).procs.live && h !in s.procs.live ==> h >= s.procs.nextHandle
    decreases |run|
  {
    if run != [] {
      StepOwned(s, run[0]);
      HandlesAreFresh(Apply(s, run[0]), run[1..]);
    }
  }

  /** A handle that has been let go is never held again. */
  lemma {:induction false} LetGoForGood(s: Plugin, run: seq<Event>, h: Handle)
    requires OwnInv(s) && Legal(s, run) && h < s.procs.nextHandle && s.held.client != Some(h)
    ensures After(s, run).held.client != Some(h)
    decreases |run|
  {
    if run != [] {
      StepOwned(s, run[0]);
      LetGoForGood(Apply(s, run[0]), run[1..], h);
    }
  }

  /** After Kill nothing runs and nothing is launched again. */
  lemma {:induction false} KilledForGood(s: Plugin, run: seq<Event>)
    requires OwnInv(s) && s.closed && Legal(s, run)
    ensures var s' := After(s, run);
            s'.closed && s'.procs.live == {} && s'.procs.nextHandle == s.procs.nextHandle && Attempts(s'.log) == Attempts(s.log)
    decreases |run|
  {
    if run != [] {
      StepOwned(s, run[0]);
      if run[0].Delivered? { AttemptsMore(s.log, Delivery); }
      KilledForGood(Apply(s, run[0]), run[1..]);
    }
  }

  // ---------------------------------------------------------------- relaunching

  /** No subprocess is known to be there, or it is known to have exited. */
  predicate Gone(s: Plugin) {
    s.held.client.None? || s.held.notifier.None? || s.held.client.value in s.procs.exited
  }

  /** The subprocess was up for two minutes, or the wait after the last attempt is over. */
  predicate MayRetry(s: Plugin, now: int) {
    || (s.held.startedAt.Some? && now - s.held.startedAt.value >= 120 * SECOND)
    || s.pace.nextRestartAt.None? || s.pace.nextRestartAt.value <= now
  }

  /** A notification or a health check launches a subprocess if and only if the plugin is one that can be
      launched, is not shut down, has none or one that exited, and may be retried; a launch that works is
      held and running from then on, one that fails leaves nothing, and otherwise nothing changes hands. */
  lemma RelaunchedExactlyIfDue(s: Plugin, e: Event)
    requires OwnInv(s) && Enabled(s, e) && (e.Begin? || e.Check?)
    ensures var s', h, due := Apply(s, e), s.procs.nextHandle, !s.closed && s.restartable && Gone(s) && MayRetry(s, e.now);
            && (s'.procs.nextHandle == h + 1 <==> due)
            && (due && e.launchOk ==> s'.held == Held(Some(h), Some(h), Some(e.now)) && s'.procs.live == {h})
            && (due && !e.launchOk ==> s'.held == Held(None, None, None) && s'.procs.live == {})
            && (due ==> s'.log == s.log + [Attempt(e.now, s.held.startedAt.Some? && e.now - s.held.startedAt.value >= 120 * SECOND)])
            && (!due ==> s'.held == s.held && s'.procs == s.procs && s'.log == s.log && s'.tally == s.tally)
            && s'.clock == e.now && s'.closed == s.closed && s'.outcomes == s.outcomes
  {
    ReapedOwned(s.held, s.procs);
  }

  // ---------------------------------------------------------------- crash-loop limits

  function Attempts(log: seq<Mark>): nat {
    if log == [] then 0 else Attempts(log[..|log| - 1]) + (if log[|log| - 1].Attempt? then 1 else 0)
  }

  function Deliveries(log: seq<Mark>): nat {
    if log == [] then 0 else Deliveries(log[..|log| - 1]) + (if log[|log| - 1].Delivery? then 1 else 0)
  }

  lemma AttemptsMore(log: seq<Mark>, m: Mark)
    ensures Attempts(log + [m]) == Attempts(log) + if m.Attempt? then 1 else 0
    ensures Deliveries(log + [m]) == Deliveries(log) + if m.Delivery? then 1 else 0
  {
    assert (log + [m])[..|log|] == log;
  }

  /** Attempts since the last delivery or stable-uptime reset; a reset attempt is the first of its streak. */
  function Streak(log: seq<Mark>): nat {
    if log == [] then 0
    else match log[|log| - 1]
         case Delivery => 0
         case Attempt(_, stable) => if stable then 1 else Streak(log[..|log| - 1]) + 1
  }

  /** The k-th attempt of a streak is followed by at least this much quiet. */
  function Quiet(k: nat): int
    requires k > 0
  {
    Min(RESTART_BASE * Pow2(k - 1), RESTART_MAX)
  }

  /** Whether the last mark of a log keeps its distance from the one before. */
  predicate LastSpaced(log: seq<Mark>)
    requires log != []
  {
    var n := |log| - 1;
    log[n].Attempt? && n > 0 && log[n - 1].Attempt? ==>
      && log[n].at - log[n - 1].at >= RESTART_BASE
      && (!log[n].stable ==> log[n].at - log[n - 1].at >= Quiet(Streak(log[..n])))
  }

  /** The restart schedule as the log dictates it. */
  ghost predicate Paced(log: seq<Mark>, pace: Pace, startedAt: Option<int>) {
    var n := |log|;
    if n == 0 || log[n - 1].Delivery? then pace == Pace(None, RESTART_BASE)
    else
      && Streak(log) > 0
      && pace == Pace(Some(log[n - 1].at + Quiet(Streak(log))), Quiet(Streak(log) + 1))
      && (startedAt.Some? ==> startedAt.value == log[n - 1].at)
  }

  ghost predicate AllSpaced(log: seq<Mark>) { forall i :: 0 < i <= |log| ==> LastSpaced(log[..i]) }

  ghost predicate PaceInv(s: Plugin) { Paced(s.log, s.pace, s.held.startedAt) && AllSpaced(s.log) }

  lemma QuietDoubles(k: nat)
    requires k > 0
    ensures Quiet(k + 1) == Min(2 * Quiet(k), RESTART_MAX) && Quiet(1) == RESTART_BASE && Quiet(k) >= RESTART_BASE
  {
    PowPositive(k - 1);
    assert RESTART_BASE * Pow2(k) == 2 * (RESTART_BASE * Pow2(k - 1));
    assert Pow2(0) == 1;
  }

  lemma LogMore(log: seq<Mark>, m: Mark)
    requires AllSpaced(log) && LastSpaced(log + [m])
    ensures AllSpaced(log + [m])
  {
    forall i | 0 < i <= |log| + 1 ensures LastSpaced((log + [m])[..i]) {
      if i <= |log| {
        assert (log + [m])[..i] == log[..i];
      } else {
        assert (log + [m])[..i] == log + [m];
      }
    }
  }

  lemma KnownBackoff(s: Plugin, now: int)
    requires Paced(s.log, s.pace, s.held.startedAt)
    ensures s.pace.backoff >= RESTART_BASE
    ensures BackoffNow(s, now) == Quiet(if LongLived(s.held, now) then 1 else Streak(s.log) + 1)
  {
    QuietDoubles(1);
    if Streak(s.log) > 0 { QuietDoubles(Streak(s.log)); }
  }

  lemma ChargedPaced(s: Plugin, now: int, startedAt: Option<int>)
    requires PaceInv(s) && !TooEarly(s, now) && (startedAt.None? || startedAt == Some(now))
    ensures var c := Charged(s, now); Paced(c.log, c.pace, startedAt) && AllSpaced(c.log)
  {
    var c := Charged(s, now);
    assert c.log[..|s.log|] == s.log;
    if Streak(s.log) > 0 { QuietDoubles(Streak(s.log)); }
    KnownBackoff(s, now);
    LogMore(s.log, Attempt(now, LongLived(s.held, now)));
    QuietDoubles(Streak(c.log));
  }

  lemma StepPaced(s: Plugin, e: Event)
    requires PaceInv(s)
    ensures PaceInv(Apply(s, e))
  {
    if e.Begin? || e.Check? {
      KnownBackoff(s, e.now);
      if !TooEarly(s, e.now) {
        ChargedPaced(s, e.now, None);
        ChargedPaced(s, e.now, Some(e.now));
      }
    } else if e.Delivered? {
      LogMore(s.log, Delivery);
    }
  }

  lemma {:induction false} RunPaced(s: Plugin, run: seq<Event>)
    requires PaceInv(s) && Legal(s, run)
    ensures PaceInv(After(s, run))
    decreases |run|
  {
    if run != [] {
      StepPaced(s, run[0]);
      RunPaced(Apply(s, run[0]), run[1..]);
    }
  }

  /** Two consecutive relaunch attempts with no delivery between them are at least 5 s apart, and
      unless the dead subprocess had been stable, at least min(5 s * 2^(k-1), 300 s) apart, where
      the earlier one is the k-th of its streak. */
  lemma AttemptsKeepTheirDistance(restartable: bool, t0: int, run: seq<Event>, i: nat)
    requires Legal(Loaded(restartable, t0), run)
    requires i + 1 < |After(Loaded(restartable, t0), run).log|
    ensures var log := After(Loaded(restartable, t0), run).log;
            log[i].Attempt? && log[i + 1].Attempt? ==>
              && log[i + 1].at - log[i].at >= 5 * SECOND
              && Streak(log[..i + 1]) > 0
              && (!log[i + 1].stable ==> log[i + 1].at - log[i].at >= Min(5 * SECOND * Pow2(Streak(log[..i + 1]) - 1), 300 * SECOND))
  {
    RunPaced(Loaded(restartable, t0), run);
    var log := After(Loaded(restartable, t0), run).log;
    assert LastSpaced(log[..i + 2]);
    assert log[..i + 2][..i + 1] == log[..i + 1];
  }

  ghost predicate Spaced(log: seq<Mark>) {
    forall i :: 0 <= i < |log| - 1 && log[i].Attempt? && log[i + 1].Attempt? ==> log[i + 1].at - log[i].at >= RESTART_BASE
  }

  ghost predicate Timed(log: seq<Mark>, clock: int) {
    && (forall i :: 0 <= i < |log| && log[i].Attempt? ==> log[i].at <= clock)
    && (forall i, j :: 0 <= i < j < |log| && log[i].Attempt? && log[j].Attempt? ==> log[i].at <= log[j].at)
  }

  lemma StepTimed(s: Plugin, e: Event)
    requires Timed(s.log, s.clock) && Enabled(s, e)
    ensures Timed(Apply(s, e).log, Apply(s, e).clock)
  {
    var s' := Apply(s, e);
    assert s'.log == s.log || (s'.log == s.log + [s'.log[|s.log|]] && (s'.log[|s.log|].Attempt? ==> s'.log[|s.log|].at == s'.clock));
  }

  lemma {:induction false} RunTimed(s: Plugin, run: seq<Event>)
    requires Timed(s.log, s.clock) && Legal(s, run)
    ensures Timed(After(s, run).log, After(s, run).clock)
    decreases |run|
  {
    if run != [] {
      StepTimed(s, run[0]);
      RunTimed(Apply(s, run[0]), run[1..]);
    }
  }

  /** Over any stretch of a run that starts and ends with an attempt, lasts T seconds and has D
      deliveries, there are at most 1 + D + T/5 attempts. */
  lemma CrashLoopBound(restartable: bool, t0: int, run: seq<Event>, i: nat, j: nat)
    requires Legal(Loaded(restartable, t0), run)
    requires var log := After(Loaded(restartable, t0), run).log; i < j <= |log| && log[i].Attempt? && log[j - 1].Attempt?
    ensures var log := After(Loaded(restartable, t0), run).log;
            (Attempts(log[i..j]) - 1 - Deliveries(log[i..j])) * (5 * SECOND) <= log[j - 1].at - log[i].at
  {
    RunPaced(Loaded(restartable, t0), run);
    RunTimed(Loaded(restartable, t0), run);
    var s := After(Loaded(restartable, t0), run);
    StretchSpaced(s.log, s.clock, i, j);
    SpacedLogBound(s.log[i..j], s.clock, j - i - 1);
    assert s.log[i..j][..j - i] == s.log[i..j];
  }

  lemma StretchSpaced(log: seq<Mark>, clock: int, i: nat, j: nat)
    requires AllSpaced(log) && Timed(log, clock) && i <= j <= |log|
    ensures Spaced(log[i..j]) && Timed(log[i..j], clock)
  {
    forall k | 0 <= k < j - i - 1 && log[i + k].Attempt? && log[i + k + 1].Attempt?
      ensures log[i..j][k + 1].at - log[i..j][k].at >= RESTART_BASE
    {
      assert LastSpaced(log[..i + k + 2]);
    }
  }

  /** The last attempt at or before position i. */
  function LastAttempt(log: seq<Mark>, i: nat): (k: nat)
    requires i < |log| && log[0].Attempt?
    ensures k <= i && log[k].Attempt?
  {
    if log[i].Attempt? then i else LastAttempt(log, i - 1)
  }

  /** Attempts not paid for by a delivery, up to position i; a delivery just made pays in advance. */
  function Unpaid(log: seq<Mark>, i: nat): int
    requires i < |log|
  {
    Attempts(log[..i + 1]) - 1 - Deliveries(log[..i + 1]) + (if log[i].Delivery? then 1 else 0)
  }

  lemma UnpaidStep(log: seq<Mark>, i: nat)
    requires i < |log|
    ensures i == 0 && log[0].Attempt? ==> Unpaid(log, i) == 0
    ensures i > 0 ==> Unpaid(log, i) <= Unpaid(log, i - 1) + (if log[i].Attempt? && log[i - 1].Attempt? then 1 else 0)
  {
    assert log[..i + 1][..i] == log[..i];
    assert i == 0 ==> log[..i] == [] && Attempts(log[..i]) == 0 && Deliveries(log[..i]) == 0;
  }

  lemma {:induction false} SpacedLogBound(log: seq<Mark>, clock: int, i: nat)
    requires Spaced(log) && Timed(log, clock)
    requires i < |log| && log[0].Attempt?
    ensures Unpaid(log, i) * RESTART_BASE <= log[LastAttempt(log, i)].at - log[0].at
    decreases i
  {
    UnpaidStep(log, i);
    if i > 0 {
      SpacedLogBound(log, clock, i - 1);
    }
  }

  // ---------------------------------------------------------------- counters

  /** Maximal stretches of failed deliveries. */
  function FailureRuns(outcomes: seq<bool>): nat {
    if outcomes == [] then 0
    else
      var n := |outcomes| - 1;
      FailureRuns(outcomes[..n]) + (if !outcomes[n] && (n == 0 || outcomes[n - 1]) then 1 else 0)
  }

  function Failures(outcomes: seq<bool>): nat {
    if outcomes == [] then 0 else Failures(outcomes[..|outcomes| - 1]) + (if outcomes[|outcomes| - 1] then 0 else 1)
  }

  ghost predicate AttemptsCounted(s: Plugin) {
    s.tally.restarts + s.tally.restartFailures == Attempts(s.log) && s.procs.nextHandle == Attempts(s.log) + 1
  }

  ghost predicate OutcomesCounted(s: Plugin) {
    && s.tally.notifyFailures == Failures(s.outcomes)
    && s.tally.errorLines == FailureRuns(s.outcomes)
    && (s.tally.failing <==> s.outcomes != [] && !s.outcomes[|s.outcomes| - 1])
  }

  lemma OutcomesMore(outcomes: seq<bool>, ok: bool)
    ensures Failures(outcomes + [ok]) == Failures(outcomes) + if ok then 0 else 1
    ensures FailureRuns(outcomes + [ok])
            == FailureRuns(outcomes) + if !ok && (outcomes == [] || outcomes[|outcomes| - 1]) then 1 else 0
  {
    assert (outcomes + [ok])[..|outcomes|] == outcomes;
  }

  lemma RestartCounted(s: Plugin, now: int, ok: bool)
    requires AttemptsCounted(s)
    ensures AttemptsCounted(Restarted(s, now, ok))
  {
    var m := Attempt(now, LongLived(s.held, now));
    AttemptsMore(s.log, m);
    var l := Launched(Dropped(Charged(s, now)), now, ok);
    assert l.log == s.log + [m];
    assert l.procs.nextHandle == s.procs.nextHandle + 1;
  }

  lemma StepAttemptsCounted(s: Plugin, e: Event)
    requires AttemptsCounted(s)
    ensures AttemptsCounted(Apply(s, e))
  {
    if e.Begin? || e.Check? {
      RestartCounted(s, e.now, e.launchOk);
    } else if e.Delivered? {
      AttemptsMore(s.log, Delivery);
    }
  }

  lemma OutcomesKept(s: Plugin, e: Event)
    requires !e.Failed? && !e.Delivered?
    ensures var t, t' := s.tally, Apply(s, e).tally;
            t'.failing == t.failing && t'.notifyFailures == t.notifyFailures && t'.errorLines == t.errorLines
    ensures Apply(s, e).outcomes == s.outcomes
  {
  }

  lemma StepOutcomesCounted(s: Plugin, e: Event)
    requires OutcomesCounted(s)
    ensures OutcomesCounted(Apply(s, e))
  {
    if e.Failed? {
      OutcomesMore(s.outcomes, false);
    } else if e.Delivered? {
      OutcomesMore(s.outcomes, true);
    } else {
      OutcomesKept(s, e);
    }
  }

  /** Every attempt is counted once as a restart or a failed one, every missed notification once, and
      one Error line is logged for each stretch of failures however long it lasts. */
  lemma {:induction false} CountersTellTheTruth(s: Plugin, run: seq<Event>)
    requires AttemptsCounted(s) && OutcomesCounted(s) && Legal(s, run)
    ensures AttemptsCounted(After(s, run)) && OutcomesCounted(After(s, run))
    decreases |run|
  {
    if run != [] {
      StepAttemptsCounted(s, run[0]);
      StepOutcomesCounted(s, run[0]);
      CountersTellTheTruth(Apply(s, run[0]), run[1..]);
    }
  }

  /** The notifications of a run that were delivered, and those that were not, in order. */
  function Told(run: seq<Event>): seq<bool> {
    if run == [] then []
    else (if run[0].Delivered? then [true] else if run[0].Failed? then [false] else []) + Told(run[1..])
  }

  function DeliveredIn(run: seq<Event>): nat {
    if run == [] then 0 else (if run[0].Delivered? then 1 else 0) + DeliveredIn(run[1..])
  }

  lemma StepHistory(s: Plugin, e: Event)
    requires OwnInv(s) && Enabled(s, e)
    ensures Apply(s, e).outcomes == s.outcomes + if e.Delivered? then [true] else if e.Failed? then [false] else []
    ensures Deliveries(Apply(s, e).log) == Deliveries(s.log) + if e.Delivered? then 1 else 0
    ensures Apply(s, e).procs.nextHandle - s.procs.nextHandle == Attempts(Apply(s, e).log) - Attempts(s.log)
  {
    if e.Begin? || e.Check? {
      RelaunchedExactlyIfDue(s, e);
      AttemptsMore(s.log, Attempt(e.now, s.held.startedAt.Some? && e.now - s.held.startedAt.value >= 120 * SECOND));
    } else if e.Delivered? {
      AttemptsMore(s.log, Delivery);
    }
  }

  /** The histories by which the schedule and the counters are judged are what happened: the outcomes of
      the notifications in order, a mark for each delivery, and one for each launch. */
  lemma {:induction false} HistoryIsWhatHappened(s: Plugin, run: seq<Event>)
    requires OwnInv(s) && Legal(s, run)
    ensures var s' := After(s, run);
            && s'.outcomes == s.outcomes + Told(run) && Deliveries(s'.log) == Deliveries(s.log) + DeliveredIn(run)
            && s'.procs.nextHandle - s.procs.nextHandle == Attempts(s'.log) - Attempts(s.log)
    decreases |run|
  {
    if run == [] {
      assert s.outcomes + [] == s.outcomes;
    } else {
      StepHistory(s, run[0]);
      StepOwned(s, run[0]);
      HistoryIsWhatHappened(Apply(s, run[0]), run[1..]);
      var now := if run[0].Delivered? then [true] else if run[0].Failed? then [false] else [];
      assert (s.outcomes + now) + Told(run[1..]) == s.outcomes + (now + Told(run[1..]));
    }
  }
}
