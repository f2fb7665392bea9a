/** The `Execute` loop: connection cycles separated by the reconnect wait. */
module ServiceLoop {
  import opened Pipeline
  import opened PipelineSafety
  import opened Numbers
  import opened Timing

  /** One turn of the loop as its surroundings decide it: whether a stop signal that comes while it
      waits is seen before the timer, and how its cycle goes. */
  datatype Turn = Turn(stopFirst: bool, said: seq<Notice>, result: Result)

  datatype Wait = Wait(base: int, timeout: int)

  datatype Exit = Running | Returned(code: nat)

  // ---------------------------------------------------------------- the stop signal

  /** The stop signal closes once, for good, or never.  Turn i arms its timer at moment 3i, waits at
      3i + 1, and its cycle runs at 3i + 2. */
  predicate ClosedBy(closing: Option<nat>, moment: nat) { closing.Some? && closing.value <= moment }

  /** A timer that was only just armed is not ready, so a signal closed by then wins the wait for sure. */
  predicate StopWins(closing: Option<nat>, i: nat, turn: Turn) {
    ClosedBy(closing, 3 * i) || (ClosedBy(closing, 3 * i + 1) && turn.stopFirst)
  }

  /** Cycles end as cycles do, and say Stopped only once the signal is given. */
  ghost predicate RealCycles(script: seq<Turn>, closing: Option<nat>) {
    forall i :: 0 <= i < |script| ==>
      Outcome(script[i].said, script[i].result) && (Ends(script[i].said, Stopped) ==> ClosedBy(closing, 3 * i + 2))
  }

  // ---------------------------------------------------------------- the wait schedule

  /** Cycles at the end of the history that did not clear the backoff. */
  function Uncleared(past: seq<Turn>): (m: nat)
    ensures m <= |past|
  {
    if past == [] || past[|past| - 1].result.clearBackoff then 0 else 1 + Uncleared(past[..|past| - 1])
  }

  /** Steps the generator has made since it was last empty: one per uncleared cycle, and one more
      after a clearing cycle. */
  function Steps(past: seq<Turn>): nat {
    if Uncleared(past) == |past| then |past| else Uncleared(past) + 1
  }

  function ExpectedBase(past: seq<Turn>): int
    requires past != []
  {
    Min(Pow2(Steps(past)) * SECOND, 64 * SECOND)
  }

  /** A wait whose base the past fixes, with jitter of at most a quarter, inside [1.5 s, 64 s]. */
  predicate GoodWait(w: Wait, past: seq<Turn>)
  {
    && past != []
    && w.base == ExpectedBase(past)
    && 3 * w.base <= 4 * w.timeout <= 5 * w.base
    && 3 * SECOND <= 2 * w.timeout && w.timeout <= 64 * SECOND
  }

  lemma StepsGrow(past: seq<Turn>, turn: Turn)
    ensures Steps(past + [turn]) == if turn.result.clearBackoff then 1 else Steps(past) + 1
  {
    assert (past + [turn])[..|past|] == past;
  }

  // ---------------------------------------------------------------- the notification trace

  /** The lifecycle notices a plugin may see, as an automaton. */
  datatype Mode = Silent | Ready | Up | Ended | Over | Wrong

  function Hear(m: Mode, n: Notice): Mode {
    match (m, n)
    case (Silent, AgentStarted) => Ready
    case (Ready, Online) => Up
    case (Ready, Stopped) => Over
    case (Ready, Reconnecting) => Ready
    case (Up, Stopped) => Over
    case (Up, Offline) => Ended
    case (Up, Reconnecting) => Ended
    case (Ended, Reconnecting) => Ready
    case _ => Wrong
  }

  function Listen(m: Mode, trace: seq<Notice>): Mode {
    if trace == [] then m else Hear(Listen(m, trace[..|trace| - 1]), trace[|trace| - 1])
  }

  lemma ListenMore(m: Mode, trace: seq<Notice>, n: Notice)
    ensures Listen(m, trace + [n]) == Hear(Listen(m, trace), n)
  {
    assert (trace + [n])[..|trace|] == trace;
  }

  lemma LastHeard(trace: seq<Notice>)
    requires Listen(Silent, trace) != Wrong
    ensures Listen(Silent, trace) == Up <==> Ends(trace, Online)
    ensures Listen(Silent, trace) == Over <==> Ends(trace, Stopped)
    ensures Ends(trace, Offline) ==> Listen(Silent, trace) == Ended
    ensures Ends(trace, AgentStarted) ==> |trace| == 1
    ensures Listen(Silent, trace) == Silent <==> trace == []
  {
    if |trace| > 1 { LastHeard(trace[..|trace| - 1]); }
  }

  lemma PrefixAccepted(trace: seq<Notice>, i: nat)
    requires i <= |trace| && Listen(Silent, trace) != Wrong
    ensures Listen(Silent, trace[..i]) != Wrong
    decreases |trace|
  {
    if i < |trace| {
      PrefixAccepted(trace[..|trace| - 1], i);
      assert trace[..|trace| - 1][..i] == trace[..i];
    } else {
      assert trace[..i] == trace;
    }
  }

  predicate CycleEnd(n: Notice) { n == Stopped || n == Offline || n == Reconnecting }

  /** What acceptance means: AgentStarted is first and only first, Stopped is only ever last, Online
      is answered at once by Stopped, Offline or Reconnecting, and Offline by Reconnecting. */
  lemma {:induction false} AcceptedTraceShape(trace: seq<Notice>, i: nat)
    requires Listen(Silent, trace) != Wrong && i < |trace|
    ensures trace[i] == AgentStarted <==> i == 0
    ensures trace[i] == Stopped ==> i == |trace| - 1
    ensures trace[i] == Online && i < |trace| - 1 ==> CycleEnd(trace[i + 1])
    ensures trace[i] == Offline && i < |trace| - 1 ==> trace[i + 1] == Reconnecting
  {
    PrefixAccepted(trace, i + 1);
    LastHeard(trace[..i + 1]);
    assert trace[..i + 1][..i] == trace[..i];
    PrefixAccepted(trace, i);
    LastHeard(trace[..i]);
    if i < |trace| - 1 {
      PrefixAccepted(trace, i + 2);
      assert trace[..i + 2][..i + 1] == trace[..i + 1];
    }
  }

  /** A whole cycle takes a ready plugin to Ready (nothing said), Ended or Over. */
  lemma ListenCycle(trace: seq<Notice>, said: seq<Notice>, r: Result)
    requires Listen(Silent, trace) == Ready && Outcome(said, r)
    ensures Listen(Silent, trace + said) == if said == [] then Ready else if Ends(said, Stopped) then Over else Ended
  {
    if |said| == 0 {
      assert trace + said == trace;
    } else if |said| == 1 {
      ListenMore(Silent, trace, said[0]);
      assert said == [said[0]];
    } else {
      ListenMore(Silent, trace, said[0]);
      ListenMore(Silent, trace + [said[0]], said[1]);
      assert trace + said == trace + [said[0]] + [said[1]];
    }
  }

  function CountOnline(trace: seq<Notice>): nat {
    if trace == [] then 0 else CountOnline(trace[..|trace| - 1]) + (if trace[|trace| - 1] == Online then 1 else 0)
  }

  function CountCleared(past: seq<Turn>): nat {
    if past == [] then 0 else CountCleared(past[..|past| - 1]) + (if past[|past| - 1].result.clearBackoff then 1 else 0)
  }

  lemma CountMore(trace: seq<Notice>, n: Notice)
    ensures CountOnline(trace + [n]) == CountOnline(trace) + if n == Online then 1 else 0
  {
    assert (trace + [n])[..|trace|] == trace;
  }

  lemma CountCycle(trace: seq<Notice>, past: seq<Turn>, turn: Turn)
    requires Outcome(turn.said, turn.result) && CountOnline(trace) == CountCleared(past)
    ensures CountOnline(trace + turn.said) == CountCleared(past + [turn])
  {
    assert (past + [turn])[..|past|] == past;
    var said := turn.said;
    if |said| == 0 {
      assert trace + said == trace;
    } else if |said| == 1 {
      CountMore(trace, said[0]);
      assert said == [said[0]];
    } else {
      CountMore(trace, said[0]);
      CountMore(trace + [said[0]], said[1]);
      assert trace + said == trace + [said[0]] + [said[1]];
    }
  }

  // ---------------------------------------------------------------- the loop

  /** The base the generator stands at after the cycles in `past`. */
  function BaseFor(past: seq<Turn>): int { if past == [] then 0 else ExpectedBase(past) }

  lemma BaseStep(past: seq<Turn>, turn: Turn)
    ensures BaseFor(past + [turn]) == if turn.result.clearBackoff then NextBase(0) else NextBase(BaseFor(past))
  {
    StepsGrow(past, turn);
    PowPositive(Steps(past));
    assert Pow2(Steps(past) + 1) * SECOND == 2 * (Pow2(Steps(past)) * SECOND);
    assert Pow2(1) == 2 * Pow2(0);
  }

  lemma PositiveBase(past: seq<Turn>)
    ensures past != [] ==> BaseFor(past) >= SECOND
  {
    PowPositive(Steps(past));
  }

  ghost predicate WaitsGood(waits: seq<Wait>, script: seq<Turn>) {
    |waits| <= |script| && forall k :: 0 <= k < |waits| ==> GoodWait(waits[k], script[..k + 1])
  }

  ghost predicate BetweenCycles(trace: seq<Notice>) {
    var m := Listen(Silent, trace);
    m == Ready || m == Ended || m == Over
  }

  lemma HearStart()
    ensures TraceGood([AgentStarted], []) && WaitsGood([], [])
  {
  }

  lemma TraceGoodRests(trace: seq<Notice>, past: seq<Turn>)
    requires TraceGood(trace, past)
    ensures BetweenCycles(trace) && !Ends(trace, Stopped)
  {
    LastHeard(trace);
  }

  /** What is known of the trace between two cycles. */
  ghost predicate TraceGood(trace: seq<Notice>, past: seq<Turn>) {
    && (Listen(Silent, trace) == Ready || (past != [] && Listen(Silent, trace) == Ended))
    && CountOnline(trace) == CountCleared(past)
  }

  lemma HearReconnecting(trace: seq<Notice>, past: seq<Turn>)
    requires past != [] && TraceGood(trace, past)
    ensures TraceGood(trace + [Reconnecting], past) && Listen(Silent, trace + [Reconnecting]) == Ready
  {
    ListenMore(Silent, trace, Reconnecting);
    CountMore(trace, Reconnecting);
  }

  lemma HearCycle(trace: seq<Notice>, past: seq<Turn>, turn: Turn)
    requires TraceGood(trace, past) && Listen(Silent, trace) == Ready && Outcome(turn.said, turn.result)
    ensures CountOnline(trace + turn.said) == CountCleared(past + [turn])
    ensures BetweenCycles(trace + turn.said)
    ensures Ends(trace + turn.said, Stopped) <==> turn.result.shouldReturn && turn.result.exit == 0
    ensures !turn.result.shouldReturn ==> TraceGood(trace + turn.said, past + [turn])
  {
    ListenCycle(trace, turn.said, turn.result);
    CountCycle(trace, past, turn);
    LastHeard(trace + turn.said);
  }

  /** What a plugin hears between the cycles in `past` and the next one. */
  function Announced(past: seq<Turn>): seq<Notice> { if past == [] then [] else [Reconnecting] }

  /** Everything said by the end of the cycles in `past`. */
  function TraceOf(past: seq<Turn>): seq<Notice> {
    if past == [] then [AgentStarted]
    else
      var n := |past| - 1;
      TraceOf(past[..n]) + Announced(past[..n]) + past[n].said
  }

  lemma TraceMore(past: seq<Turn>, turn: Turn)
    ensures TraceOf(past + [turn]) == TraceOf(past) + Announced(past) + turn.said
  {
    assert (past + [turn])[..|past|] == past;
  }

  /** The wait before a cycle, if the generator has one: a stop ends it, the timer announces the reconnect. */
  method AwaitTurn(rg: ReconnectTimeoutGenerator, stopWins: bool, ghost past: seq<Turn>, trace: seq<Notice>)
    returns (go: bool, waited: seq<Wait>, heard: seq<Notice>)
    requires rg.Valid() && rg.base == BaseFor(past) && TraceGood(trace, past)
    ensures go <==> past == [] || !stopWins
    ensures |waited| == (if past == [] then 0 else 1) && (past != [] ==> GoodWait(waited[0], past))
    ensures TraceGood(heard, past) && (go ==> Listen(Silent, heard) == Ready)
    ensures heard == trace + if go && past != [] then [Reconnecting] else []
  {
    PositiveBase(past);
    if rg.timeout > 0 {
      waited := [Wait(rg.base, rg.timeout)];
      if stopWins {
        return false, waited, trace;
      }
      HearReconnecting(trace, past);
      return true, waited, trace + [Reconnecting];
    }
    return true, [], trace;
  }

  /** One cycle and what it does to the generator; `next` is the past with this turn added. */
  method RunTurn(rg: ReconnectTimeoutGenerator, turn: Turn, ghost past: seq<Turn>, ghost next: seq<Turn>, trace: seq<Notice>)
    returns (heard: seq<Notice>)
    requires rg.Valid() && rg.base == BaseFor(past) && next == past + [turn]
    requires TraceGood(trace, past) && Listen(Silent, trace) == Ready && Outcome(turn.said, turn.result)
    modifies rg
    ensures rg.Valid() && rg.base == BaseFor(next) && heard == trace + turn.said
    ensures BetweenCycles(heard) && CountOnline(heard) == CountCleared(next)
    ensures Ends(heard, Stopped) <==> turn.result.shouldReturn && turn.result.exit == 0
    ensures !turn.result.shouldReturn ==> TraceGood(heard, next)
  {
    BaseStep(past, turn);
    rg.Next();
    HearCycle(trace, past, turn);
    heard := trace + turn.said;
    if turn.result.clearBackoff {
      rg.Clear();
      rg.Next();
    }
  }

  /** What holds before each turn of the loop. */
  ghost predicate LoopInv(script: seq<Turn>, closing: Option<nat>, started: nat, trace: seq<Notice>, waits: seq<Wait>, base: int) {
    && started <= |script|
    && |waits| == (if started == 0 then 0 else started - 1)
    && WaitsGood(waits, script)
    && base == BaseFor(script[..started])
    && TraceGood(trace, script[..started]) && trace == TraceOf(script[..started])
    && NoneReturned(script, started) && NoStopWon(script, closing, started)
  }

  ghost predicate NoneReturned(script: seq<Turn>, n: int)
    requires n <= |script|
  {
    forall i :: 0 <= i < n ==> !script[i].result.shouldReturn
  }

  ghost predicate NoStopWon(script: seq<Turn>, closing: Option<nat>, n: nat)
    requires n <= |script|
  {
    forall i :: 1 <= i < n ==> !StopWins(closing, i, script[i])
  }

  lemma LoopWaits(script: seq<Turn>, closing: Option<nat>, started: nat, trace: seq<Notice>, waits: seq<Wait>, base: int, waited: seq<Wait>)
    requires LoopInv(script, closing, started, trace, waits, base) && started < |script|
    requires |waited| == (if started == 0 then 0 else 1) && (started > 0 ==> GoodWait(waited[0], script[..started]))
    ensures WaitsGood(waits + waited, script) && |waits + waited| == started
  {
  }

  /** The last cycle that started, if any, asked to return. */
  predicate AskedToReturn(script: seq<Turn>, started: nat)
    requires started <= |script|
  {
    started > 0 && script[started - 1].result.shouldReturn
  }

  /** How the loop may stand when it is left, or when the script ends. */
  ghost predicate LeftWell(script: seq<Turn>, closing: Option<nat>, trace: seq<Notice>, waits: seq<Wait>, started: nat, exit: Exit) {
    && started <= |script| && WaitsGood(waits, script)
    && |waits| == (if exit.Returned? && !AskedToReturn(script, started) then started else Max(0, started - 1))
    && NoneReturned(script, started - 1) && NoStopWon(script, closing, started)
    && (exit == Running <==> started == |script| && NoneReturned(script, started))
    && (exit.Returned? ==>
          if AskedToReturn(script, started) then exit.code == script[started - 1].result.exit
          else exit.code == 0 && 0 < started < |script| && StopWins(closing, started, script[started]))
    && trace == TraceOf(script[..started]) && BetweenCycles(trace)
    && CountOnline(trace) == CountCleared(script[..started])
    && (Ends(trace, Stopped) ==> exit == Returned(0))
  }

  lemma LeftInWait(script: seq<Turn>, closing: Option<nat>, started: nat, trace: seq<Notice>, waits: seq<Wait>, base: int, waits': seq<Wait>)
    requires LoopInv(script, closing, started, trace, waits, base) && 0 < started < |script| && StopWins(closing, started, script[started])
    requires WaitsGood(waits', script) && |waits'| == started
    ensures LeftWell(script, closing, trace, waits', started, Returned(0))
  {
    TraceGoodRests(trace, script[..started]);
  }

  lemma LeftAtEnd(script: seq<Turn>, closing: Option<nat>, trace: seq<Notice>, waits: seq<Wait>, base: int)
    requires LoopInv(script, closing, |script|, trace, waits, base)
    ensures LeftWell(script, closing, trace, waits, |script|, Running)
  {
    TraceGoodRests(trace, script[..|script|]);
  }

  /** What one turn leaves: the trace with its cycle heard, a wait more, and the generator moved on. */
  ghost predicate TurnPlayed(script: seq<Turn>, closing: Option<nat>, started: nat, trace: seq<Notice>, heard: seq<Notice>, waits: seq<Wait>) {
    && started < |script| && WaitsGood(waits, script) && |waits| == started
    && (started > 0 ==> !StopWins(closing, started, script[started]))
    && heard == trace + Announced(script[..started]) + script[started].said
    && BetweenCycles(heard) && CountOnline(heard) == CountCleared(script[..started + 1])
  }

  lemma HeardIsTrace(script: seq<Turn>, started: nat, trace: seq<Notice>, heard: seq<Notice>)
    requires started < |script| && trace == TraceOf(script[..started])
    requires heard == trace + Announced(script[..started]) + script[started].said
    ensures heard == TraceOf(script[..started + 1])
  {
    assert script[..started + 1] == script[..started] + [script[started]];
    TraceMore(script[..started], script[started]);
  }

  lemma LoopReturns(script: seq<Turn>, closing: Option<nat>, started: nat, trace: seq<Notice>, waits: seq<Wait>, base: int,
                    heard: seq<Notice>, waits': seq<Wait>)
    requires LoopInv(script, closing, started, trace, waits, base) && TurnPlayed(script, closing, started, trace, heard, waits')
    requires var r := script[started].result; r.shouldReturn && (Ends(heard, Stopped) ==> r.exit == 0)
    ensures LeftWell(script, closing, heard, waits', started + 1, Returned(script[started].result.exit))
  {
    HeardIsTrace(script, started, trace, heard);
  }

  lemma LoopGoesOn(script: seq<Turn>, closing: Option<nat>, started: nat, trace: seq<Notice>, waits: seq<Wait>, base: int,
                   heard: seq<Notice>, waits': seq<Wait>, base': int)
    requires LoopInv(script, closing, started, trace, waits, base) && TurnPlayed(script, closing, started, trace, heard, waits')
    requires !script[started].result.shouldReturn && TraceGood(heard, script[..started + 1]) && base' == BaseFor(script[..started + 1])
    ensures LoopInv(script, closing, started + 1, heard, waits', base')
  {
    HeardIsTrace(script, started, trace, heard);
  }

  // ---------------------------------------------------------------- the trace, notice by notice

  /** The notices of the first cycles are in the trace where `at` says. */
  ghost predicate SaidAt(trace: seq<Notice>, script: seq<Turn>, at: seq<nat>) {
    && |at| <= |script|
    && forall i :: 0 <= i < |at| ==> at[i] + |script[i].said| <= |trace| && trace[at[i]..at[i] + |script[i].said|] == script[i].said
  }

  /** One Reconnecting, and nothing else, is between those of two cycles. */
  ghost predicate SpacedAt(trace: seq<Notice>, script: seq<Turn>, at: seq<nat>) {
    && |at| <= |script|
    && forall i :: 0 < i < |at| ==> at[i] == at[i - 1] + |script[i - 1].said| + 1 && at[i] <= |trace| && trace[at[i] - 1] == Reconnecting
  }

  /** The trace is AgentStarted, then every cycle's notices with one Reconnecting between two cycles, and nothing else. */
  ghost predicate Laid(trace: seq<Notice>, script: seq<Turn>, started: nat, at: seq<nat>) {
    && |at| == started <= |script| && SaidAt(trace, script, at) && SpacedAt(trace, script, at)
    && trace != [] && trace[0] == AgentStarted
    && if started == 0 then |trace| == 1 else at[0] == 1 && |trace| == at[started - 1] + |script[started - 1].said|
  }

  /** What comes before a cycle's notices. */
  function Between(n: nat): seq<Notice> { if n == 0 then [] else [Reconnecting] }

  lemma TraceSplit(script: seq<Turn>, n: nat)
    requires n < |script|
    ensures TraceOf(script[..n + 1]) == TraceOf(script[..n]) + Between(n) + script[n].said
  {
    assert script[..n + 1] == script[..n] + [script[n]];
    TraceMore(script[..n], script[n]);
  }

  lemma StartLaid(script: seq<Turn>)
    ensures TraceOf(script[..0]) == [AgentStarted] && Laid([AgentStarted], script, 0, [])
  {
  }

  lemma NextLaid(trace: seq<Notice>, next: seq<Notice>, script: seq<Turn>, n: nat, before: seq<nat>) returns (at: seq<nat>)
    requires n < |script| && Laid(trace, script, n, before) && next == trace + Between(n) + script[n].said
    ensures Laid(next, script, n + 1, at)
  {
    LaidMore(trace, script, n, before);
    at := before + [|trace| + |Between(n)|];
  }

  lemma {:induction false} TraceLaid(script: seq<Turn>, started: nat) returns (at: seq<nat>)
    requires started <= |script|
    ensures Laid(TraceOf(script[..started]), script, started, at)
  {
    at := [];
    if started == 0 {
      StartLaid(script);
    } else {
      at := TraceLaid(script, started - 1);
      TraceSplit(script, started - 1);
      at := NextLaid(TraceOf(script[..started - 1]), TraceOf(script[..started]), script, started - 1, at);
    }
  }

  lemma SliceKept(a: seq<Notice>, b: seq<Notice>, i: nat, j: nat)
    requires i <= j <= |a|
    ensures (a + b)[i..j] == a[i..j]
  {
  }

  lemma SaidMore(trace: seq<Notice>, announced: seq<Notice>, script: seq<Turn>, at: seq<nat>)
    requires SaidAt(trace, script, at) && |at| < |script|
    ensures SaidAt(trace + announced + script[|at|].said, script, at + [|trace| + |announced|])
  {
    var said := script[|at|].said;
    var all := trace + announced + said;
    assert all == trace + (announced + said) && all[|trace| + |announced|..] == said;
    forall i | 0 <= i < |at| ensures all[at[i]..at[i] + |script[i].said|] == script[i].said {
      SliceKept(trace, announced + said, at[i], at[i] + |script[i].said|);
    }
  }

  lemma SpacedMore(trace: seq<Notice>, announced: seq<Notice>, script: seq<Turn>, at: seq<nat>)
    requires SpacedAt(trace, script, at) && |at| < |script|
    requires announced == Between(|at|)
    requires at != [] ==> |trace| == at[|at| - 1] + |script[|at| - 1].said|
    ensures SpacedAt(trace + announced + script[|at|].said, script, at + [|trace| + |announced|])
  {
    var all := trace + announced + script[|at|].said;
    assert forall k :: 0 <= k < |trace| ==> all[k] == trace[k];
  }

  lemma LaidMore(trace: seq<Notice>, script: seq<Turn>, n: nat, at: seq<nat>)
    requires n < |script| && Laid(trace, script, n, at)
    ensures Laid(trace + Between(n) + script[n].said, script, n + 1, at + [|trace| + |Between(n)|])
  {
    SaidMore(trace, Between(n), script, at);
    SpacedMore(trace, Between(n), script, at);
  }

  function CountReconnecting(trace: seq<Notice>): nat {
    if trace == [] then 0 else CountReconnecting(trace[..|trace| - 1]) + (if trace[|trace| - 1] == Reconnecting then 1 else 0)
  }

  /** Cycles that ended to renew their token. */
  function CountRenewals(past: seq<Turn>): nat {
    if past == [] then 0 else CountRenewals(past[..|past| - 1]) + (if Ends(past[|past| - 1].said, Reconnecting) then 1 else 0)
  }

  lemma {:induction false} CountBoth(a: seq<Notice>, b: seq<Notice>)
    ensures CountReconnecting(a + b) == CountReconnecting(a) + CountReconnecting(b)
  {
    if b == [] {
      assert a + b == a;
    } else {
      assert (a + b)[..|a| + |b| - 1] == a + b[..|b| - 1];
      CountBoth(a, b[..|b| - 1]);
    }
  }

  lemma CountSaid(said: seq<Notice>, r: Result)
    requires Outcome(said, r)
    ensures CountReconnecting(said) == if Ends(said, Reconnecting) then 1 else 0
  {
    if |said| == 2 { assert said[..1] == [said[0]] && CountReconnecting([said[0]]) == 0; }
  }

  lemma CountTurn(trace: seq<Notice>, n: nat, turn: Turn)
    requires Outcome(turn.said, turn.result)
    ensures CountReconnecting(trace + Between(n) + turn.said)
            == CountReconnecting(trace) + (if n == 0 then 0 else 1) + (if Ends(turn.said, Reconnecting) then 1 else 0)
  {
    CountBoth(trace, Between(n));
    CountBoth(trace + Between(n), turn.said);
    CountSaid(turn.said, turn.result);
    assert CountReconnecting([Reconnecting]) == 1;
  }

  lemma RenewalsMore(script: seq<Turn>, n: nat)
    requires n < |script|
    ensures CountRenewals(script[..n + 1]) == CountRenewals(script[..n]) + if Ends(script[n].said, Reconnecting) then 1 else 0
  {
    assert script[..n + 1][..n] == script[..n];
  }

  /** One Reconnecting before every cycle but the first, and one from every cycle that renewed its token. */
  lemma {:induction false} ReconnectsCounted(script: seq<Turn>, started: nat)
    requires started <= |script| && forall i :: 0 <= i < started ==> Outcome(script[i].said, script[i].result)
    ensures CountReconnecting(TraceOf(script[..started])) == Max(0, started - 1) + CountRenewals(script[..started])
  {
    if started == 0 {
      StartLaid(script);
      assert [AgentStarted][..0] == [];
    } else {
      ReconnectsCounted(script, started - 1);
      TraceSplit(script, started - 1);
      CountTurn(TraceOf(script[..started - 1]), started - 1, script[started - 1]);
      RenewalsMore(script, started - 1);
    }
  }

  /** How many of the first n cycles start when the stop signal has been given. */
  function StartsAfterStop(closing: Option<nat>, n: nat): nat {
    if n == 0 then 0 else StartsAfterStop(closing, n - 1) + (if ClosedBy(closing, 3 * (n - 1) + 1) then 1 else 0)
  }

  lemma {:induction false} NoneStartsBefore(closing: Option<nat>, n: nat)
    requires n > 0 ==> !ClosedBy(closing, 3 * (n - 1) + 1)
    ensures StartsAfterStop(closing, n) == 0
  {
    if n > 0 { NoneStartsBefore(closing, n - 1); }
  }

  /** However the loop stands, every cycle but the last was over before the stop signal, so at most one
      starts after it; and a turn that begins after it is the end. */
  lemma AtMostOneStartAfterStop(script: seq<Turn>, closing: Option<nat>, trace: seq<Notice>, waits: seq<Wait>, started: nat, exit: Exit)
    requires LeftWell(script, closing, trace, waits, started, exit)
    ensures forall i :: 0 <= i < started - 1 ==> !ClosedBy(closing, 3 * i + 2)
    ensures StartsAfterStop(closing, started) <= 1
    ensures forall j :: 1 <= j < |script| && ClosedBy(closing, 3 * j) ==> started <= j && exit.Returned?
  {
    forall i | 0 <= i < started - 1 ensures !ClosedBy(closing, 3 * i + 2) {
      assert !StopWins(closing, i + 1, script[i + 1]);
    }
    if started > 0 { NoneStartsBefore(closing, started - 1); }
    forall j | 1 <= j < |script| && ClosedBy(closing, 3 * j) ensures started <= j {
      assert StopWins(closing, j, script[j]);
    }
  }

  /** The body of the loop. */
  method PlayTurn(rg: ReconnectTimeoutGenerator, script: seq<Turn>, closing: Option<nat>, started: nat, trace: seq<Notice>, waits: seq<Wait>)
    returns (trace': seq<Notice>, waits': seq<Wait>, started': nat, exit: Exit)
    requires RealCycles(script, closing) && rg.Valid() && started < |script|
    requires LoopInv(script, closing, started, trace, waits, rg.base)
    modifies rg
    ensures if exit.Returned? then LeftWell(script, closing, trace', waits', started', exit)
            else rg.Valid() && started' == started + 1 && LoopInv(script, closing, started', trace', waits', rg.base)
  {
    var turn := script[started];
    ghost var past, base, next := script[..started], rg.base, script[..started + 1];
    assert next == past + [turn];
    var go, waited, announced;
    go, waited, announced := AwaitTurn(rg, StopWins(closing, started, turn), past, trace);
    LoopWaits(script, closing, started, trace, waits, base, waited);
    if !go {
      LeftInWait(script, closing, started, trace, waits, base, waits + waited);
      return trace, waits + waited, started, Returned(0);
    }
    var heard := RunTurn(rg, turn, past, next, announced);
    trace', waits', started' := heard, waits + waited, started + 1;
    if turn.result.shouldReturn {
      LoopReturns(script, closing, started, trace, waits, base, heard, waits');
      exit := Returned(turn.result.exit);
    } else {
      LoopGoesOn(script, closing, started, trace, waits, base, heard, waits', rg.base);
      exit := Running;
    }
  }

  /** The loop itself. */
  method RunLoop(script: seq<Turn>, closing: Option<nat>) returns (trace: seq<Notice>, waits: seq<Wait>, started: nat, exit: Exit)
    requires RealCycles(script, closing)
    ensures LeftWell(script, closing, trace, waits, started, exit)
  {
    var rg := new ReconnectTimeoutGenerator();
    trace, waits, started, exit := [AgentStarted], [], 0, Running;
    HearStart();
    while started < |script|
      invariant rg.Valid() && fresh(rg) && exit == Running
      invariant LoopInv(script, closing, started, trace, waits, rg.base)
    {
      trace, waits, started, exit := PlayTurn(rg, script, closing, started, trace, waits);
      if exit.Returned? {
        return;
      }
    }
    LeftAtEnd(script, closing, trace, waits, rg.base);
  }

  /** Plays the loop against any finite stretch of its surroundings and any moment of the stop signal. */
  method Execute(script: seq<Turn>, closing: Option<nat>)
    returns (trace: seq<Notice>, waits: seq<Wait>, started: nat, exit: Exit, ghost at: seq<nat>)
    requires RealCycles(script, closing)
    ensures LeftWell(script, closing, trace, waits, started, exit)
    ensures Laid(trace, script, started, at)
    ensures CountReconnecting(trace) == Max(0, started - 1) + CountRenewals(script[..started])
  {
    trace, waits, started, exit := RunLoop(script, closing);
    at := TraceLaid(script, started);
    ReconnectsCounted(script, started);
  }
}
