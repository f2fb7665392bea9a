/** Posting a command's result back: one attempt's outcome, the retry delay, and the retry loop. */
module Postback {
  import opened Numbers

  const DEFAULT_MAX_ATTEMPTS: nat := 3
  const DEFAULT_BASE_BACKOFF: int := SECOND
  const DEFAULT_MAX_BACKOFF: int := 64 * SECOND

  // ---------------------------------------------------------------- one attempt

  /** The response body either does not parse as an error object, or parses and may say "fulfilled". */
  datatype Body = Unparsable | Parsed(fulfilled: bool)

  datatype Attempt = RequestNotBuilt | NotSent | BodyNotRead | Reply(status: nat, body: Body)

  /** Whether an attempt settles the matter, so that no other follows. */
  predicate Settles(a: Attempt) {
    match a
    case RequestNotBuilt => true
    case NotSent => false
    case BodyNotRead => false
    case Reply(status, body) =>
      if status == 200 then true
      else if body.Parsed? && status == 400 && body.fulfilled then true
      else !(status >= 500 || body.Unparsable?)
  }

  /** Every attempt: a request that cannot be built and a reply of status 200 settle the matter, and so
      does one below 500 with a body that parses; nothing else does, a reply of 500 or more in particular. */
  lemma WhatSettles(a: Attempt)
    ensures a.RequestNotBuilt? ==> Settles(a)
    ensures a.NotSent? || a.BodyNotRead? ==> !Settles(a)
    ensures a.Reply? && a.status == 200 ==> Settles(a)
    ensures a.Reply? && a.status >= 500 ==> !Settles(a)
    ensures a.Reply? && a.status < 500 && a.status != 200 ==> (Settles(a) <==> a.body.Parsed?)
  {
  }

  /** What an engine outage looks like: nothing sent, no body read, or a server error whatever its body. */
  predicate Transient(a: Attempt) { a.NotSent? || a.BodyNotRead? || (a.Reply? && a.status >= 500) }

  /** Success other than 200 is retried unless its body happens to parse, and so is a client error. */
  lemma OnlyParsableRepliesSettle(status: nat, body: Body)
    requires status < 500 && status != 200
    ensures Settles(Reply(status, body)) <==> body.Parsed?
  {
  }

  // ---------------------------------------------------------------- the retry delay

  function EffectiveCap(cap: int): int { if cap <= 0 then DEFAULT_MAX_BACKOFF else cap }

  function EffectiveBase(base: int, cap: int): int {
    Min(if base <= 0 then DEFAULT_BASE_BACKOFF else base, EffectiveCap(cap))
  }

  function Doublings(attempt: int): nat { if attempt <= 2 then 0 else attempt - 2 }

  /** base * 2^(attempt-2), before the cap. */
  function Uncapped(base: int, cap: int, attempt: int): int {
    EffectiveBase(base, cap) * Pow2(Doublings(attempt))
  }

  /** n rounds of the doubling loop: it jumps to the cap from half of it, rounded down. */
  function Doubled(backoff: int, cap: int, n: nat): int
    decreases n
  {
    if n == 0 then backoff
    else if backoff >= cap / 2 then cap
    else Doubled(2 * backoff, cap, n - 1)
  }

  /** The delay before jitter. */
  function Unjittered(base: int, cap: int, attempt: int): int {
    Doubled(EffectiveBase(base, cap), EffectiveCap(cap), Doublings(attempt))
  }

  lemma Double(b: int, i: nat)
    requires b > 0
    ensures b * Pow2(i + 1) == 2 * (b * Pow2(i)) > 0
  {
    PowPositive(i);
  }

  lemma {:induction false} DoublingGrows(b: int, i: nat, n: nat)
    requires b > 0 && i <= n
    ensures b * Pow2(i) <= b * Pow2(n)
    decreases n
  {
    if i < n {
      DoublingGrows(b, i, n - 1);
      Double(b, n - 1);
    }
  }

  /** The loop in closed form: the capped power, raised to the cap where that is one short of it. */
  lemma {:induction false} DoubledInClosedForm(b: int, cap: int, n: nat)
    requires 0 < b <= cap
    ensures Doubled(b, cap, n) == if n > 0 && b * Pow2(n) == cap - 1 then cap else Min(b * Pow2(n), cap)
    decreases n
  {
    if n > 0 {
      Double(b, 0);
      DoublingGrows(b, 1, n);
      assert b * Pow2(n) == 2 * b * Pow2(n - 1);
      if b < cap / 2 {
        DoubledInClosedForm(2 * b, cap, n - 1);
        if n == 1 { assert Pow2(0) == 1; }
      }
    }
  }

  /** For an even cap the schedule is the capped doubling. */
  lemma EvenCapIsExact(base: int, cap: int, attempt: int)
    requires cap <= 0 || cap % 2 == 0
    ensures var limit := if cap <= 0 then 64 * SECOND else cap;
            var first := Min(if base <= 0 then SECOND else base, limit);
            Unjittered(base, cap, attempt) == Min(first * Pow2(Max(0, attempt - 2)), limit)
  {
    var n, b, c := Doublings(attempt), EffectiveBase(base, cap), EffectiveCap(cap);
    assert n == Max(0, attempt - 2);
    DoubledInClosedForm(b, c, n);
    if n > 0 { Double(b, n - 1); }
  }

  /** For any cap it is, exactly when the doubling does not land on cap - 1. */
  lemma ExactUnlessOneShort(base: int, cap: int, attempt: int)
    ensures Unjittered(base, cap, attempt) == Min(Uncapped(base, cap, attempt), EffectiveCap(cap))
            <==> !(attempt > 2 && Uncapped(base, cap, attempt) == EffectiveCap(cap) - 1)
  {
    DoubledInClosedForm(EffectiveBase(base, cap), EffectiveCap(cap), Doublings(attempt));
  }

  lemma OddCapExample()
    ensures Unjittered(1, 3, 3) == 3 && Min(Uncapped(1, 3, 3), EffectiveCap(3)) == 2
  {
    assert Pow2(1) == 2 * Pow2(0) == 2;
  }

  predicate DelayFits(delay: int, base: int, cap: int, attempt: int) {
    var u := Unjittered(base, cap, attempt);
    0 < delay <= EffectiveCap(cap) && 3 * u <= 4 * delay <= 5 * u
  }

  /** `rounds` counts the loop's iterations: at most about log2(cap / base), whatever the attempt. */
  method PostbackRetryBackoff(base: int, maxBackoff: int, attempt: int) returns (backoff: int, ghost rounds: nat)
    ensures DelayFits(backoff, base, maxBackoff, attempt)
    ensures rounds <= Doublings(attempt)
    ensures rounds > 0 ==> EffectiveBase(base, maxBackoff) * Pow2(rounds - 1) <= EffectiveCap(maxBackoff)
  {
    var b := if base <= 0 then DEFAULT_BASE_BACKOFF else base;
    var cap := if maxBackoff <= 0 then DEFAULT_MAX_BACKOFF else maxBackoff;
    if b > cap {
      b := cap;
    }
    backoff, rounds := b, 0;
    ghost var n := Doublings(attempt);
    var i := 0;
    while i < attempt - 2
      invariant 0 <= i <= n && rounds == i
      invariant backoff == b * Pow2(i) && 0 < backoff <= cap
      invariant i > 0 ==> b * Pow2(i - 1) <= cap
      invariant Doubled(backoff, cap, n - i) == Doubled(b, cap, n)
    {
      rounds := rounds + 1;
      if backoff >= cap / 2 {
        backoff := cap;
        break;
      }
      Double(b, i);
      backoff := backoff * 2;
      i := i + 1;
    }
    if backoff > cap {
      backoff := cap;
    }
    assert backoff == Unjittered(base, maxBackoff, attempt);
    var jitter :| -(backoff / 4) <= jitter <= backoff / 4;
    backoff := backoff + jitter;
    if backoff > cap {
      backoff := cap;
    }
    if backoff <= 0 {
      backoff := b;
    }
  }

  // ---------------------------------------------------------------- the retry loop

  datatype Spool = NoSpool | SpoolFails | SpoolWorks

  datatype Outcome = Resolved | Aborted | Spooled | Dropped

  function MaxAttempts(configured: int): nat { if configured < 1 then DEFAULT_MAX_ATTEMPTS else configured }

  /** No attempt among the first n settled, and no wait among them was cut short. */
  ghost predicate AllFailed(attempts: nat -> Attempt, cancelled: nat -> bool, n: nat) {
    forall k: nat :: 1 <= k <= n ==> !Settles(attempts(k)) && (k > 1 ==> !cancelled(k))
  }

  /** Some attempt within the budget settles the matter, after none before it did. */
  ghost predicate GetsResolved(max: nat, attempts: nat -> Attempt, cancelled: nat -> bool) {
    exists k: nat :: 1 <= k <= max && Settles(attempts(k)) && AllFailed(attempts, cancelled, k - 1) && (k > 1 ==> !cancelled(k))
  }

  /** The cycle ends in the wait before some attempt within the budget, after none before it settled:
      then the result goes neither out nor to the spool. */
  ghost predicate IsLostInWait(max: nat, attempts: nat -> Attempt, cancelled: nat -> bool) {
    exists k: nat :: 2 <= k <= max && cancelled(k) && AllFailed(attempts, cancelled, k - 1)
  }

  /** An outage lasts through the first n attempts, and the cycle does too. */
  ghost predicate AllTransient(attempts: nat -> Attempt, cancelled: nat -> bool, n: nat) {
    forall k: nat :: 1 <= k <= n ==> Transient(attempts(k)) && (k > 1 ==> !cancelled(k))
  }

  lemma ResolvedMeans(max: nat, attempts: nat -> Attempt, cancelled: nat -> bool, made: nat)
    requires 1 <= made <= max && AllFailed(attempts, cancelled, made - 1) && (made > 1 ==> !cancelled(made)) && Settles(attempts(made))
    ensures GetsResolved(max, attempts, cancelled) && !IsLostInWait(max, attempts, cancelled) && !AllFailed(attempts, cancelled, max)
  {
  }

  lemma AbortedMeans(max: nat, attempts: nat -> Attempt, cancelled: nat -> bool, made: nat)
    requires 1 <= made < max && AllFailed(attempts, cancelled, made) && cancelled(made + 1)
    ensures !GetsResolved(max, attempts, cancelled) && IsLostInWait(max, attempts, cancelled) && !AllFailed(attempts, cancelled, max)
  {
  }

  lemma FailedMeans(max: nat, attempts: nat -> Attempt, cancelled: nat -> bool)
    requires AllFailed(attempts, cancelled, max)
    ensures !GetsResolved(max, attempts, cancelled) && !IsLostInWait(max, attempts, cancelled)
  {
  }

  function EngineDown(k: nat): Attempt { NotSent }

  predicate EndsInFirstWait(k: nat) { k == 2 }

  predicate NeverEnds(k: nat) { false }

  /** With the default budget, an engine that is down and a cycle that ends in the first wait lose the
      result, whether or not there is a spool; had the cycle lasted, every attempt would have failed
      and the result gone to the spool. */
  lemma LostInFirstWait()
    ensures IsLostInWait(MaxAttempts(0), EngineDown, EndsInFirstWait)
    ensures !IsLostInWait(MaxAttempts(0), EngineDown, NeverEnds) && AllFailed(EngineDown, NeverEnds, MaxAttempts(0))
  {
    assert AllFailed(EngineDown, EndsInFirstWait, 1) && EndsInFirstWait(2);
  }

  /** attempts(k) is how the k-th attempt goes and cancelled(k) whether the wait before it is cut
      short.  Exactly one of the four outcomes is reached, and each for exactly one reason. */
  method SendPostbackWithRetry(configured: int, base: int, attempts: nat -> Attempt, cancelled: nat -> bool, spool: Spool)
    returns (outcome: Outcome, made: nat, waits: seq<int>, notices: nat)
    ensures 1 <= made <= (if configured < 1 then 3 else configured)
    ensures AllFailed(attempts, cancelled, made - 1) && (made > 1 ==> !cancelled(made))
    ensures outcome == Resolved <==> Settles(attempts(made))
    ensures outcome == Aborted <==> !Settles(attempts(made)) && made < MaxAttempts(configured)
    ensures outcome == Resolved <==> GetsResolved(MaxAttempts(configured), attempts, cancelled)
    ensures outcome == Aborted <==> IsLostInWait(MaxAttempts(configured), attempts, cancelled)
    ensures outcome == Spooled || outcome == Dropped <==> AllFailed(attempts, cancelled, MaxAttempts(configured))
    ensures outcome == Spooled ==> spool == SpoolWorks
    ensures outcome == Dropped ==> spool != SpoolWorks
    ensures AllTransient(attempts, cancelled, if configured < 1 then 3 else configured) ==>
              made == (if configured < 1 then 3 else configured) && outcome == if spool == SpoolWorks then Spooled else Dropped
    ensures attempts(1).Reply? && attempts(1).status == 200 ==> made == 1 && outcome == Resolved && waits == []
    ensures notices == if outcome == Spooled || outcome == Dropped then 1 else 0
    ensures |waits| == if outcome == Aborted then made else made - 1
    ensures forall k :: 0 <= k < |waits| ==> DelayFits(waits[k], base, 64 * SECOND, k + 2)
  {
    var maxAttempts := if configured < 1 then DEFAULT_MAX_ATTEMPTS else configured;
    var baseBackoff := if base <= 0 then DEFAULT_BASE_BACKOFF else base;
    made, waits, notices := 0, [], 0;
    var attempt := 1;
    while attempt <= maxAttempts
      invariant 1 <= attempt <= maxAttempts + 1
      invariant made == attempt - 1
      invariant |waits| == if made == 0 then 0 else made - 1
      invariant AllFailed(attempts, cancelled, made)
      invariant forall k :: 0 <= k < |waits| ==> DelayFits(waits[k], base, DEFAULT_MAX_BACKOFF, k + 2)
    {
      if attempt > 1 {
        var backoff, _ := PostbackRetryBackoff(baseBackoff, DEFAULT_MAX_BACKOFF, attempt);
        waits := waits + [backoff];
        if cancelled(attempt) {
          outcome := Aborted;
          AbortedMeans(maxAttempts, attempts, cancelled, made);
          return;
        }
      }
      made := attempt;
      if Settles(attempts(attempt)) {
        outcome := Resolved;
        ResolvedMeans(maxAttempts, attempts, cancelled, made);
        return;
      }
      attempt := attempt + 1;
    }
    notices := 1;
    FailedMeans(maxAttempts, attempts, cancelled);
    assert made == maxAttempts;
    outcome := if spool == SpoolWorks then Spooled else Dropped;
  }
}
