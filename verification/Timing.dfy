/** Reconnect backoff and token renewal, in integer nanoseconds. */
module Timing {

  import opened Numbers

  const MAX_TIMEOUT: int := 64 * SECOND
  const INITIAL_RECONNECT_INTERVAL: int := SECOND

  /** Go's integer division truncates toward zero. */
  function Quot(a: int, b: int): int
    requires b > 0
  {
    if a >= 0 then a / b else -((-a) / b)
  }

  // ---------------------------------------------------------------- reconnect backoff

  function NextBase(base: int): int {
    Min(2 * (if base == 0 then INITIAL_RECONNECT_INTERVAL else base), MAX_TIMEOUT)
  }

  /** The base after n steps from a cleared generator. */
  function BaseAfter(n: nat): int { if n == 0 then 0 else NextBase(BaseAfter(n - 1)) }

  lemma {:induction false} BaseIsCappedPower(n: nat)
    requires n > 0
    ensures BaseAfter(n) == Min(Pow2(n) * SECOND, 64 * SECOND)
  {
    if n > 1 {
      BaseIsCappedPower(n - 1);
      assert Pow2(n) * SECOND == 2 * (Pow2(n - 1) * SECOND);
      assert Pow2(n - 1) >= 1 by { PowPositive(n - 1); }
    } else {
      assert Pow2(1) == 2 * Pow2(0) == 2;
    }
  }

  class ReconnectTimeoutGenerator {
    var base: int
    var timeout: int

    /** A generator in use has a wait within a quarter of its base, never above the cap. */
    ghost predicate Valid()
      reads this
    {
      if base == 0 then timeout == 0
      else
        && 2 * SECOND <= base <= MAX_TIMEOUT
        && 3 * base <= 4 * timeout <= 5 * base
        && timeout <= MAX_TIMEOUT
    }

    constructor ()
      ensures Valid() && base == 0
    {
      base, timeout := 0, 0;
    }

    method Next()
      requires Valid()
      modifies this
      ensures Valid() && base == NextBase(old(base))
      ensures base == Min(if old(base) == 0 then 2 * SECOND else 2 * old(base), 64 * SECOND)
      ensures 3 * base <= 4 * timeout <= 5 * base && timeout <= 64 * SECOND
    {
      if base == 0 {
        base := INITIAL_RECONNECT_INTERVAL;
      }
      base := base * 2;
      if base > MAX_TIMEOUT {
        base := MAX_TIMEOUT;
      }
      var jitter :| -(base / 4) <= jitter <= base / 4;
      timeout := base + jitter;
      if timeout > MAX_TIMEOUT {
        timeout := MAX_TIMEOUT;
      }
    }

    method Clear()
      modifies this
      ensures Valid() && base == 0
    {
      base, timeout := 0, 0;
    }
  }

  // ---------------------------------------------------------------- token renewal

  const MIN_MARGIN: int := MINUTE
  const MAX_MARGIN: int := 15 * MINUTE

  function SasTokenRenewMargin(lifetime: int): int {
    var tenth := Quot(lifetime, 10);
    var floored := if tenth < MIN_MARGIN then MIN_MARGIN else tenth;
    var capped := if floored > MAX_MARGIN then MAX_MARGIN else floored;
    if capped >= lifetime then Quot(lifetime, 2) else capped
  }

  /** The margin leaves a positive delay, and is itself positive, exactly for lifetimes of at least 2 ns. */
  lemma MarginInsideLifetime(lifetime: int)
    ensures 0 < SasTokenRenewMargin(lifetime) < lifetime <==> lifetime >= 2
    ensures lifetime > MINUTE ==>
              SasTokenRenewMargin(lifetime) == (if lifetime < 10 * MINUTE then MINUTE else Min(lifetime / 10, 15 * MINUTE))
    ensures 0 <= lifetime <= MINUTE ==> SasTokenRenewMargin(lifetime) == lifetime / 2
  {
  }

  /** The token carries its expiry in whole Unix seconds. */
  function ExpiryOf(minted: nat, lifetime: nat): nat {
    (minted + lifetime) / SECOND * SECOND
  }

  /** When the renewal timer fires, armed `delay` after the token was minted. */
  function RenewsAt(minted: nat, lifetime: nat, delay: nat): int {
    minted + delay + lifetime - SasTokenRenewMargin(lifetime)
  }

  /** Renewal comes strictly before expiry exactly when the delay is below the margin less the
      part of a second that the expiry loses to rounding; a second less than the margin always does. */
  lemma RenewsBeforeExpiry(minted: nat, lifetime: nat, delay: nat)
    ensures RenewsAt(minted, lifetime, delay) < ExpiryOf(minted, lifetime)
            <==> delay < SasTokenRenewMargin(lifetime) - (minted + lifetime) % SECOND
    ensures delay <= SasTokenRenewMargin(lifetime) - SECOND ==> RenewsAt(minted, lifetime, delay) < ExpiryOf(minted, lifetime)
  {
    assert minted + lifetime == ExpiryOf(minted, lifetime) + (minted + lifetime) % SECOND;
  }

  /** With a configured lifetime of whole hours, every cycle that reaches its select renews in
      time, as long as the connect, subscribe and notification waits stay within 344 s; 5 s are added to
      the connect wait, and the twin update is waited for 10 s. */
  lemma ConfiguredTokensRenewInTime(minted: nat, hours: nat, connect: nat, subscribe: nat, notify: nat, delay: nat)
    requires hours > 0
    requires delay <= (connect + 5 * SECOND) + 10 * SECOND + subscribe + notify
    requires connect + subscribe + notify <= 344 * SECOND
    ensures RenewsAt(minted, hours * HOUR, delay) < ExpiryOf(minted, hours * HOUR)
  {
    RenewsBeforeExpiry(minted, hours * HOUR, delay);
    assert hours * HOUR >= HOUR;
    assert SasTokenRenewMargin(hours * HOUR) >= 6 * MINUTE;
  }
}
