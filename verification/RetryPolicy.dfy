/** The circuit breaker and the exponential backoff that pace the restarts of sing-box. */
module RetryPolicy {

  /** `circuit_breaker_t`; times are seconds. */
  datatype Breaker = Breaker(failures: nat, threshold: nat, cooldown: nat, lastFailure: int, open: bool) {
    function RecordFailure(now: int): (b: Breaker)
    {
      this.(failures := failures + 1, lastFailure := now, open := open || failures + 1 >= threshold)
    }

    function RecordSuccess(): (b: Breaker)
    {
      this.(failures := 0, open := false)
    }

    /** `circuit_breaker_should_allow`: closes an open breaker whose cooldown has expired. */
    function Check(now: int): (b: Breaker)
    {
      if open && now - lastFailure > cooldown then this.(failures := 0, open := false) else this
    }
  }

  /** One call on the breaker. */
  datatype Call = Failure(at: int) | Success | Asked(at: int)

  function Apply(b: Breaker, c: Call): (r: Breaker)
  {
    match c
    case Failure(at) => b.RecordFailure(at)
    case Success => b.RecordSuccess()
    case Asked(at) => b.Check(at)
  }

  function Fresh(threshold: nat, cooldown: nat): (b: Breaker)
  {
    Breaker(0, threshold, cooldown, 0, false)
  }

  /** The breaker after a history of calls. */
  function After(threshold: nat, cooldown: nat, h: seq<Call>): (b: Breaker)
    ensures b.threshold == threshold && b.cooldown == cooldown
  {
    if |h| == 0 then Fresh(threshold, cooldown) else Apply(After(threshold, cooldown, h[..|h| - 1]), h[|h| - 1])
  }

  /** An open breaker stays open for `cooldown` seconds after the latest failure and not one second longer. */
  lemma CooldownIsExact(b: Breaker)
    requires b.open
    ensures b.Check(b.lastFailure + b.cooldown) == b
    ensures b.Check(b.lastFailure + b.cooldown + 1) == b.(failures := 0, open := false)
  {
  }

  /** The clock of a history never runs backwards. */
  ghost predicate Monotone(h: seq<Call>)
  {
    forall i, j :: 0 <= i < j < |h| && !h[i].Success? && !h[j].Success? ==> h[i].at <= h[j].at
  }

  /** Every failure of the history is more than `cooldown` seconds old at `now`. */
  ghost predicate Cooled(h: seq<Call>, cooldown: nat, now: int)
  {
    forall i :: 0 <= i < |h| && h[i].Failure? ==> now - h[i].at > cooldown
  }

  /** Failures recorded since the last success or cooldown expiry. */
  ghost function Strikes(threshold: nat, cooldown: nat, h: seq<Call>): (n: nat)
  {
    if |h| == 0 then 0
    else
      var before, last := h[..|h| - 1], h[|h| - 1];
      var n := Strikes(threshold, cooldown, before);
      match last
      case Failure(_) => n + 1
      case Success => 0
      case Asked(at) => if n >= threshold && Cooled(before, cooldown, at) then 0 else n
  }

  /** The recorded time is that of the latest failure. */
  lemma {:induction false} LastFailureIsLatest(threshold: nat, cooldown: nat, h: seq<Call>, i: nat)
    requires Monotone(h) && i < |h| && h[i].Failure?
    ensures h[i].at <= After(threshold, cooldown, h).lastFailure
    ensures exists j :: 0 <= j < |h| && h[j] == Failure(After(threshold, cooldown, h).lastFailure)
    decreases |h|
  {
    var before := h[..|h| - 1];
    if h[|h| - 1].Failure? {
      assert After(threshold, cooldown, h).lastFailure == h[|h| - 1].at;
    } else {
      LastFailureIsLatest(threshold, cooldown, before, i);
      var j :| 0 <= j < |before| && before[j] == Failure(After(threshold, cooldown, before).lastFailure);
      assert h[j] == before[j];
    }
  }

  lemma {:induction false} StrikesNeedFailure(threshold: nat, cooldown: nat, h: seq<Call>)
    requires Strikes(threshold, cooldown, h) > 0
    ensures exists i :: 0 <= i < |h| && h[i].Failure?
    decreases |h|
  {
    if !h[|h| - 1].Failure? {
      var before := h[..|h| - 1];
      StrikesNeedFailure(threshold, cooldown, before);
      var i :| 0 <= i < |before| && before[i].Failure?;
      assert h[i].Failure?;
    }
  }

  /** With failures on record, the cooldown has expired exactly when every failure is old enough. */
  lemma CooledByLatest(threshold: nat, cooldown: nat, h: seq<Call>, now: int)
    requires Monotone(h) && Strikes(threshold, cooldown, h) > 0
    ensures Cooled(h, cooldown, now) <==> now - After(threshold, cooldown, h).lastFailure > cooldown
  {
    StrikesNeedFailure(threshold, cooldown, h);
    var k :| 0 <= k < |h| && h[k].Failure?;
    LastFailureIsLatest(threshold, cooldown, h, k);
    forall i | 0 <= i < |h| && h[i].Failure?
      ensures h[i].at <= After(threshold, cooldown, h).lastFailure
    {
      LastFailureIsLatest(threshold, cooldown, h, i);
    }
  }

  /**
   Over every history with a nondecreasing clock the breaker is open exactly when at least `threshold`
   failures were recorded since the last success or cooldown expiry.
   */
  lemma {:induction false} OpenIffStruckOut(threshold: nat, cooldown: nat, h: seq<Call>)
    requires threshold > 0 && Monotone(h)
    ensures After(threshold, cooldown, h).failures == Strikes(threshold, cooldown, h)
    ensures After(threshold, cooldown, h).open <==> Strikes(threshold, cooldown, h) >= threshold
    decreases |h|
  {
    if |h| > 0 {
      var before := h[..|h| - 1];
      OpenIffStruckOut(threshold, cooldown, before);
      if h[|h| - 1].Asked? && Strikes(threshold, cooldown, before) >= threshold {
        CooledByLatest(threshold, cooldown, before, h[|h| - 1].at);
      }
    }
  }

  /** `backoff_t` with the values of `backoff_init`. */
  datatype Backoff = Backoff(base: nat, max: nat, current: nat, multiplier: nat) {
    function Reset(): (b: Backoff) { this.(current := base) }

    /** `backoff_next` returns `current` and leaves this. */
    function Next(): (b: Backoff)
    {
      var grown := current * multiplier;
      this.(current := if grown > max then max else grown)
    }
  }

  const INITIAL_BACKOFF := Backoff(1000, 60000, 1000, 2)

  function Pow2(k: nat): (p: nat)
    ensures p > 0
  {
    if k == 0 then 1 else 2 * Pow2(k - 1)
  }

  /** The k-th delay since a reset, in milliseconds. */
  function Delay(k: nat): (d: nat)
  {
    if 1000 * Pow2(k) < 60000 then 1000 * Pow2(k) else 60000
  }

  lemma NextDelay(k: nat)
    ensures INITIAL_BACKOFF.(current := Delay(k)).Next() == INITIAL_BACKOFF.(current := Delay(k + 1))
    ensures Delay(0) == 1000
  {
  }

  /** One second, doubled with every retry, and never more than a minute. */
  lemma FirstDelays(k: nat)
    ensures Delay(0) == 1000 && Delay(1) == 2000 && Delay(2) == 4000 && Delay(3) == 8000 && Delay(4) == 16000
    ensures Delay(5) == 32000 && (k >= 6 ==> Delay(k) == 60000)
  {
    if k >= 6 { Doubles(k); }
  }

  lemma {:induction false} Doubles(k: nat)
    requires k >= 6
    ensures Pow2(k) >= 64
  {
    if k > 6 { Doubles(k - 1); }
  }

  function Steps(b: Backoff, k: nat): (r: Backoff)
  {
    if k == 0 then b else Steps(b, k - 1).Next()
  }

  lemma {:induction false} DelayClosedForm(b: Backoff, k: nat)
    requires b.(current := 1000) == INITIAL_BACKOFF
    ensures Steps(b.Reset(), k) == INITIAL_BACKOFF.(current := Delay(k))
  {
    if k > 0 {
      DelayClosedForm(b, k - 1);
    }
  }
}
