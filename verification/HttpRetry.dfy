/** The connector's request loop with its two budgets: one OAuth2 refresh, and
    a configured number of backed-off retries. */
module HttpRetry {
  import opened Wrappers

  const MAX_DELAY_MS := 30000.0
  const AUTH_STATUSES := {401, 403}

  datatype RetryPolicy = RetryPolicy(maxAttempts: int, retryOnStatus: set<int>, initialDelayMs: int,
                                     multiplier: real, jitter: bool)
  {
    predicate Valid() {
      maxAttempts >= 1 && initialDelayMs >= 0 && multiplier >= 1.0
    }

    predicate ShouldRetry(status: int) {
      status !in AUTH_STATUSES && status in retryOnStatus
    }
  }

  // ---------------------------------------------------------------- delays

  function Power(base: real, n: nat): real {
    if n == 0 then 1.0 else base * Power(base, n - 1)
  }

  /** The exponential delay in milliseconds, uncapped. */
  function Backoff(p: RetryPolicy, retry: nat): real
    requires retry > 0
  {
    p.initialDelayMs as real * Power(p.multiplier, retry - 1)
  }

  /** Milliseconds before jitter. */
  function CappedDelay(p: RetryPolicy, retry: nat): real
    requires retry > 0
  {
    var base := Backoff(p, retry);
    if base < MAX_DELAY_MS then base else MAX_DELAY_MS
  }

  /** Seconds before the N-th retry; `draw` is the jitter's uniform draw. */
  function DelaySeconds(p: RetryPolicy, retry: nat, draw: real): real {
    if retry == 0 then 0.0
    else (if p.jitter then draw * CappedDelay(p, retry) else CappedDelay(p, retry)) / 1000.0
  }

  lemma {:induction false} PowerAtLeastOne(base: real, n: nat)
    requires base >= 1.0
    ensures Power(base, n) >= 1.0
  {
    if n > 0 {
      PowerAtLeastOne(base, n - 1);
      TimesAtLeast(base, Power(base, n - 1));
    }
  }

  lemma TimesAtLeast(a: real, x: real)
    requires a >= 1.0 && x >= 0.0
    ensures a * x >= x
  {
    assert (a - 1.0) * x >= 0.0;
  }

  lemma CappedBounds(p: RetryPolicy, retry: nat)
    requires p.Valid() && retry > 0
    ensures 0.0 <= CappedDelay(p, retry) <= MAX_DELAY_MS
  {
    hide Power;
    PowerAtLeastOne(p.multiplier, retry - 1);
    TimesAtLeast(Power(p.multiplier, retry - 1), p.initialDelayMs as real);
  }

  /** Whatever the policy and the draw, a sleep is between 0 and 30 seconds. */
  lemma DelayBounds(p: RetryPolicy, retry: nat, draw: real)
    requires p.Valid() && 0.0 <= draw <= 1.0 && retry > 0
    ensures 0.0 <= DelaySeconds(p, retry, draw) <= 30.0
  {
    hide CappedDelay;
    CappedBounds(p, retry);
    var capped := CappedDelay(p, retry);
    Shrinks(draw, capped);
    var slept := if p.jitter then draw * capped else capped;
    assert 0.0 <= slept <= 30000.0;
    InSeconds(slept);
    assert DelaySeconds(p, retry, draw) == slept / 1000.0;
  }

  lemma InSeconds(ms: real)
    requires 0.0 <= ms <= 30000.0
    ensures 0.0 <= ms / 1000.0 <= 30.0
  {
  }

  lemma BackoffGrows(p: RetryPolicy, retry: nat)
    requires p.Valid() && retry > 0
    ensures Backoff(p, retry) <= Backoff(p, retry + 1)
  {
    var power := Power(p.multiplier, retry - 1);
    assert Power(p.multiplier, retry) == p.multiplier * power;
    PowerAtLeastOne(p.multiplier, retry - 1);
    ScaledUp(p.multiplier, p.initialDelayMs as real, power);
    hide Power;
    assert Backoff(p, retry) == p.initialDelayMs as real * power;
    assert Backoff(p, retry + 1) == p.initialDelayMs as real * (p.multiplier * power);
  }

  /** The first delay is the configured one, and each next one the configured
      factor longer, up to thirty seconds; jitter only ever shortens it. */
  lemma DelaysAreExponential(p: RetryPolicy, retry: nat, draw: real)
    requires p.Valid() && retry > 0 && 0.0 <= draw <= 1.0
    ensures Backoff(p, 1) == p.initialDelayMs as real && Backoff(p, retry + 1) == p.multiplier * Backoff(p, retry)
    ensures var ms := if Backoff(p, retry) <= 30000.0 then Backoff(p, retry) else 30000.0;
            && (!p.jitter ==> DelaySeconds(p, retry, draw) == ms / 1000.0)
            && (p.jitter ==> DelaySeconds(p, retry, draw) == draw * ms / 1000.0)
  {
    var power := Power(p.multiplier, retry - 1);
    assert Power(p.multiplier, retry) == p.multiplier * power && Power(p.multiplier, 0) == 1.0;
    hide Power;
    Commutes(p.initialDelayMs as real, p.multiplier, power);
  }

  lemma Commutes(a: real, b: real, c: real)
    ensures a * (b * c) == b * (a * c)
  {
  }

  /** Before jitter, the sleeps never get shorter. */
  lemma DelaysGrow(p: RetryPolicy, retry: nat)
    requires p.Valid() && retry > 0
    ensures CappedDelay(p, retry) <= CappedDelay(p, retry + 1)
  {
    hide Backoff;
    BackoffGrows(p, retry);
  }

  lemma ScaledUp(m: real, x: real, power: real)
    requires m >= 1.0 && x >= 0.0 && power >= 0.0
    ensures x * power <= x * (m * power)
  {
    TimesAtLeast(m, power);
    assert x * (m * power - power) >= 0.0;
  }

  lemma Shrinks(draw: real, x: real)
    requires 0.0 <= draw <= 1.0 && x >= 0.0
    ensures 0.0 <= draw * x <= x
  {
    assert (1.0 - draw) * x >= 0.0;
  }

  // ---------------------------------------------------------------- reading a policy

  datatype RawPolicy = RawPolicy(maxAttempts: int, retryOnStatus: seq<int>, initialDelayMs: int, multiplier: real,
                                 jitter: bool)

  datatype Parsed = NoPolicy | Policy(policy: RetryPolicy) | Invalid

  /** A stored policy as read: auth statuses are dropped, every other listed
      status is retried, and a policy out of range is refused. */
  function ParseRetryPolicy(raw: Option<RawPolicy>): (r: Parsed)
    ensures r.NoPolicy? <==> raw.None?
    ensures r.Policy? ==> r.policy.Valid() && r.policy.retryOnStatus !! AUTH_STATUSES
    ensures r.Policy? ==>
              && r.policy.maxAttempts == raw.value.maxAttempts && r.policy.initialDelayMs == raw.value.initialDelayMs
              && r.policy.multiplier == raw.value.multiplier && r.policy.jitter == raw.value.jitter
    ensures r.Policy? ==> forall s :: s in raw.value.retryOnStatus ==> (r.policy.ShouldRetry(s) <==> s !in AUTH_STATUSES)
    ensures r.Policy? ==> forall s :: r.policy.ShouldRetry(s) ==> s in raw.value.retryOnStatus
    ensures raw.Some? ==> (r.Invalid? <==> raw.value.maxAttempts < 1 || raw.value.initialDelayMs < 0 || raw.value.multiplier < 1.0)
  {
    if raw.None? then NoPolicy
    else
      var p := RetryPolicy(raw.value.maxAttempts, (set s | s in raw.value.retryOnStatus && s !in AUTH_STATUSES),
                           raw.value.initialDelayMs, raw.value.multiplier, raw.value.jitter);
      if p.Valid() then Policy(p) else Invalid
  }

  // ---------------------------------------------------------------- the loop

  /** What a call does, in order. A request shows its status, or None when the
      transport failed. */
  datatype Event = Sent(status: Option<int>) | Refreshed(ok: bool) | Slept(seconds: real)

  /** What the outside answers: whether auth can be prepared for the n-th
      request, its status, whether a refresh works, and the jitter draws. */
  datatype World = World(prepares: nat -> bool, status: nat -> Option<int>, refreshes: bool, draw: nat -> real)

  datatype Result = Response(status: int) | AuthError | TransportError

  function Requests(log: seq<Event>): nat {
    if log == [] then 0 else Requests(log[..|log| - 1]) + (if log[|log| - 1].Sent? then 1 else 0)
  }

  function Refreshes(log: seq<Event>): nat {
    if log == [] then 0 else Refreshes(log[..|log| - 1]) + (if log[|log| - 1].Refreshed? then 1 else 0)
  }

  function Sleeps(log: seq<Event>): nat {
    if log == [] then 0 else Sleeps(log[..|log| - 1]) + (if log[|log| - 1].Slept? then 1 else 0)
  }

  function TotalSleep(log: seq<Event>): real {
    if log == [] then 0.0
    else TotalSleep(log[..|log| - 1]) + (if log[|log| - 1].Slept? then log[|log| - 1].seconds else 0.0)
  }

  function Attempts(policy: Option<RetryPolicy>): int {
    if policy.Some? then policy.value.maxAttempts else 1
  }

  predicate Retryable(policy: Option<RetryPolicy>, status: Option<int>) {
    policy.Some? && status.Some? && policy.value.ShouldRetry(status.value)
  }

  /** What may come right after `before` (None at the start of the call). */
  predicate Follows(policy: Option<RetryPolicy>, oauth2: bool, before: Option<Event>, e: Event) {
    match e
    case Sent(_) => before.Some? ==> before.value.Slept? || before.value == Refreshed(true)
    case Slept(_) => before.Some? && before.value.Sent? && Retryable(policy, before.value.status)
    case Refreshed(_) => && oauth2 && before.Some? && before.value.Sent? && before.value.status.Some?
                         && before.value.status.value in AUTH_STATUSES
  }

  function Before(log: seq<Event>, i: nat): Option<Event>
    requires i <= |log|
  {
    if i == 0 then None else Some(log[i - 1])
  }

  /** Every sleep follows a retryable response at once; every refresh follows
      an OAuth2 auth error at once; nothing is sent twice without either. */
  predicate Explained(policy: Option<RetryPolicy>, oauth2: bool, log: seq<Event>) {
    forall i :: 0 <= i < |log| ==> Follows(policy, oauth2, Before(log, i), log[i])
  }

  lemma Extend(policy: Option<RetryPolicy>, oauth2: bool, log: seq<Event>, e: Event)
    requires Explained(policy, oauth2, log) && Follows(policy, oauth2, Before(log, |log|), e)
    ensures Explained(policy, oauth2, log + [e])
    ensures Requests(log + [e]) == Requests(log) + (if e.Sent? then 1 else 0)
    ensures Refreshes(log + [e]) == Refreshes(log) + (if e.Refreshed? then 1 else 0)
    ensures Sleeps(log + [e]) == Sleeps(log) + (if e.Slept? then 1 else 0)
    ensures TotalSleep(log + [e]) == TotalSleep(log) + (if e.Slept? then e.seconds else 0.0)
  {
    hide Follows;
    assert (log + [e])[..|log|] == log;
    forall i | 0 <= i < |log + [e]| ensures Follows(policy, oauth2, Before(log + [e], i), (log + [e])[i]) {
      assert i <= |log| ==> Before(log + [e], i) == Before(log, i);
    }
  }

  /** A retry policy lists this status, and it is no auth status. */
  predicate Listed(policy: Option<RetryPolicy>, status: int) {
    policy.Some? && status in policy.value.retryOnStatus && status != 401 && status != 403
  }

  /** Every request shows what the outside answered it, every sleep comes right
      after a listed status and is as long as the policy says for the retry it
      precedes. */
  ghost predicate AsAnswered(policy: Option<RetryPolicy>, world: World, log: seq<Event>) {
    forall i :: 0 <= i < |log| ==> EventAsAnswered(policy, world, log[..i], log[i])
  }

  ghost predicate EventAsAnswered(policy: Option<RetryPolicy>, world: World, before: seq<Event>, e: Event) {
    match e
    case Sent(status) => status == world.status(Requests(before))
    case Refreshed(ok) => ok == world.refreshes
    case Slept(seconds) =>
      var n := Sleeps(before) + 1;
      && policy.Some? && seconds == DelaySeconds(policy.value, n, world.draw(n))
      && before != [] && var last := before[|before| - 1]; last.Sent? && last.status.Some? && Listed(policy, last.status.value)
  }

  lemma AnsweredSnoc(policy: Option<RetryPolicy>, world: World, log: seq<Event>, e: Event)
    requires AsAnswered(policy, world, log) && EventAsAnswered(policy, world, log, e)
    ensures AsAnswered(policy, world, log + [e])
  {
    hide EventAsAnswered;
    forall i | 0 <= i < |log + [e]| ensures EventAsAnswered(policy, world, (log + [e])[..i], (log + [e])[i]) {
      if i < |log| {
        assert (log + [e])[..i] == log[..i];
      } else {
        assert (log + [e])[..i] == log;
      }
    }
  }

  method ExecuteHttp(policy: Option<RetryPolicy>, oauth2: bool, world: World) returns (r: Result, log: seq<Event>)
    requires policy.Some? ==> policy.value.Valid()
    requires forall n :: 0.0 <= world.draw(n) <= 1.0
    ensures Explained(policy, oauth2, log)
    ensures Requests(log) <= Attempts(policy) + 1 && Sleeps(log) <= Attempts(policy) - 1
    ensures Refreshes(log) <= 1 && (Refreshes(log) == 1 ==> oauth2)
    ensures 0.0 <= TotalSleep(log) <= 30.0 * Sleeps(log) as real
    ensures r.Response? ==> log != [] && log[|log| - 1] == Sent(Some(r.status)) && Requests(log) == 1 + Sleeps(log) + Refreshes(log)
    ensures r.Response? ==> !Listed(policy, r.status) || Sleeps(log) == Attempts(policy) - 1
    ensures Sleeps(log) <= (if policy.Some? then policy.value.maxAttempts - 1 else 0)
    ensures AsAnswered(policy, world, log)
    ensures r.Response? && oauth2 && r.status in AUTH_STATUSES ==> Refreshes(log) == 1 && world.refreshes
    ensures r.TransportError? ==> log != [] && log[|log| - 1] == Sent(None)
    ensures r.AuthError? ==> log == [] || log[|log| - 1] == Refreshed(false) || !world.prepares(Requests(log))
  {
    hide Requests, Refreshes, Sleeps, TotalSleep, Retryable, Explained, AsAnswered, Listed, DelaySeconds;
    log := [];
    Empty();
    var refreshUsed, retriesLeft := false, Attempts(policy) - 1;
    var attemptsMade := 0;
    while true
      invariant 0 <= retriesLeft == Attempts(policy) - 1 - attemptsMade && 0 <= attemptsMade
      invariant Explained(policy, oauth2, log)
      invariant log != [] ==> log[|log| - 1].Slept? || log[|log| - 1] == Refreshed(true)
      invariant Sleeps(log) == attemptsMade && Refreshes(log) == (if refreshUsed then 1 else 0)
      invariant Requests(log) == Sleeps(log) + Refreshes(log)
      invariant refreshUsed ==> oauth2 && world.refreshes
      invariant 0.0 <= TotalSleep(log) <= 30.0 * attemptsMade as real
      invariant AsAnswered(policy, world, log)
      decreases retriesLeft + (if refreshUsed then 0 else 1)
    {
      var n := Requests(log);
      if !world.prepares(n) {
        return AuthError, log;
      }
      var status := world.status(n);
      Extend(policy, oauth2, log, Sent(status));
      AnsweredSnoc(policy, world, log, Sent(status));
      log := log + [Sent(status)];
      if status.None? {
        return TransportError, log;
      }
      if !refreshUsed && status.value in AUTH_STATUSES && oauth2 {
        Extend(policy, oauth2, log, Refreshed(world.refreshes));
        AnsweredSnoc(policy, world, log, Refreshed(world.refreshes));
        log := log + [Refreshed(world.refreshes)];
        if !world.refreshes {
          return AuthError, log;
        }
        refreshUsed := true;
        continue;
      }
      RetryableIffListed(policy, status.value);
      if retriesLeft > 0 && Retryable(policy, status) {
        assert policy.Some?;
        attemptsMade := attemptsMade + 1;
        var seconds := DelaySeconds(policy.value, attemptsMade, world.draw(attemptsMade));
        DelayBounds(policy.value, attemptsMade, world.draw(attemptsMade));
        Extend(policy, oauth2, log, Slept(seconds));
        AnsweredSnoc(policy, world, log, Slept(seconds));
        log := log + [Slept(seconds)];
        retriesLeft := retriesLeft - 1;
        continue;
      }
      return Response(status.value), log;
    }
  }

  lemma Empty()
    ensures Requests([]) == 0 && Refreshes([]) == 0 && Sleeps([]) == 0 && TotalSleep([]) == 0.0
    ensures forall policy, oauth2 :: Explained(policy, oauth2, [])
    ensures forall policy, world :: AsAnswered(policy, world, [])
  {
  }

  lemma RetryableIffListed(policy: Option<RetryPolicy>, status: int)
    ensures Retryable(policy, Some(status)) <==> Listed(policy, status)
    ensures Listed(policy, status) ==> policy.Some?
  {
  }
}
