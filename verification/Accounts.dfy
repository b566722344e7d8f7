/** Account states of app/core/balancer/logic.py: what selection and the failure handlers do to one account. */
module Accounts {
  import opened Basics

  datatype Status = Active | RateLimited | QuotaExceeded | Paused | ReauthRequired | Deactivated

  datatype Policy = BurnFirst | Normal | Preserve | Other

  const HEALTHY := 0
  const DRAINING := 1
  const PROBING := 2

  /** The fields that selection and the handlers only read. */
  datatype Profile = Profile(
    id: string,
    plan: Option<string>,
    primaryResetAt: Option<int>,
    secondaryResetAt: Option<int>,
    lastSelectedAt: Option<real>,
    capacityCredits: Option<real>,
    healthTier: int,
    priorityUsedPercent: Option<real>,
    prioritySecondaryUsedPercent: Option<real>,
    priorityResetAt: Option<int>,
    priorityCapacityCredits: Option<real>,
    limitScopedUsage: bool,
    routingPolicy: Policy,
    ignoreStandardQuota: bool)

  /** The value of an account state. */
  datatype Account = Account(
    profile: Profile,
    status: Status,
    usedPercent: Option<real>,
    secondaryUsedPercent: Option<real>,
    resetAt: Option<real>,
    blockedAt: Option<real>,
    cooldownUntil: Option<real>,
    lastErrorAt: Option<real>,
    errorCount: nat)

  datatype Strategy = UsageWeighted | RoundRobin | CapacityWeighted | RelativeAvailability | FillFirst
      | SequentialDrain | ResetDrain | SingleAccount

  datatype Window = Primary | Secondary

  datatype Traffic = Foreground | Opportunistic

  /** The keyword arguments of `select_account`. */
  datatype Options = Options(
    preferEarlierReset: bool,
    window: Window,
    strategy: Strategy,
    allowBackoffFallback: bool,
    deterministicProbe: bool,
    recoveryProbeOnly: bool,
    topK: int,
    primaryFirst: bool,
    traffic: Traffic,
    ignoreStandardQuota: bool,
    bypassQuotaExceeded: bool,
    bypassIds: Option<set<string>>,
    costs: map<string, real>)

  /**
   What lies outside this file: digests, as the numbers their digits denote; plan facts; the exponentiation of weights.
   */
  datatype Env = Env(
    digest: string -> nat,
    saltedDigest: string -> nat,
    isFree: Option<string> -> bool,
    planCredits: Option<string> -> real,
    power: real -> real)

  datatype Ctx = Ctx(env: Env, options: Options, now: real)

  /** Python's truth of an optional number. */
  predicate Truthy(x: Option<real>) { x.Some? && x.value != 0.0 }

  predicate Due(deadline: Option<real>, now: real) { Truthy(deadline) && now >= deadline.value }

  function Pow2(n: nat): nat { if n == 0 then 1 else 2 * Pow2(n - 1) }

  function BackoffSeconds(errors: nat): int
    requires errors >= 3
  {
    var b := 30 * Pow2(errors - 3);
    if b < 300 then b else 300
  }

  /** The backoff starts at 30 seconds and doubles with each further error up to five minutes. */
  lemma BackoffDoubles(errors: nat)
    requires errors >= 3
    ensures BackoffSeconds(3) == 30 && 30 <= BackoffSeconds(errors) <= 300
    ensures BackoffSeconds(errors + 1) == if 2 * BackoffSeconds(errors) < 300 then 2 * BackoffSeconds(errors) else 300
  {
    Pow2Positive(errors - 3);
  }

  lemma {:induction false} Pow2Positive(n: nat)
    ensures Pow2(n) >= 1
  {
    if n == 0 {
    } else {
      Pow2Positive(n - 1);
    }
  }

  /******* Admission *******/

  predicate Bypasses(ctx: Ctx, a: Account) {
    var o := ctx.options;
    o.ignoreStandardQuota || a.profile.ignoreStandardQuota || o.bypassQuotaExceeded
        || (o.bypassIds.Some? && a.profile.id in o.bypassIds.value)
  }

  predicate Limited(a: Account) { a.status.RateLimited? || a.status.QuotaExceeded? }

  predicate HardBlocked(a: Account) { a.status.ReauthRequired? || a.status.Deactivated? || a.status.Paused? }

  predicate InBackoff(a: Account, now: real) {
    a.errorCount >= 3 && Truthy(a.lastErrorAt) && now - a.lastErrorAt.value < BackoffSeconds(a.errorCount) as real
  }

  /** A limit whose reset has passed is lifted. */
  function Lifted(a: Account, now: real): Account {
    if a.status.RateLimited? && Due(a.resetAt, now) then
      a.(status := Active, usedPercent := Some(0.0), errorCount := 0, resetAt := None)
    else if a.status.QuotaExceeded? && Due(a.resetAt, now) then
      a.(status := Active, usedPercent := Some(0.0), secondaryUsedPercent := Some(0.0), resetAt := None)
    else a
  }

  /** A cooldown that has passed is forgotten, and the errors with it. */
  function Cooled(a: Account, now: real): Account {
    if Due(a.cooldownUntil, now) then a.(cooldownUntil := None, lastErrorAt := None, errorCount := 0) else a
  }

  /** An expired backoff leaves a clean slate. */
  function Forgiven(a: Account): Account {
    if a.errorCount >= 3 then a.(errorCount := 0, lastErrorAt := None) else a
  }

  datatype Verdict = Admitted | Backoff | Refused

  datatype Settled = Settled(account: Account, verdict: Verdict)

  /** What one selection makes of one account. */
  function Settle(ctx: Ctx, a: Account): Settled {
    if ctx.env.isFree(a.profile.plan) || HardBlocked(a) then Settled(a, Refused)
    else
      var b := Lifted(a, ctx.now);
      if Limited(b) && !Bypasses(ctx, a) then Settled(b, Refused)
      else
        var c := Cooled(b, ctx.now);
        if Truthy(c.cooldownUntil) then Settled(c, Refused)
        else if InBackoff(c, ctx.now) then Settled(c, Backoff)
        else Settled(Forgiven(c), Admitted)
  }

  /******* What admission does, field by field *******/

  /** Never considered: a free plan, or paused, deactivated or waiting for re-authentication. */
  predicate Skipped(ctx: Ctx, a: Account) {
    ctx.env.isFree(a.profile.plan) || a.status in {Paused, Deactivated, ReauthRequired}
  }

  predicate ResetPassed(ctx: Ctx, a: Account) {
    a.resetAt.Some? && a.resetAt.value != 0.0 && a.resetAt.value <= ctx.now
  }

  /** Some option, the account itself or its id in the given set lifts the standard quota. */
  predicate QuotaIgnored(ctx: Ctx, a: Account) {
    || ctx.options.ignoreStandardQuota || ctx.options.bypassQuotaExceeded || a.profile.ignoreStandardQuota
    || (match ctx.options.bypassIds case None => false case Some(ids) => a.profile.id in ids)
  }

  /** Not skipped, and not held by a limit. */
  predicate Considered(ctx: Ctx, a: Account) {
    !Skipped(ctx, a) && (a.status in {RateLimited, QuotaExceeded} ==> ResetPassed(ctx, a) || QuotaIgnored(ctx, a))
  }

  /** Status, usage and reset: a passed reset lifts the limit, and a lifted quota also clears the weekly usage. */
  predicate LimitFields(ctx: Ctx, a: Account, b: Account) {
    if !Skipped(ctx, a) && ResetPassed(ctx, a) && a.status == RateLimited then
      b.status == Active && b.usedPercent == Some(0.0) && b.secondaryUsedPercent == a.secondaryUsedPercent
          && b.resetAt == None
    else if !Skipped(ctx, a) && ResetPassed(ctx, a) && a.status == QuotaExceeded then
      b.status == Active && b.usedPercent == Some(0.0) && b.secondaryUsedPercent == Some(0.0) && b.resetAt == None
    else
      && b.status == a.status && b.usedPercent == a.usedPercent && b.secondaryUsedPercent == a.secondaryUsedPercent
      && b.resetAt == a.resetAt
  }

  /** The error count a lifted limit leaves: a lifted rate limit forgets the errors, a lifted quota does not. */
  function ErrorsLeft(ctx: Ctx, a: Account): nat {
    if !Skipped(ctx, a) && ResetPassed(ctx, a) && a.status == RateLimited then 0 else a.errorCount
  }

  predicate CoolingDown(a: Account) { a.cooldownUntil.Some? && a.cooldownUntil.value != 0.0 }

  /** The last of `errors` errors is recent: 30 seconds after three, doubling with each further one up to 300. */
  predicate ErredRecently(ctx: Ctx, a: Account, errors: nat) {
    && errors >= 3 && a.lastErrorAt.Some? && a.lastErrorAt.value != 0.0
    && ctx.now < a.lastErrorAt.value + (if 30 * Pow2(errors - 3) < 300 then 30 * Pow2(errors - 3) else 300) as real
  }

  /** Cooldown, errors and verdict. */
  predicate ErrorFields(ctx: Ctx, a: Account, b: Account, v: Verdict) {
    var errors := ErrorsLeft(ctx, a);
    if !Considered(ctx, a) then
      v == Refused && b.cooldownUntil == a.cooldownUntil && b.lastErrorAt == a.lastErrorAt
          && b.errorCount == a.errorCount
    else if CoolingDown(a) && a.cooldownUntil.value > ctx.now then
      v == Refused && b.cooldownUntil == a.cooldownUntil && b.lastErrorAt == a.lastErrorAt && b.errorCount == errors
    else if CoolingDown(a) then
      v == Admitted && b.cooldownUntil == None && b.lastErrorAt == None && b.errorCount == 0
    else if ErredRecently(ctx, a, errors) then
      v == Backoff && b.cooldownUntil == a.cooldownUntil && b.lastErrorAt == a.lastErrorAt && b.errorCount == errors
    else if errors >= 3 then
      v == Admitted && b.cooldownUntil == a.cooldownUntil && b.lastErrorAt == None && b.errorCount == 0
    else
      v == Admitted && b.cooldownUntil == a.cooldownUntil && b.lastErrorAt == a.lastErrorAt && b.errorCount == errors
  }

  lemma SettleErrorFields(ctx: Ctx, a: Account)
    ensures ErrorFields(ctx, a, Settle(ctx, a).account, Settle(ctx, a).verdict)
  {
  }

  /** Every field of an account after one selection, and the verdict, from its fields before. */
  lemma SettleFields(ctx: Ctx, a: Account)
    ensures var b := Settle(ctx, a).account;
            && b.profile == a.profile && b.blockedAt == a.blockedAt
            && LimitFields(ctx, a, b) && ErrorFields(ctx, a, b, Settle(ctx, a).verdict)
  {
    SettleErrorFields(ctx, a);
  }

  /** A second selection at the same time finds the account as the first left it. */
  lemma SettleIdempotent(ctx: Ctx, a: Account)
    ensures Settle(ctx, Settle(ctx, a).account) == Settle(ctx, a)
  {
    var b := Lifted(a, ctx.now);
    var c := Cooled(b, ctx.now);
    assert Lifted(b, ctx.now) == b && Lifted(c, ctx.now) == c && Cooled(c, ctx.now) == c;
    assert Lifted(Forgiven(c), ctx.now) == Forgiven(c) && Cooled(Forgiven(c), ctx.now) == Forgiven(c);
  }

  /** Whoever passes the hard filters may serve. */
  lemma NotRefused(ctx: Ctx, a: Account)
    requires !Settle(ctx, a).verdict.Refused?
    ensures var r := Settle(ctx, a).account;
            !ctx.env.isFree(r.profile.plan) && !HardBlocked(r) && r.profile == a.profile
            && (r.cooldownUntil.Some? ==> r.cooldownUntil.value == 0.0)
            && (a.cooldownUntil.Some? ==> a.cooldownUntil.value == 0.0 || a.cooldownUntil.value <= ctx.now)
            && (Limited(r) ==> Bypasses(ctx, r))
            && (Limited(a) && !Bypasses(ctx, a) ==> Due(a.resetAt, ctx.now))
  {
  }

  /******* Failures *******/

  const HORIZON := 366 * 24 * 60 * 60
  const ROUNDING_TOLERANCE := 1.0
  const MIN_COOLDOWN := 30.0
  const QUOTA_COOLDOWN := 120.0

  /** A JSON number of the upstream error; booleans, NaN and infinities count as invalid. */
  datatype Number = Absent | Invalid | Finite(x: real)

  function Ceil(x: real): int { -(-x).Floor }

  /** `int` truncates toward zero. */
  function Truncated(x: real): int { if x >= 0.0 then x.Floor else Ceil(x) }

  lemma CeilSpec(x: real)
    ensures x <= Ceil(x) as real < x + 1.0
  {
    var f := (-x).Floor;
    assert f as real <= -x < f as real + 1.0;
    assert (-f) as real == -(f as real);
  }

  function PlausibleResetAt(resetAt: Number, now: real, slack: bool): Option<real> {
    var horizon := HORIZON as real + if slack then ROUNDING_TOLERANCE else 0.0;
    if !resetAt.Finite? || resetAt.x <= now || resetAt.x > now + horizon then None else Some(resetAt.x)
  }

  function ExtractResetAt(resetsAt: Number, resetsIn: Number, now: real): Option<int> {
    var raw := PlausibleResetAt(resetsAt, now, false);
    if raw.Some? then
      var rounded := Ceil(raw.value);
      if PlausibleResetAt(Finite(rounded as real), now, true).Some? then Some(rounded) else None
    else if !resetsIn.Finite? || resetsIn.x <= 0.0 || resetsIn.x > HORIZON as real then None
    else
      var rounded := Ceil(now + resetsIn.x);
      if PlausibleResetAt(Finite(rounded as real), now, true).Some? then Some(rounded) else None
  }

  /** The deadline the metadata states, if it is in range. */
  function StatedDeadline(resetsAt: Number, resetsIn: Number, now: real): Option<real> {
    if resetsAt.Finite? && now < resetsAt.x <= now + 31622400.0 then Some(resetsAt.x)
    else if resetsIn.Finite? && 0.0 < resetsIn.x <= 31622400.0 then Some(now + resetsIn.x)
    else None
  }

  /**
   In-range metadata, and nothing else, yields a deadline: the next whole second, after now and within the horizon and
   a second.
   */
  lemma ResetInRange(resetsAt: Number, resetsIn: Number, now: real)
    ensures var stated, r := StatedDeadline(resetsAt, resetsIn, now), ExtractResetAt(resetsAt, resetsIn, now);
            && (r.Some? <==> stated.Some?)
            && (r.Some? ==> stated.value <= r.value as real < stated.value + 1.0)
            && (r.Some? ==> now < r.value as real <= now + 31622400.0 + 1.0)
  {
    if resetsAt.Finite? {
      CeilSpec(resetsAt.x);
    }
    if resetsIn.Finite? {
      CeilSpec(now + resetsIn.x);
    }
  }

  /** The upstream error: the wait its message asks for, and its reset metadata. */
  datatype UpstreamError = UpstreamError(retryAfter: Option<real>, resetsAt: Number, resetsIn: Number)

  /** The state after a rate limit; `backoff` is the wait for the new error count. */
  function AfterRateLimit(a: Account, e: UpstreamError, now: real, backoff: real): Account {
    var reset := ExtractResetAt(e.resetsAt, e.resetsIn, now);
    var delay := if e.retryAfter.Some? then e.retryAfter.value else backoff;
    var persisted := if e.retryAfter.Some? || delay >= MIN_COOLDOWN then delay else MIN_COOLDOWN;
    a.(status := RateLimited, errorCount := a.errorCount + 1, lastErrorAt := Some(now), blockedAt := Some(now),
        cooldownUntil := Some(now + delay),
    resetAt := Some(if reset.Some? then reset.value as real else Ceil(now + persisted) as real))
  }

  function AfterQuotaExceeded(a: Account, e: UpstreamError, now: real): Account {
    var reset := ExtractResetAt(e.resetsAt, e.resetsIn, now);
    a.(status := QuotaExceeded, usedPercent := Some(100.0), blockedAt := Some(now),
        cooldownUntil := Some(now + QUOTA_COOLDOWN),
    resetAt := Some(if reset.Some? then reset.value as real else Truncated(now + 3600.0) as real))
  }

  /**
   Without metadata the persisted deadline outlasts the cooldown, lasts 30 seconds unless a wait was asked for, and
   survives truncation.
   */
  lemma RateLimitDeadlineSurvives(a: Account, e: UpstreamError, now: real, backoff: real)
    requires ExtractResetAt(e.resetsAt, e.resetsIn, now).None?
    ensures var b := AfterRateLimit(a, e, now, backoff);
            && b.cooldownUntil.value <= b.resetAt.value
            && (e.retryAfter.None? ==> b.resetAt.value >= now + 30.0)
            && Truncated(b.resetAt.value) as real == b.resetAt.value
  {
    var delay := if e.retryAfter.Some? then e.retryAfter.value else backoff;
    var persisted := if e.retryAfter.Some? || delay >= MIN_COOLDOWN then delay else MIN_COOLDOWN;
    CeilSpec(now + persisted);
    var n := Ceil(now + persisted);
    assert (n as real).Floor == n && Ceil(n as real) == n by {
      assert -(n as real) == (-n) as real;
    }
  }

  /** A rate limit report and when it came. */
  datatype Report = Report(error: UpstreamError, now: real)

  /** The state after several rate limits with no selection between them. */
  function AfterRateLimits(a: Account, reports: seq<Report>, backoff: nat -> real): Account {
    if reports == [] then a
    else
      var last := |reports| - 1;
      var before := AfterRateLimits(a, reports[..last], backoff);
      AfterRateLimit(before, reports[last].error, reports[last].now, backoff(before.errorCount + 1))
  }

  /** Repeated rate limits escalate: the n-th raises the error count by n and waits for the backoff of that count. */
  lemma {:induction false} RateLimitsEscalate(a: Account, reports: seq<Report>, backoff: nat -> real)
    ensures var b := AfterRateLimits(a, reports, backoff);
            && b.errorCount == a.errorCount + |reports| && b.profile == a.profile
            && b.usedPercent == a.usedPercent && b.secondaryUsedPercent == a.secondaryUsedPercent
            && (reports != [] ==>
                  var last := reports[|reports| - 1];
                  && b.status == RateLimited && b.lastErrorAt == b.blockedAt == Some(last.now)
                  && b.cooldownUntil == Some(last.now + match last.error.retryAfter
                                                        case Some(wait) => wait
                                                        case None => backoff(a.errorCount + |reports|)))
    decreases |reports|
  {
    if reports == [] {
    } else {
      RateLimitsEscalate(a, reports[..|reports| - 1], backoff);
    }
  }

  /******* The mutable state *******/

  class AccountState {
    var profile: Profile
    var status: Status
    var usedPercent: Option<real>
    var secondaryUsedPercent: Option<real>
    var resetAt: Option<real>
    var blockedAt: Option<real>
    var cooldownUntil: Option<real>
    var lastErrorAt: Option<real>
    var errorCount: nat

    constructor (a: Account)
      ensures View() == a
    {
      profile, status := a.profile, a.status;
      usedPercent, secondaryUsedPercent, resetAt, blockedAt := a.usedPercent, a.secondaryUsedPercent, a.resetAt,
          a.blockedAt;
      cooldownUntil, lastErrorAt, errorCount := a.cooldownUntil, a.lastErrorAt, a.errorCount;
    }

    function View(): Account
      reads this
    {
      Account(profile, status, usedPercent, secondaryUsedPercent, resetAt, blockedAt, cooldownUntil, lastErrorAt,
          errorCount)
    }

    /** One round of the admission loop, with what it does to each field. */
    method Admit(ctx: Ctx) returns (verdict: Verdict)
      modifies this
      ensures Settled(View(), verdict) == Settle(ctx, old(View()))
      ensures profile == old(profile) && blockedAt == old(blockedAt)
      ensures LimitFields(ctx, old(View()), View()) && ErrorFields(ctx, old(View()), View(), verdict)
    {
      SettleFields(ctx, View());
      verdict := Consider(ctx);
    }

    /** The body of the admission loop. */
    method Consider(ctx: Ctx) returns (verdict: Verdict)
      modifies this
      ensures Settled(View(), verdict) == Settle(ctx, old(View()))
    {
      if ctx.env.isFree(profile.plan) {
        return Refused;
      }
      var bypass := Bypasses(ctx, View());
      if status.ReauthRequired? || status.Deactivated? {
        return Refused;
      }
      if status.Paused? {
        return Refused;
      }
      if status.RateLimited? {
        if Truthy(resetAt) && ctx.now >= resetAt.value {
          status, usedPercent, errorCount, resetAt := Active, Some(0.0), 0, None;
        } else if !bypass {
          return Refused;
        }
      }
      if status.QuotaExceeded? {
        if Truthy(resetAt) && ctx.now >= resetAt.value {
          status, usedPercent, secondaryUsedPercent, resetAt := Active, Some(0.0), Some(0.0), None;
        } else if !bypass {
          return Refused;
        }
      }
      if Truthy(cooldownUntil) && ctx.now >= cooldownUntil.value {
        cooldownUntil, lastErrorAt, errorCount := None, None, 0;
      }
      if Truthy(cooldownUntil) && ctx.now < cooldownUntil.value {
        return Refused;
      }
      if errorCount >= 3 {
        var backoff := BackoffSeconds(errorCount);
        if Truthy(lastErrorAt) && ctx.now - lastErrorAt.value < backoff as real {
          return Backoff;
        }
        errorCount, lastErrorAt := 0, None;
      }
      verdict := Admitted;
    }

    method HandleRateLimit(e: UpstreamError, now: real, backoff: nat -> real)
      modifies this
      ensures View() == AfterRateLimit(old(View()), e, now, backoff(old(errorCount) + 1))
      ensures status == RateLimited && errorCount == old(errorCount) + 1
      ensures lastErrorAt == blockedAt == Some(now)
      ensures cooldownUntil ==
                Some(now + if e.retryAfter.Some? then e.retryAfter.value else backoff(old(errorCount) + 1))
      ensures profile == old(profile)
      ensures usedPercent == old(usedPercent) && secondaryUsedPercent == old(secondaryUsedPercent)
      ensures resetAt.Some?
      ensures if StatedDeadline(e.resetsAt, e.resetsIn, now).Some?
              then now < resetAt.value <= now + 31622400.0 + 1.0
              else cooldownUntil.value <= resetAt.value
    {
      ResetInRange(e.resetsAt, e.resetsIn, now);
      if ExtractResetAt(e.resetsAt, e.resetsIn, now).None? {
        RateLimitDeadlineSurvives(View(), e, now, backoff(errorCount + 1));
      }
      status := RateLimited;
      errorCount := errorCount + 1;
      lastErrorAt := Some(now);
      blockedAt := Some(now);
      var reset := ExtractResetAt(e.resetsAt, e.resetsIn, now);
      var delay := 0.0;
      var persisted := 0.0;
      if e.retryAfter.None? {
        delay := backoff(errorCount);
        persisted := if delay >= MIN_COOLDOWN then delay else MIN_COOLDOWN;
      } else {
        delay := e.retryAfter.value;
        persisted := delay;
      }
      cooldownUntil := Some(now + delay);
      if reset.Some? {
        resetAt := Some(reset.value as real);
      } else {
        resetAt := Some(Ceil(now + persisted) as real);
      }
    }

    method HandleQuotaExceeded(e: UpstreamError, now: real)
      modifies this
      ensures View() == AfterQuotaExceeded(old(View()), e, now)
      ensures status == QuotaExceeded && usedPercent == Some(100.0) && secondaryUsedPercent == old(secondaryUsedPercent)
      ensures blockedAt == Some(now) && cooldownUntil == Some(now + 120.0) && resetAt.Some?
      ensures profile == old(profile) && lastErrorAt == old(lastErrorAt) && errorCount == old(errorCount)
      ensures if StatedDeadline(e.resetsAt, e.resetsIn, now).Some?
              then now < resetAt.value <= now + 31622400.0 + 1.0
              else now >= 0.0 ==> now + 3599.0 < resetAt.value <= now + 3600.0
    {
      ResetInRange(e.resetsAt, e.resetsIn, now);
      status := QuotaExceeded;
      usedPercent := Some(100.0);
      blockedAt := Some(now);
      cooldownUntil := Some(now + QUOTA_COOLDOWN);
      var reset := ExtractResetAt(e.resetsAt, e.resetsIn, now);
      if reset.Some? {
        resetAt := Some(reset.value as real);
      } else {
        resetAt := Some(Truncated(now + 3600.0) as real);
      }
    }
  }
}
