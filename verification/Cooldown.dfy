/**
 A limited account over whole runs of selections: held until the later of its two deadlines, and not a moment longer.
 */
module Cooldown {
  import opened Basics
  import opened Accounts
  import opened SelectionProofs
  import opened SelectionOrder
  import opened Selection

  /**
   What may happen between a failure and a later selection: other selections, and updates of what selection only reads.
   */
  datatype Event = Selection(ctx: Ctx) | Update(profile: Profile)

  function After(a: Account, events: seq<Event>): Account
    decreases |events|
  {
    if events == [] then a
    else
      var last := events[|events| - 1];
      var before := After(a, events[..|events| - 1]);
      match last
      case Selection(ctx) => Settle(ctx, before).account
      case Update(profile) => before.(profile := profile)
  }

  predicate AllBefore(events: seq<Event>, deadline: real) {
    forall i | 0 <= i < |events| && events[i].Selection? :: events[i].ctx.now < deadline
  }

  function Later(x: real, y: real): real { if x >= y then x else y }

  function Deadline(a: Account): real
    requires a.resetAt.Some? && a.cooldownUntil.Some?
  {
    Later(a.resetAt.value, a.cooldownUntil.value)
  }

  predicate Failed(a: Account) {
    Limited(a) && Truthy(a.resetAt) && Truthy(a.cooldownUntil)
  }

  /** Both failure handlers leave an account that is held until a deadline after now. */
  lemma HandlersHold(a: Account, e: UpstreamError, now: real, backoff: real)
    requires now > 0.0 && backoff >= 0.0 && (e.retryAfter.Some? ==> e.retryAfter.value >= 0.0)
    ensures Failed(AfterRateLimit(a, e, now, backoff)) && Deadline(AfterRateLimit(a, e, now, backoff)) >= now
    ensures Failed(AfterQuotaExceeded(a, e, now)) && Deadline(AfterQuotaExceeded(a, e, now)) >= now + QUOTA_COOLDOWN
  {
    ResetInRange(e.resetsAt, e.resetsIn, now);
    if ExtractResetAt(e.resetsAt, e.resetsIn, now).None? {
      RateLimitDeadlineSurvives(a, e, now, backoff);
    }
  }

  predicate Held(a: Account, deadline: real) {
    && !HardBlocked(a) && deadline != 0.0
    && ((Limited(a) && a.resetAt == Some(deadline)) || a.cooldownUntil == Some(deadline))
    && (Limited(a) ==> Truthy(a.resetAt) && a.resetAt.value <= deadline)
    && (a.cooldownUntil.Some? ==> Truthy(a.cooldownUntil) && a.cooldownUntil.value <= deadline)
    && (a.errorCount >= 3 ==> a.cooldownUntil.Some?)
  }

  lemma SelectionKeepsHeld(ctx: Ctx, a: Account, deadline: real)
    requires Held(a, deadline) && ctx.now < deadline
    ensures Held(Settle(ctx, a).account, deadline)
    ensures !Bypasses(ctx, a) ==> Settle(ctx, a).verdict.Refused?
  {
  }

  lemma SelectionReleases(ctx: Ctx, a: Account, deadline: real)
    requires Held(a, deadline) && ctx.now >= deadline && !ctx.env.isFree(a.profile.plan)
    ensures Settle(ctx, a).verdict.Admitted?
  {
  }

  lemma {:induction false} RunKeepsHeld(a: Account, events: seq<Event>, deadline: real)
    requires Held(a, deadline) && AllBefore(events, deadline)
    ensures Held(After(a, events), deadline)
    decreases |events|
  {
    if events == [] {
    } else {
      RunKeepsHeld(a, events[..|events| - 1], deadline);
      var last := events[|events| - 1];
      if last.Selection? {
        SelectionKeepsHeld(last.ctx, After(a, events[..|events| - 1]), deadline);
      }
    }
  }

  /**
   Whatever selections lie between, bypassing or not, a later one that does not bypass quotas refuses the account
   exactly until the deadline.
   */
  lemma CooldownHonoured(a: Account, events: seq<Event>, ctx: Ctx)
    requires Failed(a) && AllBefore(events, Deadline(a))
    requires var b := After(a, events); !Bypasses(ctx, b) && !ctx.env.isFree(b.profile.plan)
    ensures Settle(ctx, After(a, events)).verdict.Refused? <==> ctx.now < Deadline(a)
    ensures ctx.now >= Deadline(a) ==> Settle(ctx, After(a, events)).verdict.Admitted?
  {
    RunKeepsHeld(a, events, Deadline(a));
    if ctx.now < Deadline(a) {
      SelectionKeepsHeld(ctx, After(a, events), Deadline(a));
    } else {
      SelectionReleases(ctx, After(a, events), Deadline(a));
    }
  }

  /** When the cooldown is the later deadline, not even a bypass lets the account through before it. */
  lemma CooldownBindsBypass(a: Account, events: seq<Event>, ctx: Ctx)
    requires Failed(a) && a.cooldownUntil.value >= a.resetAt.value && AllBefore(events, Deadline(a))
            && ctx.now < Deadline(a)
    ensures Settle(ctx, After(a, events)).verdict.Refused?
  {
    CooldownStays(a, events);
  }

  lemma {:induction false} CooldownStays(a: Account, events: seq<Event>)
    requires Failed(a) && AllBefore(events, a.cooldownUntil.value)
    ensures After(a, events).cooldownUntil == a.cooldownUntil
    decreases |events|
  {
    if events == [] {
    } else {
      CooldownStays(a, events[..|events| - 1]);
    }
  }

  /** So no later selection without a bypass returns the account before its deadline, whatever its strategy. */
  lemma NeverReturnedEarly(a: Account, events: seq<Event>, ctx: Ctx, accounts: seq<Account>, r: Account)
    requires Failed(a) && AllBefore(events, Deadline(a))
    requires After(a, events) in accounts && IdsIdentify(accounts) && !Bypasses(ctx, After(a, events))
    requires r in Selectable(ctx, accounts) && r.profile.id == After(a, events).profile.id
    ensures ctx.now >= Deadline(a)
  {
    SelectionSound(ctx, accounts, r);
    var b :| b in accounts && r == Settle(ctx, b).account && !Settle(ctx, b).verdict.Refused?;
    SettledId(ctx, b);
    assert b == After(a, events);
    RunKeepsHeld(a, events, Deadline(a));
    if ctx.now < Deadline(a) {
      SelectionKeepsHeld(ctx, b, Deadline(a));
    }
  }
}
