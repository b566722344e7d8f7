/** What the selector reads off one account, stated in the account's own fields and in numbers. */
module AccountFacts {
  import opened Basics
  import opened Accounts
  import opened Selection
  import opened SelectionProofs

  /******* Usage, capacity and credits *******/

  /** The planner's cost of an account, nothing if it has none. */
  lemma CostFacts(ctx: Ctx, a: Account)
    ensures PlannerCost(ctx, a) == if a.profile.id in ctx.options.costs.Keys then ctx.options.costs[a.profile.id]
            else 0.0
  {
  }

  /** Short-window usage: the priority figure, else the plain one, else nothing. */
  lemma PrimaryUsedFacts(a: Account)
    ensures match a.profile.priorityUsedPercent
            case Some(x) => PriorityPrimaryUsed(a) == x
            case None =>
              match a.usedPercent
              case Some(x) => PriorityPrimaryUsed(a) == x
              case None => PriorityPrimaryUsed(a) == 0.0
  {
  }

  /**
   Weekly usage: the priority figure, else the plain one unless usage is scoped to a limit, else the short window's.
   */
  lemma SecondaryUsedFacts(a: Account)
    ensures match a.profile.prioritySecondaryUsedPercent
            case Some(x) => PrioritySecondaryUsed(a) == x
            case None =>
              if !a.profile.limitScopedUsage && a.secondaryUsedPercent.Some?
              then PrioritySecondaryUsed(a) == a.secondaryUsedPercent.value
              else PrioritySecondaryUsed(a) == PriorityPrimaryUsed(a)
  {
  }

  /** A positive stated capacity counts, otherwise the plan's. */
  lemma CapacityFacts(ctx: Ctx, a: Account)
    ensures match a.profile.capacityCredits
            case Some(c) => ConfiguredCapacity(ctx, a) == if 0.0 < c then c else ctx.env.planCredits(a.profile.plan)
            case None => ConfiguredCapacity(ctx, a) == ctx.env.planCredits(a.profile.plan)
  {
  }

  /** The weekly capacity the credits are a part of. */
  function WeeklyCapacity(ctx: Ctx, a: Account): real {
    match a.profile.priorityCapacityCredits
    case Some(c) => c
    case None =>
      match a.profile.capacityCredits
      case Some(c) => c
      case None => ctx.env.planCredits(a.profile.plan)
  }

  /** Credits are the unused percentage of the weekly capacity, none once it is used up. */
  lemma CreditsFacts(ctx: Ctx, a: Account)
    ensures var c, used, credits := WeeklyCapacity(ctx, a), PrioritySecondaryUsed(a), RemainingSecondaryCredits(ctx, a);
            if 0.0 < c && used < 100.0 then 100.0 * credits == c * (100.0 - used) else credits == 0.0
  {
    UnusedPart(WeeklyCapacity(ctx, a), PrioritySecondaryUsed(a));
  }

  lemma UnusedPart(c: real, used: real)
    ensures var credits := Max(0.0, c * (1.0 - Min(used, 100.0) / 100.0));
            if 0.0 < c && used < 100.0 then 100.0 * credits == c * (100.0 - used) else credits == 0.0
  {
    var part := 1.0 - Min(used, 100.0) / 100.0;
    if 0.0 < c && used < 100.0 {
      assert 100.0 * part == 100.0 - used;
      Positive(c, part);
      Regroup(c, part);
    } else if 0.0 < c {
      assert part == 0.0;
    } else {
      NotPositive(c, part);
    }
  }

  lemma Regroup(x: real, y: real)
    ensures 100.0 * (x * y) == x * (100.0 * y)
  {
  }

  lemma Positive(x: real, y: real)
    requires x > 0.0 && y > 0.0
    ensures x * y > 0.0
  {
  }

  lemma NotPositive(x: real, y: real)
    requires x <= 0.0 && y >= 0.0
    ensures x * y <= 0.0
  {
  }

  /******* Resets *******/

  /** The weekly reset that counts, if it is known. */
  function WeeklyResetField(a: Account): Option<int> {
    match a.profile.priorityResetAt
    case Some(t) => Some(t)
    case None => a.profile.secondaryResetAt
  }

  /** The divisor of the score: the seconds to the weekly reset, at least 300, a week if it is unknown. */
  lemma DivisorFacts(ctx: Ctx, a: Account)
    ensures match WeeklyResetField(a)
            case Some(t) =>
              DivisorSeconds(ctx, a) == if t as real - ctx.now >= 300.0 then t as real - ctx.now else 300.0
            case None => DivisorSeconds(ctx, a) == 604800.0
  {
  }

  /** The score is credits per second. */
  lemma ScoreFacts(ctx: Ctx, a: Account)
    ensures RawScore(ctx, a) * DivisorSeconds(ctx, a) == RemainingSecondaryCredits(ctx, a)
  {
  }

  /** The reset the preference looks at: of the preferred window, else of the other. */
  function PreferredReset(ctx: Ctx, a: Account): Option<int> {
    match ctx.options.window
    case Primary => if a.profile.primaryResetAt.Some? then a.profile.primaryResetAt else WeeklyResetField(a)
    case Secondary => if WeeklyResetField(a).Some? then WeeklyResetField(a) else a.profile.primaryResetAt
  }

  /** The bucket: whole seconds or whole days to that reset, none once it has passed, and later than all if unknown. */
  lemma ResetBucketFacts(ctx: Ctx, a: Account)
    ensures var bucket, unit := ResetBucket(ctx, a), if ctx.options.window.Primary? then 1.0 else 86400.0;
            match PreferredReset(ctx, a)
            case None => bucket == 864000000
            case Some(t) =>
              if t as real <= ctx.now then bucket == 0
              else bucket >= 0 && unit * bucket as real <= t as real - ctx.now < unit * (bucket + 1) as real
  {
    if PreferredReset(ctx, a).Some? {
      var left := PreferredReset(ctx, a).value as real - ctx.now;
      if left > 0.0 {
        WholeDays(left, left.Floor / 86400);
      } else {
        assert Ceil(left) <= 0 by {
          CeilSpec(left);
        }
      }
    }
  }

  lemma WholeDays(left: real, days: int)
    requires left > 0.0 && days == left.Floor / 86400
    ensures days >= 0 && 86400.0 * days as real <= left < 86400.0 * (days + 1) as real
  {
    assert 86400 * days <= left.Floor < 86400 * (days + 1);
    assert (86400 * days) as real == 86400.0 * days as real;
    assert (86400 * (days + 1)) as real == 86400.0 * (days + 1) as real;
  }

  /** The reset `reset_drain` looks at: the weekly one if it lies ahead, else the short window's if that does. */
  lemma WeeklyResetFacts(ctx: Ctx, a: Account)
    ensures var weekly, short := a.profile.secondaryResetAt, a.resetAt;
            if weekly.Some? && ctx.now < weekly.value as real then WeeklyReset(ctx, a) == Some(weekly.value as real)
            else if short.Some? && ctx.now < short.value then WeeklyReset(ctx, a) == short
            else WeeklyReset(ctx, a) == None
  {
  }

  /** A probing account is due if it was never selected, or not for a minute. */
  lemma ProbeDueFacts(ctx: Ctx, a: Account)
    ensures ProbeDue(ctx, a) <==>
              (a.profile.lastSelectedAt.Some? ==> a.profile.lastSelectedAt.value + 60.0 <= ctx.now)
  {
  }

  /******* Opportunistic floors *******/

  /** Used percentages as the floors see them: the weekly figure falls back to the short window's. */
  predicate UsedBelow(a: Account, weekly: bool, bound: real) {
    if weekly && a.secondaryUsedPercent.Some? then a.secondaryUsedPercent.value < bound
    else a.usedPercent.Some? && a.usedPercent.value < bound
  }

  predicate ActiveLately(ctx: Ctx, a: Account) {
    a.profile.lastSelectedAt.Some? && ctx.now <= a.profile.lastSelectedAt.value + 1800.0
  }

  lemma RemainingAbove(a: Account, weekly: bool, floor: real)
    requires 0.0 <= floor
    ensures RemainingPct(a, weekly).Some? && RemainingPct(a, weekly).value > floor <==>
            UsedBelow(a, weekly, 100.0 - floor)
  {
  }

  /** Not more than five points behind the elapsed part of the week. */
  predicate OnPace(ctx: Ctx, a: Account, used: real, reset: int) {
    var left := if reset as real > ctx.now then reset as real - ctx.now else 0.0;
    used >= -5.0 && (left >= 604800.0 - 6048.0 * (used + 5.0) || used >= 95.0)
  }

  lemma PaceFacts(ctx: Ctx, a: Account)
    requires a.profile.secondaryResetAt.Some? && UsedPct(a, true).Some?
    ensures BehindPace(ctx, a) <==> !OnPace(ctx, a, UsedPct(a, true).value, a.profile.secondaryResetAt.value)
  {
  }

  /**
   The weekly floor is 25 for an account active lately, else 5 if it is behind pace, else 15. The smaller steps for the
   last day and the last six hours never show, because the floor is never below 5.
   */
  lemma WeeklyFloorFacts(ctx: Ctx, a: Account)
    ensures if a.profile.secondaryResetAt.None? || UsedPct(a, true).None? then WeeklyPaceFloor(ctx, a) == 100.0
            else WeeklyPaceFloor(ctx, a) ==
                   if ActiveLately(ctx, a) then 25.0 else if BehindPace(ctx, a) then 5.0 else 15.0
  {
  }

  /** The short-window floor: 30 for an account active lately, else 25 for the only preserved one, else 20 or 10. */
  lemma ShortFloorFacts(ctx: Ctx, a: Account, preserveCount: nat)
    ensures match a.resetAt
            case None => ShortWindowFloor(ctx, a, preserveCount) == 100.0
            case Some(t) =>
              ShortWindowFloor(ctx, a, preserveCount) ==
                if ActiveLately(ctx, a) then 30.0
                else if preserveCount <= 1 then 25.0
                else if t - ctx.now > 3600.0 then 20.0
                else 10.0
  {
  }

  /** Exactly when a preserved account may be burned. */
  lemma PreserveExactly(ctx: Ctx, a: Account, preserveCount: nat)
    ensures PreserveAllows(ctx, a, preserveCount) <==>
              && a.profile.secondaryResetAt.Some? && a.resetAt.Some?
              && UsedBelow(a, true, 100.0 - WeeklyPaceFloor(ctx, a))
              && UsedBelow(a, false, 100.0 - ShortWindowFloor(ctx, a, preserveCount))
  {
    RemainingAbove(a, true, WeeklyPaceFloor(ctx, a));
    RemainingAbove(a, false, ShortWindowFloor(ctx, a, preserveCount));
  }

  /** Above the emergency floor: less than 95% of both windows used. */
  lemma EmergencyExactly(a: Account)
    ensures AboveEmergencyFloor(a) <==> UsedBelow(a, false, 95.0) && UsedBelow(a, true, 95.0)
  {
    RemainingAbove(a, false, 5.0);
    RemainingAbove(a, true, 5.0);
  }

  /** An account without a known policy counts as normal. */
  lemma PolicyFacts(a: Account)
    ensures RoutingPolicy(a) == BurnFirst <==> a.profile.routingPolicy == BurnFirst
    ensures RoutingPolicy(a) == Preserve <==> a.profile.routingPolicy == Preserve
    ensures RoutingPolicy(a) == Normal <==> a.profile.routingPolicy in {Normal, Other}
  {
  }

  /**
   Exactly which accounts opportunistic traffic may burn: preserved ones above their floors; others if another active
   account stays usable (a preserved one only above its floors), or if less than 95% of both windows is used.
   */
  lemma BurnExactly(ctx: Ctx, available: seq<Account>, a: Account)
    ensures var count := |Keep(ctx, PolicyIs(Preserve), available)|;
            a in Opportune(ctx, available) <==>
              && a in available
              && if a.profile.routingPolicy == Preserve then PreserveAllows(ctx, a, count)
                 else
                   || (UsedBelow(a, false, 95.0) && UsedBelow(a, true, 95.0))
                   || exists other :: other in available && OtherCapacity(ctx, other, a.profile.id, count)
  {
    var count := PreserveCount(ctx, available);
    OpportuneMembers(ctx, available, a);
    EmergencyExactly(a);
    PolicyFacts(a);
    if other :| other in available && OtherCapacity(ctx, other, a.profile.id, count) {
      var i :| 0 <= i < |available| && available[i] == other;
      PolicyFacts(other);
      assert Usable(ctx, available[i], a.profile.id, count);
    }
    if i :| 0 <= i < |available| && Usable(ctx, available[i], a.profile.id, count) {
      PolicyFacts(available[i]);
      assert available[i] in available && OtherCapacity(ctx, available[i], a.profile.id, count);
    }
  }

  predicate OtherCapacity(ctx: Ctx, other: Account, id: string, preserveCount: nat) {
    && other.profile.id != id && other.status == Active
    && (other.profile.routingPolicy == Preserve ==> PreserveAllows(ctx, other, preserveCount))
  }
}
