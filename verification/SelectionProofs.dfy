/** Soundness and completeness of selection, for every strategy. */
module SelectionProofs {
  import opened Accounts
  import opened SortKeys
  import opened Selection

  /******* Filters, minima and sorting *******/

  lemma {:induction false} KeepMembers(ctx: Ctx, test: Test, pool: seq<Account>, a: Account)
    ensures a in Keep(ctx, test, pool) <==> a in pool && Passes(ctx, test, a)
    decreases |pool|
  {
    if pool == [] {
    } else {
      KeepMembers(ctx, test, pool[..|pool| - 1], a);
      assert pool == pool[..|pool| - 1] + [pool[|pool| - 1]];
    }
  }

  lemma KeepAll(ctx: Ctx, test: Test, pool: seq<Account>)
    ensures forall a :: a in Keep(ctx, test, pool) <==> a in pool && Passes(ctx, test, a)
  {
    forall a
      ensures a in Keep(ctx, test, pool) <==> a in pool && Passes(ctx, test, a)
    {
      KeepMembers(ctx, test, pool, a);
    }
  }

  lemma KeepSome(ctx: Ctx, test: Test, pool: seq<Account>, a: Account)
    requires a in pool && Passes(ctx, test, a)
    ensures Keep(ctx, test, pool) != []
  {
    KeepMembers(ctx, test, pool, a);
  }

  ghost predicate Least(ctx: Ctx, rule: Rule, pool: seq<Account>, m: Account) {
    m in pool && forall a | a in pool :: Before(ctx, rule, m, a)
  }

  /** `min` returns a least element of its pool. */
  lemma MinByLeast(ctx: Ctx, rule: Rule, pool: seq<Account>)
    requires pool != []
    ensures Least(ctx, rule, pool, MinBy(ctx, rule, pool))
  {
    MinOfLeast(Order(ctx, rule), pool);
  }

  /******* Every choice is from its pool *******/

  ghost predicate Within(part: seq<Account>, pool: seq<Account>) { forall a | a in part :: a in pool }

  /** A non-empty part of its pool. */
  ghost predicate Picks(part: seq<Account>, pool: seq<Account>) { part != [] && Within(part, pool) }

  lemma {:induction false} LeastBucketAttained(ctx: Ctx, pool: seq<Account>)
    requires pool != []
    ensures exists a :: a in pool && ResetBucket(ctx, a) == LeastBucket(ctx, pool)
    decreases |pool|
  {
    if |pool| == 1 {
      assert ResetBucket(ctx, pool[0]) == LeastBucket(ctx, pool);
    } else {
      LeastBucketAttained(ctx, pool[..|pool| - 1]);
      assert pool[|pool| - 1] in pool;
    }
  }

  lemma {:induction false} LeastCostAttained(ctx: Ctx, pool: seq<Account>)
    requires pool != []
    ensures exists a :: a in pool && PlannerCost(ctx, a) == LeastCost(ctx, pool)
    decreases |pool|
  {
    if |pool| == 1 {
      assert PlannerCost(ctx, pool[0]) == LeastCost(ctx, pool);
    } else {
      LeastCostAttained(ctx, pool[..|pool| - 1]);
      assert pool[|pool| - 1] in pool;
    }
  }

  lemma CandidatesPick(ctx: Ctx, pool: seq<Account>)
    requires pool != []
    ensures Picks(Candidates(ctx, pool), pool)
  {
    if ctx.options.preferEarlierReset {
      LeastBucketAttained(ctx, pool);
      var a :| a in pool && ResetBucket(ctx, a) == LeastBucket(ctx, pool);
      KeepSome(ctx, BucketIs(LeastBucket(ctx, pool)), pool, a);
      KeepAll(ctx, BucketIs(LeastBucket(ctx, pool)), pool);
    }
  }

  lemma LowestCostPick(ctx: Ctx, pool: seq<Account>)
    requires pool != []
    ensures Picks(LowestCost(ctx, pool), pool)
  {
    if ctx.options.costs != map[] {
      LeastCostAttained(ctx, pool);
      var a :| a in pool && PlannerCost(ctx, a) == LeastCost(ctx, pool);
      KeepSome(ctx, CostIs(LeastCost(ctx, pool)), pool, a);
      KeepAll(ctx, CostIs(LeastCost(ctx, pool)), pool);
    }
  }

  lemma RetainedWithin(ctx: Ctx, pool: seq<Account>)
    ensures Within(Retained(ctx, pool), pool)
  {
    var best := BestScore(ctx, pool);
    if best > 0.0 {
      var heavy := Keep(ctx, HeavyEnough(best), pool);
      var sorted := Sort(ctx, Heaviest(best), heavy);
      SortPermutes(Order(ctx, Heaviest(best)), heavy);
      KeepAll(ctx, HeavyEnough(best), pool);
      forall a | a in sorted
        ensures a in pool
      {
        assert a in multiset(sorted);
      }
    }
  }

  lemma MinPicks(ctx: Ctx, rule: Rule, pool: seq<Account>)
    requires pool != []
    ensures Picks([MinBy(ctx, rule, pool)], pool)
  {
    MinByLeast(ctx, rule, pool);
  }

  lemma DrawnPicks(ctx: Ctx, pool: seq<Account>)
    requires pool != []
    ensures Picks(Drawn(ctx, pool), pool)
  {
    match ctx.options.strategy {
      case SingleAccount => MinPicks(ctx, ById, pool);
      case SequentialDrain => MinPicks(ctx, Drain, pool);
      case ResetDrain => MinPicks(ctx, ResetDrainRule, pool);
      case RoundRobin => MinPicks(ctx, RoundRobinRule, pool);
      case UsageWeighted => MinPicks(ctx, UsageRule(ctx.options), pool);
      case FillFirst =>
        CandidatesPick(ctx, pool);
        MinPicks(ctx, Fill, Candidates(ctx, pool));
      case CapacityWeighted => CapacityPicks(ctx, pool);
      case RelativeAvailability => RelativePicks(ctx, pool);
    }
  }

  lemma CapacityPicks(ctx: Ctx, pool: seq<Account>)
    requires pool != [] && ctx.options.strategy.CapacityWeighted?
    ensures Picks(Drawn(ctx, pool), pool)
  {
    CandidatesPick(ctx, pool);
    var candidates := Candidates(ctx, pool);
    LowestCostPick(ctx, candidates);
    MinPicks(ctx, CapacityProbe, candidates);
    MinPicks(ctx, Usage, LowestCost(ctx, candidates));
    KeepAll(ctx, HasCredits, LowestCost(ctx, candidates));
  }

  lemma RelativePicks(ctx: Ctx, pool: seq<Account>)
    requires pool != [] && ctx.options.strategy.RelativeAvailability?
    ensures Picks(Drawn(ctx, pool), pool)
  {
    LowestCostPick(ctx, pool);
    var cheapest := LowestCost(ctx, pool);
    MinPicks(ctx, Usage, cheapest);
    RetainedWithin(ctx, cheapest);
  }

  lemma HealthPoolPicks(ctx: Ctx, available: seq<Account>)
    requires available != []
    ensures Picks(HealthPool(ctx, available), available)
  {
    KeepAll(ctx, TierIs(HEALTHY), available);
    KeepAll(ctx, TierIs(PROBING), available);
    KeepAll(ctx, TierIs(DRAINING), available);
    KeepAll(ctx, IsDue, Keep(ctx, TierIs(PROBING), available));
    var due := DueProbes(ctx, available);
    if due != [] {
      MinPicks(ctx, OldestProbe, due);
    }
  }

  lemma PolicyPoolPicks(ctx: Ctx, pool: seq<Account>)
    requires pool != []
    ensures Picks(PolicyPool(ctx, pool), pool)
  {
    KeepAll(ctx, PolicyIs(BurnFirst), pool);
    KeepAll(ctx, PolicyIs(Normal), pool);
    KeepAll(ctx, PolicyIs(Preserve), pool);
  }

  /** From a non-empty pool something in it is chosen, unless only a due probe would do and there is none. */
  lemma ChoicesPick(ctx: Ctx, available: seq<Account>)
    ensures Within(Choices(ctx, available), available)
    ensures Choices(ctx, available) == [] <==>
              available == []
                  || (!TierBlind(ctx.options.strategy) && ctx.options.recoveryProbeOnly
                  && DueProbes(ctx, available) == [])
  {
    if available == [] {
    } else if TierBlind(ctx.options.strategy) {
      DrawnPicks(ctx, available);
    } else if ctx.options.recoveryProbeOnly && DueProbes(ctx, available) == [] {
    } else {
      HealthPoolPicks(ctx, available);
      var health := HealthPool(ctx, available);
      PolicyPoolPicks(ctx, health);
      DrawnPicks(ctx, PolicyPool(ctx, health));
    }
  }

  /** The strategies that respect health tiers choose from the health pool. */
  lemma ChoicesRespectHealth(ctx: Ctx, available: seq<Account>)
    requires available != [] && !TierBlind(ctx.options.strategy)
    ensures Within(Choices(ctx, available), HealthPool(ctx, available))
  {
    HealthPoolPicks(ctx, available);
    var health := HealthPool(ctx, available);
    PolicyPoolPicks(ctx, health);
    DrawnPicks(ctx, PolicyPool(ctx, health));
  }

  /** Opportunistic traffic keeps exactly the expendable accounts. */
  lemma OpportuneMembers(ctx: Ctx, available: seq<Account>, a: Account)
    ensures a in Opportune(ctx, available) <==>
            a in available && Expendable(ctx, a, available, PreserveCount(ctx, available))
  {
    var count := PreserveCount(ctx, available);
    KeepMembers(ctx, Burnable(BurnFirst, available, count), available, a);
    KeepMembers(ctx, Burnable(Normal, available, count), available, a);
    KeepMembers(ctx, Burnable(Preserve, available, count), available, a);
  }

  lemma ForTrafficWithin(ctx: Ctx, available: seq<Account>)
    ensures Within(ForTraffic(ctx, available), available)
  {
    forall a | a in ForTraffic(ctx, available)
      ensures a in available
    {
      OpportuneMembers(ctx, available, a);
    }
  }

  lemma EligibleMembers(ctx: Ctx, all: seq<Account>, a: Account)
    requires a in Eligible(ctx, all)
    ensures a in all
            && (Passes(ctx, IsAdmitted, a)
            || (Passes(ctx, IsBackingOff, a) && FallbackAllowed(ctx, all, Keep(ctx, IsBackingOff, all))))
  {
    var available, backoff := Keep(ctx, IsAdmitted, all), Keep(ctx, IsBackingOff, all);
    KeepAll(ctx, IsAdmitted, all);
    KeepAll(ctx, IsBackingOff, all);
    if available != [] {
      ForTrafficWithin(ctx, available);
    } else {
      MinPicks(ctx, Expiry, backoff);
      ForTrafficWithin(ctx, [MinBy(ctx, Expiry, backoff)]);
    }
  }

  /******* Soundness and completeness *******/

  lemma {:induction false} NormalisedAt(ctx: Ctx, accounts: seq<Account>, i: nat)
    requires i < |accounts|
    ensures Normalised(ctx, accounts)[i] == Settle(ctx, accounts[i]).account
    decreases |accounts|
  {
    if i >= |accounts| - 1 {
    } else {
      NormalisedAt(ctx, accounts[..|accounts| - 1], i);
    }
  }

  /** The input account behind a normalised one. */
  lemma Origin(ctx: Ctx, accounts: seq<Account>, r: Account) returns (a: Account)
    requires r in Normalised(ctx, accounts)
    ensures a in accounts && r == Settle(ctx, a).account
  {
    var i :| 0 <= i < |accounts| && Normalised(ctx, accounts)[i] == r;
    NormalisedAt(ctx, accounts, i);
    a := accounts[i];
  }

  lemma Image(ctx: Ctx, accounts: seq<Account>, a: Account)
    requires a in accounts
    ensures Settle(ctx, a).account in Normalised(ctx, accounts)
  {
    var i :| 0 <= i < |accounts| && accounts[i] == a;
    NormalisedAt(ctx, accounts, i);
  }

  /** `r` is what normalisation made of some input account, and it may serve. */
  ghost predicate Serves(ctx: Ctx, accounts: seq<Account>, r: Account) {
    && (exists a :: a in accounts && r == Settle(ctx, a).account && !Settle(ctx, a).verdict.Refused?)
    && !ctx.env.isFree(r.profile.plan) && r.status !in {Paused, Deactivated, ReauthRequired}
    && (r.cooldownUntil.Some? ==> r.cooldownUntil.value == 0.0)
    && (r.status in {RateLimited, QuotaExceeded} ==> Bypasses(ctx, r))
  }

  lemma SelectionSound(ctx: Ctx, accounts: seq<Account>, r: Account)
    requires r in Selectable(ctx, accounts)
    ensures Serves(ctx, accounts, r)
    ensures Settle(ctx, r).verdict.Backoff? ==>
            ctx.options.allowBackoffFallback && Keep(ctx, IsAdmitted, Normalised(ctx, accounts)) == []
  {
    var all := Normalised(ctx, accounts);
    ChoicesPick(ctx, Eligible(ctx, all));
    EligibleMembers(ctx, all, r);
    var a := Origin(ctx, accounts, r);
    SettleIdempotent(ctx, a);
    NotRefused(ctx, a);
    if Settle(ctx, r).verdict.Backoff? && Keep(ctx, IsAdmitted, all) != [] {
      ForTrafficWithin(ctx, Keep(ctx, IsAdmitted, all));
      KeepMembers(ctx, IsAdmitted, all, r);
    }
  }

  ghost predicate SomeVerdict(ctx: Ctx, accounts: seq<Account>, v: Verdict) {
    exists a :: a in accounts && Settle(ctx, a).verdict == v
  }

  lemma VerdictKept(ctx: Ctx, accounts: seq<Account>)
    ensures Keep(ctx, IsAdmitted, Normalised(ctx, accounts)) != [] <==> SomeVerdict(ctx, accounts, Admitted)
    ensures Keep(ctx, IsBackingOff, Normalised(ctx, accounts)) != [] <==> SomeVerdict(ctx, accounts, Backoff)
  {
    VerdictKeptBy(ctx, accounts, IsAdmitted, Admitted);
    VerdictKeptBy(ctx, accounts, IsBackingOff, Backoff);
  }

  lemma VerdictKeptBy(ctx: Ctx, accounts: seq<Account>, test: Test, v: Verdict)
    requires (test.IsAdmitted? && v.Admitted?) || (test.IsBackingOff? && v.Backoff?)
    ensures Keep(ctx, test, Normalised(ctx, accounts)) != [] <==> SomeVerdict(ctx, accounts, v)
  {
    var all := Normalised(ctx, accounts);
    var kept := Keep(ctx, test, all);
    if kept != [] {
      KeepMembers(ctx, test, all, kept[0]);
      var a := Origin(ctx, accounts, kept[0]);
      SettleIdempotent(ctx, a);
    }
    if a :| a in accounts && Settle(ctx, a).verdict == v {
      Image(ctx, accounts, a);
      SettleIdempotent(ctx, a);
      KeepSome(ctx, test, all, Settle(ctx, a).account);
    }
  }

  /** Account `i` of the input has this verdict. */
  predicate HasVerdict(ctx: Ctx, accounts: seq<Account>, i: int, v: Verdict) {
    0 <= i < |accounts| && Settle(ctx, accounts[i]).verdict == v
  }

  /** Account `j` is left with a status other than active, and no account with its id is in error backoff. */
  ghost predicate LeftBlocked(ctx: Ctx, accounts: seq<Account>, j: int) {
    && 0 <= j < |accounts| && Settle(ctx, accounts[j]).account.status != Active
    && forall i | HasVerdict(ctx, accounts, i, Backoff) :: accounts[i].profile.id != accounts[j].profile.id
  }

  /**
   Fallback is allowed, and two accounts are in error backoff, or one is and another is blocked for good or for now.
   */
  ghost predicate FallbackApplies(ctx: Ctx, accounts: seq<Account>) {
    && ctx.options.allowBackoffFallback
    && ((exists i, j :: i < j && HasVerdict(ctx, accounts, i, Backoff) && HasVerdict(ctx, accounts, j, Backoff))
        || ((exists i :: HasVerdict(ctx, accounts, i, Backoff)) && exists j :: LeftBlocked(ctx, accounts, j)))
  }

  ghost predicate PassesAt(ctx: Ctx, test: Test, pool: seq<Account>, i: int) {
    0 <= i < |pool| && Passes(ctx, test, pool[i])
  }

  lemma {:induction false} KeepTwo(ctx: Ctx, test: Test, pool: seq<Account>)
    ensures |Keep(ctx, test, pool)| > 0 <==> exists i :: PassesAt(ctx, test, pool, i)
    ensures |Keep(ctx, test, pool)| > 1 <==>
              exists i, j :: i < j && PassesAt(ctx, test, pool, i) && PassesAt(ctx, test, pool, j)
    decreases |pool|
  {
    if pool == [] {
    } else {
      var n, front := |pool| - 1, pool[..|pool| - 1];
      KeepTwo(ctx, test, front);
      assert forall i :: PassesAt(ctx, test, front, i) <==> PassesAt(ctx, test, pool, i) && i < n;
      assert PassesAt(ctx, test, pool, n) <==> Passes(ctx, test, pool[n]);
    }
  }

  lemma PassesAtIsVerdict(ctx: Ctx, accounts: seq<Account>, i: int)
    ensures PassesAt(ctx, IsBackingOff, Normalised(ctx, accounts), i) <==> HasVerdict(ctx, accounts, i, Backoff)
  {
    if 0 <= i < |accounts| {
      NormalisedAt(ctx, accounts, i);
      SettleIdempotent(ctx, accounts[i]);
    }
  }

  lemma SettledId(ctx: Ctx, a: Account)
    ensures Settle(ctx, a).account.profile == a.profile
  {
  }

  lemma BlockedIsObstruction(ctx: Ctx, accounts: seq<Account>, j: nat)
    requires j < |accounts|
    ensures var all := Normalised(ctx, accounts);
            LeftBlocked(ctx, accounts, j) <==> Obstructs(all[j], Keep(ctx, IsBackingOff, all))
  {
    var all := Normalised(ctx, accounts);
    var backoff := Keep(ctx, IsBackingOff, all);
    NormalisedAt(ctx, accounts, j);
    SettledId(ctx, accounts[j]);
    if LeftBlocked(ctx, accounts, j) {
      forall n | 0 <= n < |backoff|
        ensures backoff[n].profile.id != all[j].profile.id
      {
        KeepMembers(ctx, IsBackingOff, all, backoff[n]);
        var i :| 0 <= i < |all| && all[i] == backoff[n];
        NormalisedAt(ctx, accounts, i);
        SettledId(ctx, accounts[i]);
        PassesAtIsVerdict(ctx, accounts, i);
        assert HasVerdict(ctx, accounts, i, Backoff);
      }
    }
    if Obstructs(all[j], backoff) {
      forall i | HasVerdict(ctx, accounts, i, Backoff)
        ensures accounts[i].profile.id != accounts[j].profile.id
      {
        PassesAtIsVerdict(ctx, accounts, i);
        NormalisedAt(ctx, accounts, i);
        SettledId(ctx, accounts[i]);
        KeepMembers(ctx, IsBackingOff, all, all[i]);
        assert all[i] in backoff;
      }
    }
  }

  lemma FallbackExactly(ctx: Ctx, accounts: seq<Account>)
    ensures var all := Normalised(ctx, accounts);
            FallbackAllowed(ctx, all, Keep(ctx, IsBackingOff, all)) <==> FallbackApplies(ctx, accounts)
  {
    var all := Normalised(ctx, accounts);
    KeepTwo(ctx, IsBackingOff, all);
    forall i
      ensures PassesAt(ctx, IsBackingOff, all, i) <==> HasVerdict(ctx, accounts, i, Backoff)
    {
      PassesAtIsVerdict(ctx, accounts, i);
    }
    forall j: nat | j < |accounts|
      ensures LeftBlocked(ctx, accounts, j) <==> Obstructs(all[j], Keep(ctx, IsBackingOff, all))
    {
      BlockedIsObstruction(ctx, accounts, j);
    }
  }

  /** Foreground selection returns an account exactly when one passes all filters or the backoff fallback applies. */
  lemma SelectionComplete(ctx: Ctx, accounts: seq<Account>)
    requires ctx.options.traffic.Foreground? && (!ctx.options.recoveryProbeOnly || TierBlind(ctx.options.strategy))
    ensures Selectable(ctx, accounts) != [] <==>
              SomeVerdict(ctx, accounts, Admitted) || FallbackApplies(ctx, accounts)
  {
    ChoicesPick(ctx, Eligible(ctx, Normalised(ctx, accounts)));
    VerdictKept(ctx, accounts);
    FallbackExactly(ctx, accounts);
  }

  /** For any traffic: exactly when the eligible pool is not empty and, under a recovery probe, holds a due probe. */
  lemma SelectionReturns(ctx: Ctx, accounts: seq<Account>)
    ensures var pool := Eligible(ctx, Normalised(ctx, accounts));
            Selectable(ctx, accounts) != [] <==>
              pool != [] && (TierBlind(ctx.options.strategy) || !ctx.options.recoveryProbeOnly
                             || exists a :: a in pool && a.profile.healthTier == PROBING && ProbeDue(ctx, a))
  {
    var pool := Eligible(ctx, Normalised(ctx, accounts));
    ChoicesPick(ctx, pool);
    DueExists(ctx, pool);
  }

  lemma DueExists(ctx: Ctx, pool: seq<Account>)
    ensures DueProbes(ctx, pool) != [] <==> exists a :: a in pool && a.profile.healthTier == PROBING && ProbeDue(ctx, a)
  {
    var probing, due := Keep(ctx, TierIs(PROBING), pool), DueProbes(ctx, pool);
    if due != [] {
      KeepMembers(ctx, IsDue, probing, due[0]);
      KeepMembers(ctx, TierIs(PROBING), pool, due[0]);
    }
    if a :| a in pool && a.profile.healthTier == PROBING && ProbeDue(ctx, a) {
      KeepMembers(ctx, TierIs(PROBING), pool, a);
      KeepSome(ctx, IsDue, probing, a);
    }
  }

  /** A second selection at the same time, on the accounts as the first left them, has the same outcomes. */
  lemma SelectionIdempotent(ctx: Ctx, accounts: seq<Account>)
    ensures Normalised(ctx, Normalised(ctx, accounts)) == Normalised(ctx, accounts)
    ensures Selectable(ctx, Normalised(ctx, accounts)) == Selectable(ctx, accounts)
  {
    forall i | 0 <= i < |accounts|
      ensures Normalised(ctx, Normalised(ctx, accounts))[i] == Normalised(ctx, accounts)[i]
    {
      NormalisedAt(ctx, accounts, i);
      NormalisedAt(ctx, Normalised(ctx, accounts), i);
      SettleIdempotent(ctx, accounts[i]);
    }
  }

  /**
   Opportunistic traffic never takes the last reserve: the chosen account keeps more than 5% of both windows or leaves
   another active one.
   */
  lemma ReserveKept(ctx: Ctx, accounts: seq<Account>, r: Account)
    requires ctx.options.traffic.Opportunistic? && r in Selectable(ctx, accounts)
    ensures AboveEmergencyFloor(r) || exists other ::
            other in Normalised(ctx, accounts) && other.profile.id != r.profile.id && other.status.Active?
  {
    var all := Normalised(ctx, accounts);
    var available, backoff := Keep(ctx, IsAdmitted, all), Keep(ctx, IsBackingOff, all);
    ChoicesPick(ctx, Eligible(ctx, all));
    KeepAll(ctx, IsAdmitted, all);
    KeepAll(ctx, IsBackingOff, all);
    if available != [] {
      ReserveInPool(ctx, available, r);
    } else {
      MinPicks(ctx, Expiry, backoff);
      ReserveInPool(ctx, [MinBy(ctx, Expiry, backoff)], r);
    }
  }

  lemma ReserveInPool(ctx: Ctx, pool: seq<Account>, r: Account)
    requires r in Opportune(ctx, pool)
    ensures AboveEmergencyFloor(r) || exists other ::
            other in pool && other.profile.id != r.profile.id && other.status.Active?
  {
    OpportuneMembers(ctx, pool, r);
    if !RoutingPolicy(r).Preserve? && OtherUsable(ctx, r, pool, PreserveCount(ctx, pool)) {
      var i :| 0 <= i < |pool| && Usable(ctx, pool[i], r.profile.id, PreserveCount(ctx, pool));
      assert pool[i] in pool;
    }
  }
}
