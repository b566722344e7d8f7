/** The account selector of app/core/balancer/logic.py on account values. */
module Selection {
  import opened Basics
  import opened Accounts
  import opened SortKeys

  const DAY := 24 * 60 * 60
  const HOUR := 60 * 60
  const WEEK := 7 * DAY
  const UNKNOWN_RESET_DAYS := 10_000
  const PROBE_QUIET := 60.0
  const RECENT_ACTIVITY := 1800.0
  const MIN_WEIGHT := 0.1

  function Max(x: real, y: real): real { if x >= y then x else y }

  function Min(x: real, y: real): real { if x <= y then x else y }

  function OrElse<T>(x: Option<T>, y: Option<T>): Option<T> { if x.Some? then x else y }

  function OrZero(x: Option<real>): real { if x.Some? then x.value else 0.0 }

  /******* Facts about one account *******/

  function PlannerCost(ctx: Ctx, a: Account): real {
    if a.profile.id in ctx.options.costs then ctx.options.costs[a.profile.id] else 0.0
  }

  function RoutingPolicy(a: Account): Policy {
    if a.profile.routingPolicy.Other? then Normal else a.profile.routingPolicy
  }

  function PriorityPrimaryUsed(a: Account): real { OrZero(OrElse(a.profile.priorityUsedPercent, a.usedPercent)) }

  function PrioritySecondaryUsed(a: Account): real {
    var p := a.profile;
    if p.limitScopedUsage && p.prioritySecondaryUsedPercent.None? then PriorityPrimaryUsed(a)
    else
      var value := OrElse(p.prioritySecondaryUsedPercent, a.secondaryUsedPercent);
      if value.Some? then value.value else PriorityPrimaryUsed(a)
  }

  function RemainingSecondaryCredits(ctx: Ctx, a: Account): (r: real)
    ensures r >= 0.0
  {
    var stated := OrElse(a.profile.priorityCapacityCredits, a.profile.capacityCredits);
    if stated.Some? && stated.value <= 0.0 then 0.0
    else
      var capacity := if stated.Some? then stated.value else ctx.env.planCredits(a.profile.plan);
      Max(0.0, capacity * (1.0 - Min(PrioritySecondaryUsed(a), 100.0) / 100.0))
  }

  function ConfiguredCapacity(ctx: Ctx, a: Account): real {
    var c := a.profile.capacityCredits;
    if c.Some? && c.value > 0.0 then c.value else ctx.env.planCredits(a.profile.plan)
  }

  function ResetBucket(ctx: Ctx, a: Account): int {
    var weekly := OrElse(a.profile.priorityResetAt, a.profile.secondaryResetAt);
    var reset := if ctx.options.window.Primary? then OrElse(a.profile.primaryResetAt, weekly)
        else OrElse(weekly, a.profile.primaryResetAt);
    if reset.None? then UNKNOWN_RESET_DAYS * DAY
    else
      var left := Truncated(reset.value as real - ctx.now);
      var remaining := if left > 0 then left else 0;
      if ctx.options.window.Secondary? then remaining / DAY else remaining
  }

  /** None is the infinite timestamp of an unknown reset. */
  function WeeklyReset(ctx: Ctx, a: Account): Option<real> {
    if a.profile.secondaryResetAt.Some? && a.profile.secondaryResetAt.value as real > ctx.now
        then Some(a.profile.secondaryResetAt.value as real)
    else if a.resetAt.Some? && a.resetAt.value > ctx.now then a.resetAt
    else None
  }

  /** Seconds until the weekly reset, at least five minutes. */
  function DivisorSeconds(ctx: Ctx, a: Account): (r: real)
    ensures r > 0.0
  {
    var reset := OrElse(a.profile.priorityResetAt, a.profile.secondaryResetAt);
    var remaining := if reset.None? then WEEK as real else Max(0.0, reset.value as real - ctx.now);
    Max(remaining, 300.0)
  }

  function RawScore(ctx: Ctx, a: Account): (r: real)
    ensures r >= 0.0
  {
    RemainingSecondaryCredits(ctx, a) / DivisorSeconds(ctx, a)
  }

  function Weight(ctx: Ctx, a: Account, best: real): real
    requires best > 0.0
  {
    ctx.env.power(RawScore(ctx, a) / best)
  }

  predicate ProbeDue(ctx: Ctx, a: Account) {
    a.profile.lastSelectedAt.None? || ctx.now - a.profile.lastSelectedAt.value >= PROBE_QUIET
  }

  /******* Sort keys *******/

  type Positive = x: real | x > 0.0 witness 1.0

  /** The keys the selector minimises. */
  datatype Rule =
    | ById | Drain | ResetDrainRule | RoundRobinRule | Usage | UsageCost | PrimaryUsageCost | ResetFirst
        | PrimaryResetFirst
    | CapacityProbe | Fill | OldestProbe | Expiry | Heaviest(best: Positive)

  function Numbers(ctx: Ctx, rule: Rule, a: Account): Key {
    var cost, primary, secondary := PlannerCost(ctx, a), PriorityPrimaryUsed(a), PrioritySecondaryUsed(a);
    var last := OrZero(a.profile.lastSelectedAt);
    match rule
    case ById => []
    case Drain => [ConfiguredCapacity(ctx, a), ctx.env.digest(a.profile.id) as real]
    case ResetDrainRule =>
      var reset := WeeklyReset(ctx, a);
      var bucket := if reset.None? then UNKNOWN_RESET_DAYS else ((reset.value - ctx.now) / DAY as real).Floor;
      var used := OrZero(a.usedPercent);
      var weekly := OrZero(OrElse(a.secondaryUsedPercent, a.usedPercent));
      [bucket as real, -Max(0.0, 100.0 - used), -Max(0.0, 100.0 - weekly),
       if reset.None? then 1.0 else 0.0, OrZero(reset), ctx.env.digest(a.profile.id) as real]
    case RoundRobinRule => [cost, last, ctx.env.saltedDigest(a.profile.id) as real]
    case Usage => [secondary, primary, last]
    case UsageCost => [cost, secondary, primary, last]
    case PrimaryUsageCost => [cost, primary, secondary, last]
    case ResetFirst => [ResetBucket(ctx, a) as real, cost, secondary, primary, last]
    case PrimaryResetFirst => [ResetBucket(ctx, a) as real, cost, primary, secondary, last]
    case CapacityProbe => [cost, -RemainingSecondaryCredits(ctx, a), secondary, primary, last]
    case Fill => [-OrZero(a.usedPercent), -OrZero(a.secondaryUsedPercent)]
    case OldestProbe => if a.profile.lastSelectedAt.None? then [0.0, 0.0] else [1.0, last]
    case Expiry => [OrZero(a.lastErrorAt) + (if a.errorCount >= 3 then BackoffSeconds(a.errorCount) as real else 0.0)]
    case Heaviest(best) => [-Weight(ctx, a, best), -RawScore(ctx, a), secondary, primary, last]
  }

  /** The account id ends every key but two. */
  function Tail(rule: Rule, a: Account): Key {
    if rule.RoundRobinRule? || rule.Expiry? then [] else Codes(a.profile.id)
  }

  function KeyOf(ctx: Ctx, rule: Rule, a: Account): Key { Numbers(ctx, rule, a) + Tail(rule, a) }

  predicate Before(ctx: Ctx, rule: Rule, a: Account, b: Account) { Le(KeyOf(ctx, rule, a), KeyOf(ctx, rule, b)) }

  function Order(ctx: Ctx, rule: Rule): Account -> Key { a => KeyOf(ctx, rule, a) }

  function MinBy(ctx: Ctx, rule: Rule, pool: seq<Account>): Account
    requires pool != []
  {
    MinOf(Order(ctx, rule), pool)
  }

  function Sort(ctx: Ctx, rule: Rule, pool: seq<Account>): seq<Account> { SortBy(Order(ctx, rule), pool) }

  /******* Filters *******/

  datatype Test = IsAdmitted | IsBackingOff | TierIs(tier: int) | IsDue | PolicyIs(policy: Policy)
      | BucketIs(bucket: int) | CostIs(cost: real)
                | HasCredits | HeavyEnough(best: Positive)
                    | Burnable(which: Policy, available: seq<Account>, preserveCount: nat)

  predicate Passes(ctx: Ctx, test: Test, a: Account) {
    match test
    case IsAdmitted => Settle(ctx, a).verdict.Admitted?
    case IsBackingOff => Settle(ctx, a).verdict.Backoff?
    case TierIs(tier) => a.profile.healthTier == tier
    case IsDue => ProbeDue(ctx, a)
    case PolicyIs(policy) => RoutingPolicy(a) == policy
    case BucketIs(bucket) => ResetBucket(ctx, a) == bucket
    case CostIs(cost) => PlannerCost(ctx, a) == cost
    case HasCredits => RemainingSecondaryCredits(ctx, a) > 0.0
    case HeavyEnough(best) => Weight(ctx, a, best) >= MIN_WEIGHT
    case Burnable(which, available, preserveCount) =>
        RoutingPolicy(a) == which && Expendable(ctx, a, available, preserveCount)
  }

  function Keep(ctx: Ctx, test: Test, pool: seq<Account>): seq<Account> {
    if pool == [] then []
    else
      var rest := Keep(ctx, test, pool[..|pool| - 1]);
      if Passes(ctx, test, pool[|pool| - 1]) then rest + [pool[|pool| - 1]] else rest
  }

  function LeastBucket(ctx: Ctx, pool: seq<Account>): int
    requires pool != []
  {
    var last := ResetBucket(ctx, pool[|pool| - 1]);
    if |pool| == 1 then last
    else
      var rest := LeastBucket(ctx, pool[..|pool| - 1]);
      if rest <= last then rest else last
  }

  function LeastCost(ctx: Ctx, pool: seq<Account>): real
    requires pool != []
  {
    var last := PlannerCost(ctx, pool[|pool| - 1]);
    if |pool| == 1 then last else Min(LeastCost(ctx, pool[..|pool| - 1]), last)
  }

  function BestScore(ctx: Ctx, pool: seq<Account>): real {
    if pool == [] then 0.0 else Max(BestScore(ctx, pool[..|pool| - 1]), RawScore(ctx, pool[|pool| - 1]))
  }

  function EarlierReset(ctx: Ctx, pool: seq<Account>): seq<Account>
    requires pool != []
  {
    Keep(ctx, BucketIs(LeastBucket(ctx, pool)), pool)
  }

  function LowestCost(ctx: Ctx, pool: seq<Account>): seq<Account>
    requires pool != []
  {
    if ctx.options.costs == map[] then pool else Keep(ctx, CostIs(LeastCost(ctx, pool)), pool)
  }

  /******* Opportunistic traffic *******/

  function UsedPct(a: Account, weekly: bool): Option<real> {
    if weekly then OrElse(a.secondaryUsedPercent, a.usedPercent) else a.usedPercent
  }

  function RemainingPct(a: Account, weekly: bool): Option<real> {
    var used := UsedPct(a, weekly);
    if used.None? then None else Some(Max(0.0, 100.0 - Min(100.0, used.value)))
  }

  predicate RecentlyActive(ctx: Ctx, a: Account) {
    a.profile.lastSelectedAt.Some? && ctx.now - a.profile.lastSelectedAt.value <= RECENT_ACTIVITY
  }

  /** Seconds until the weekly reset. */
  function WeekLeft(ctx: Ctx, a: Account): real
    requires a.profile.secondaryResetAt.Some?
  {
    Max(0.0, a.profile.secondaryResetAt.value as real - ctx.now)
  }

  /** More than five points less used than the elapsed part of the week would allow. */
  predicate BehindPace(ctx: Ctx, a: Account)
    requires a.profile.secondaryResetAt.Some? && UsedPct(a, true).Some?
  {
    var elapsed := Max(0.0, WEEK as real - WeekLeft(ctx, a));
    UsedPct(a, true).value + 5.0 < Min(100.0, elapsed / WEEK as real * 100.0)
  }

  function WeeklyPaceFloor(ctx: Ctx, a: Account): real {
    if a.profile.secondaryResetAt.None? || UsedPct(a, true).None? then 100.0
    else
      var remaining, behind := WeekLeft(ctx, a), BehindPace(ctx, a);
      var pace := if remaining <= 6.0 * HOUR as real && behind then 0.0
                  else if remaining <= DAY as real && behind then 2.0
                  else if behind then 5.0
                  else 15.0;
      Max(5.0, if RecentlyActive(ctx, a) then Max(pace, 25.0) else pace)
  }

  function ShortWindowFloor(ctx: Ctx, a: Account, preserveCount: nat): real {
    if a.resetAt.None? then 100.0
    else
      var remaining := Max(0.0, a.resetAt.value - ctx.now);
      var base := if remaining > HOUR as real then 20.0 else 10.0;
      var active := if RecentlyActive(ctx, a) then Max(base, 30.0) else base;
      if preserveCount <= 1 then Max(active, 25.0) else active
  }

  predicate PreserveAllows(ctx: Ctx, a: Account, preserveCount: nat) {
    var weekly, short := RemainingPct(a, true), RemainingPct(a, false);
    && weekly.Some? && short.Some? && a.profile.secondaryResetAt.Some? && a.resetAt.Some?
    && weekly.value > WeeklyPaceFloor(ctx, a) && short.value > ShortWindowFloor(ctx, a, preserveCount)
  }

  function PreserveCount(ctx: Ctx, available: seq<Account>): nat { |Keep(ctx, PolicyIs(Preserve), available)| }

  /** An account other than `id` that foreground traffic could still use. */
  predicate Usable(ctx: Ctx, other: Account, id: string, preserveCount: nat) {
    && other.profile.id != id && other.status.Active?
    && (RoutingPolicy(other).Preserve? ==> PreserveAllows(ctx, other, preserveCount))
  }

  predicate OtherUsable(ctx: Ctx, a: Account, available: seq<Account>, preserveCount: nat) {
    exists i :: 0 <= i < |available| && Usable(ctx, available[i], a.profile.id, preserveCount)
  }

  predicate AboveEmergencyFloor(a: Account) {
    var short, weekly := RemainingPct(a, false), RemainingPct(a, true);
    short.Some? && weekly.Some? && short.value > 5.0 && weekly.value > 5.0
  }

  predicate Expendable(ctx: Ctx, a: Account, available: seq<Account>, preserveCount: nat) {
    if RoutingPolicy(a).Preserve? then PreserveAllows(ctx, a, preserveCount)
    else OtherUsable(ctx, a, available, preserveCount) || AboveEmergencyFloor(a)
  }

  /** What opportunistic traffic may burn, the most expendable policy first. */
  function Opportune(ctx: Ctx, available: seq<Account>): seq<Account> {
    var count := PreserveCount(ctx, available);
    Keep(ctx, Burnable(BurnFirst, available, count), available)
        + Keep(ctx, Burnable(Normal, available, count), available)
    + Keep(ctx, Burnable(Preserve, available, count), available)
  }

  method FilterOpportunisticCandidates(ctx: Ctx, available: seq<Account>) returns (r: seq<Account>)
    ensures r == Opportune(ctx, available)
  {
    var burnFirst: seq<Account>, normal: seq<Account>, preserve: seq<Account> := [], [], [];
    var preserveCount := PreserveCount(ctx, available);
    for n := 0 to |available|
      invariant burnFirst == Keep(ctx, Burnable(BurnFirst, available, preserveCount), available[..n])
      invariant normal == Keep(ctx, Burnable(Normal, available, preserveCount), available[..n])
      invariant preserve == Keep(ctx, Burnable(Preserve, available, preserveCount), available[..n])
    {
      var a := available[n];
      assert available[..n + 1][..n] == available[..n] && available[..n + 1][n] == a;
      var policy := RoutingPolicy(a);
      if policy.BurnFirst? {
        if OtherUsable(ctx, a, available, preserveCount) || AboveEmergencyFloor(a) {
          burnFirst := burnFirst + [a];
        }
      } else if policy.Preserve? {
        if PreserveAllows(ctx, a, preserveCount) {
          preserve := preserve + [a];
        }
      } else {
        if OtherUsable(ctx, a, available, preserveCount) || AboveEmergencyFloor(a) {
          normal := normal + [a];
        }
      }
    }
    assert available[..|available|] == available;
    r := burnFirst + normal + preserve;
  }

  /******* Strategies *******/

  /** The retained relative-availability candidates, heaviest first. */
  function Retained(ctx: Ctx, pool: seq<Account>): seq<Account> {
    var best := BestScore(ctx, pool);
    if best <= 0.0 then []
    else
      var sorted := Sort(ctx, Heaviest(best), Keep(ctx, HeavyEnough(best), pool));
      var k := if ctx.options.topK > 1 then ctx.options.topK else 1;
      if k < |sorted| then sorted[..k] else sorted
  }

  function Candidates(ctx: Ctx, pool: seq<Account>): seq<Account>
    requires pool != []
  {
    if ctx.options.preferEarlierReset then EarlierReset(ctx, pool) else pool
  }

  function UsageRule(o: Options): Rule {
    if o.primaryFirst then
      if o.preferEarlierReset then PrimaryResetFirst else PrimaryUsageCost
    else
      if o.preferEarlierReset then ResetFirst else UsageCost
  }

  /** The accounts a strategy may return from its pool: one, except for the two random draws. */
  function Drawn(ctx: Ctx, pool: seq<Account>): seq<Account>
    requires pool != []
  {
    match ctx.options.strategy
    case SingleAccount => [MinBy(ctx, ById, pool)]
    case SequentialDrain => [MinBy(ctx, Drain, pool)]
    case ResetDrain => [MinBy(ctx, ResetDrainRule, pool)]
    case RoundRobin => [MinBy(ctx, RoundRobinRule, pool)]
    case CapacityWeighted =>
      var candidates := Candidates(ctx, pool);
      if candidates == [] then []
      else if ctx.options.deterministicProbe then [MinBy(ctx, CapacityProbe, candidates)]
      else
        var cheapest := LowestCost(ctx, candidates);
        if cheapest == [] then []
        else
          var credited := Keep(ctx, HasCredits, cheapest);
          if credited == [] then [MinBy(ctx, Usage, cheapest)] else credited
    case RelativeAvailability =>
      var cheapest := LowestCost(ctx, pool);
      if cheapest == [] then []
      else
        var retained := Retained(ctx, cheapest);
        if retained == [] then [MinBy(ctx, Usage, cheapest)]
        else if ctx.options.deterministicProbe then [retained[0]]
        else retained
    case FillFirst =>
      var candidates := Candidates(ctx, pool);
      if candidates == [] then [] else [MinBy(ctx, Fill, candidates)]
    case UsageWeighted => [MinBy(ctx, UsageRule(ctx.options), pool)]
  }

  predicate TierBlind(s: Strategy) { s.SingleAccount? || s.SequentialDrain? || s.ResetDrain? }

  function Ladder(first: seq<Account>, second: seq<Account>, third: seq<Account>, last: seq<Account>): seq<Account> {
    if first != [] then first else if second != [] then second else if third != [] then third else last
  }

  function DueProbes(ctx: Ctx, available: seq<Account>): seq<Account> {
    Keep(ctx, IsDue, Keep(ctx, TierIs(PROBING), available))
  }

  /** The pool by health tier; a due probe goes first while a healthy account exists. */
  function HealthPool(ctx: Ctx, available: seq<Account>): seq<Account> {
    var healthy := Keep(ctx, TierIs(HEALTHY), available);
    var due := DueProbes(ctx, available);
    if due != [] && (healthy != [] || ctx.options.recoveryProbeOnly) then [MinBy(ctx, OldestProbe, due)]
    else Ladder(healthy, Keep(ctx, TierIs(PROBING), available), Keep(ctx, TierIs(DRAINING), available), available)
  }

  function PolicyPool(ctx: Ctx, pool: seq<Account>): seq<Account> {
    Ladder(Keep(ctx, PolicyIs(BurnFirst), pool), Keep(ctx, PolicyIs(Normal), pool),
        Keep(ctx, PolicyIs(Preserve), pool), pool)
  }

  /** The accounts that may be returned from a non-empty eligible pool. */
  function Choices(ctx: Ctx, available: seq<Account>): seq<Account> {
    if available == [] then []
    else if TierBlind(ctx.options.strategy) then Drawn(ctx, available)
    else if ctx.options.recoveryProbeOnly && DueProbes(ctx, available) == [] then []
    else
      var pool := PolicyPool(ctx, HealthPool(ctx, available));
      if pool == [] then [] else Drawn(ctx, pool)
  }

  /******* The whole selection *******/

  /** The accounts as one selection leaves them. */
  function Normalised(ctx: Ctx, accounts: seq<Account>): (r: seq<Account>)
    ensures |r| == |accounts|
  {
    if accounts == [] then []
    else Normalised(ctx, accounts[..|accounts| - 1]) + [Settle(ctx, accounts[|accounts| - 1]).account]
  }

  predicate Obstructs(a: Account, backoff: seq<Account>) {
    a.status != Active && forall i | 0 <= i < |backoff| :: backoff[i].profile.id != a.profile.id
  }

  predicate FallbackAllowed(ctx: Ctx, all: seq<Account>, backoff: seq<Account>) {
    && ctx.options.allowBackoffFallback && backoff != []
    && (|backoff| > 1 || exists i :: 0 <= i < |all| && Obstructs(all[i], backoff))
  }

  function ForTraffic(ctx: Ctx, available: seq<Account>): seq<Account> {
    if ctx.options.traffic.Opportunistic? then Opportune(ctx, available) else available
  }

  /** The pool the strategies choose from, given the normalised accounts. */
  function Eligible(ctx: Ctx, all: seq<Account>): seq<Account> {
    var available, backoff := Keep(ctx, IsAdmitted, all), Keep(ctx, IsBackingOff, all);
    if available != [] then ForTraffic(ctx, available)
    else if FallbackAllowed(ctx, all, backoff) then ForTraffic(ctx, [MinBy(ctx, Expiry, backoff)])
    else []
  }

  /** Every account a selection over `accounts` may return. */
  function Selectable(ctx: Ctx, accounts: seq<Account>): seq<Account> {
    Choices(ctx, Eligible(ctx, Normalised(ctx, accounts)))
  }
}
