/** What each strategy's choice means, in terms of the accounts it was chosen from. */
module Strategies {
  import opened Basics
  import opened Accounts
  import opened SortKeys
  import opened Selection
  import opened SelectionProofs
  import opened SelectionOrder
  import opened RelativeAvailabilityPruning

  /** Where two keys agree before position `k`, the smaller key is no larger at `k`. */
  lemma {:induction false} LeAt(a: Key, b: Key, k: nat)
    requires Le(a, b) && k < |a| && k < |b| && forall i | 0 <= i < k :: a[i] == b[i]
    ensures a[k] <= b[k]
    decreases k
  {
    if k == 0 {
    } else {
      assert a[1..][k - 1] == a[k] && b[1..][k - 1] == b[k];
      LeAt(a[1..], b[1..], k - 1);
    }
  }

  /** Of two lists of quantities, the first position where they differ favours `x` with the smaller value. */
  ghost predicate Ranks(x: seq<real>, y: seq<real>) {
    |x| == |y| && forall k | 0 <= k < |x| && Agree(x, y, k) :: x[k] <= y[k]
  }

  ghost predicate Agree(x: seq<real>, y: seq<real>, k: nat)
    requires k <= |x| && k <= |y|
  {
    forall i | 0 <= i < k :: x[i] == y[i]
  }

  /** `r` ranks before `b` by these quantities, and by id if they all agree. */
  ghost predicate RanksWithId(x: seq<real>, y: seq<real>, r: Account, b: Account) {
    Ranks(x, y) && (x == y ==> Le(Codes(r.profile.id), Codes(b.profile.id)))
  }

  lemma LeRanks(x: Key, y: Key)
    requires |x| == |y| && Le(x, y)
    ensures Ranks(x, y)
  {
    forall k | 0 <= k < |x| && Agree(x, y, k)
      ensures x[k] <= y[k]
    {
      LeAt(x, y, k);
    }
  }

  lemma {:induction false} LeTail(x: Key, s: Key, t: Key)
    requires Le(x + s, x + t)
    ensures Le(s, t)
    decreases |x|
  {
    if x == [] {
      assert x + s == s && x + t == t;
    } else {
      assert (x + s)[1..] == x[1..] + s && (x + t)[1..] == x[1..] + t;
      LeTail(x[1..], s, t);
    }
  }

  lemma BeforeRanks(ctx: Ctx, rule: Rule, a: Account, b: Account)
    requires Before(ctx, rule, a, b)
    ensures Ranks(Numbers(ctx, rule, a), Numbers(ctx, rule, b))
    ensures Numbers(ctx, rule, a) == Numbers(ctx, rule, b) ==> Le(Tail(rule, a), Tail(rule, b))
  {
    var x, y := Numbers(ctx, rule, a), Numbers(ctx, rule, b);
    assert |x| == |y|;
    LeNumbersFirst(x, y, Tail(rule, a), Tail(rule, b));
    LeRanks(x, y);
    if x == y {
      LeTail(x, Tail(rule, a), Tail(rule, b));
    }
  }

  lemma MinRanks(ctx: Ctx, rule: Rule, pool: seq<Account>, b: Account)
    requires b in pool
    ensures var r := MinBy(ctx, rule, pool);
            && Ranks(Numbers(ctx, rule, r), Numbers(ctx, rule, b))
            && (Numbers(ctx, rule, r) == Numbers(ctx, rule, b) ==> Le(Tail(rule, r), Tail(rule, b)))
  {
    MinByLeast(ctx, rule, pool);
    BeforeRanks(ctx, rule, MinBy(ctx, rule, pool), b);
  }

  /** The least account of a pool, by quantities that are its key's numbers. */
  lemma LeastRanks(ctx: Ctx, rule: Rule, pool: seq<Account>, r: Account, b: Account, x: seq<real>, y: seq<real>)
    requires b in pool && r == MinBy(ctx, rule, pool) && x == Numbers(ctx, rule, r) && y == Numbers(ctx, rule, b)
    ensures Ranks(x, y) && (!rule.RoundRobinRule? && !rule.Expiry? ==> RanksWithId(x, y, r, b))
  {
    MinRanks(ctx, rule, pool, b);
  }

  /******* What is returned, against the accounts it was chosen from *******/

  /** The accounts a selection leaves to its strategy, after filters, fallback, tiers and policies. */
  function StrategyPool(ctx: Ctx, accounts: seq<Account>): seq<Account> {
    var eligible := Eligible(ctx, Normalised(ctx, accounts));
    if TierBlind(ctx.options.strategy) then eligible else PolicyPool(ctx, HealthPool(ctx, eligible))
  }

  lemma SelectableIsDrawn(ctx: Ctx, accounts: seq<Account>)
    requires Selectable(ctx, accounts) != []
    ensures StrategyPool(ctx, accounts) != [] && Selectable(ctx, accounts) == Drawn(ctx, StrategyPool(ctx, accounts))
  {
  }

  /** `r` may be returned, and `b` is among the accounts the strategy chose from. */
  ghost predicate Competes(ctx: Ctx, accounts: seq<Account>, r: Account, b: Account) {
    r in Selectable(ctx, accounts) && b in StrategyPool(ctx, accounts)
  }

  lemma SingleAccountDrawn(ctx: Ctx, pool: seq<Account>, r: Account, b: Account)
    requires pool != [] && ctx.options.strategy.SingleAccount? && r in Drawn(ctx, pool) && b in pool
    ensures RanksWithId([], [], r, b)
  {
    assert r == MinBy(ctx, ById, pool);
    LeastRanks(ctx, ById, pool, r, b, [], []);
  }

  /** `single_account`: the smallest id. */
  lemma SingleAccountMeaning(ctx: Ctx, accounts: seq<Account>, r: Account, b: Account)
    requires Competes(ctx, accounts, r, b) && ctx.options.strategy.SingleAccount?
    ensures RanksWithId([], [], r, b)
  {
    SelectableIsDrawn(ctx, accounts);
    SingleAccountDrawn(ctx, StrategyPool(ctx, accounts), r, b);
  }

  function DigestOf(ctx: Ctx, a: Account): real { ctx.env.digest(a.profile.id) as real }

  lemma SequentialDrainDrawn(ctx: Ctx, pool: seq<Account>, r: Account, b: Account)
    requires pool != [] && ctx.options.strategy.SequentialDrain? && r in Drawn(ctx, pool) && b in pool
    ensures RanksWithId([ConfiguredCapacity(ctx, r), DigestOf(ctx, r)], [ConfiguredCapacity(ctx, b), DigestOf(ctx, b)],
            r, b)
  {
    assert r == MinBy(ctx, Drain, pool);
    LeastRanks(ctx, Drain, pool, r, b, [ConfiguredCapacity(ctx, r), DigestOf(ctx, r)],
        [ConfiguredCapacity(ctx, b), DigestOf(ctx, b)]);
  }

  /** `sequential_drain`: the smallest configured capacity, then the smallest digest. */
  lemma SequentialDrainMeaning(ctx: Ctx, accounts: seq<Account>, r: Account, b: Account)
    requires Competes(ctx, accounts, r, b) && ctx.options.strategy.SequentialDrain?
    ensures RanksWithId([ConfiguredCapacity(ctx, r), DigestOf(ctx, r)], [ConfiguredCapacity(ctx, b), DigestOf(ctx, b)],
            r, b)
  {
    SelectableIsDrawn(ctx, accounts);
    SequentialDrainDrawn(ctx, StrategyPool(ctx, accounts), r, b);
  }

  /** Days until the known reset, or the bucket of unknown ones. */
  function DrainBucket(ctx: Ctx, a: Account): int {
    var reset := WeeklyReset(ctx, a);
    if reset.None? then UNKNOWN_RESET_DAYS else ((reset.value - ctx.now) / DAY as real).Floor
  }

  function LeftOf(used: Option<real>): real { Max(0.0, 100.0 - OrZero(used)) }

  /** The quantities of `reset_drain`; an unknown reset counts as later than any known one. */
  function ResetDrainQuantities(ctx: Ctx, a: Account): seq<real> {
    var reset := WeeklyReset(ctx, a);
    [DrainBucket(ctx, a) as real, -LeftOf(a.usedPercent), -LeftOf(UsedPct(a, true)),
     if reset.None? then 1.0 else 0.0, if reset.None? then 0.0 else reset.value, DigestOf(ctx, a)]
  }

  lemma ResetDrainNumbers(ctx: Ctx, a: Account)
    ensures Numbers(ctx, ResetDrainRule, a) == ResetDrainQuantities(ctx, a)
  {
  }

  lemma ResetDrainDrawn(ctx: Ctx, pool: seq<Account>, r: Account, b: Account)
    requires pool != [] && ctx.options.strategy.ResetDrain? && r in Drawn(ctx, pool) && b in pool
    ensures RanksWithId(ResetDrainQuantities(ctx, r), ResetDrainQuantities(ctx, b), r, b)
  {
    assert r == MinBy(ctx, ResetDrainRule, pool);
    ResetDrainNumbers(ctx, r);
    ResetDrainNumbers(ctx, b);
    LeastRanks(ctx, ResetDrainRule, pool, r, b, ResetDrainQuantities(ctx, r), ResetDrainQuantities(ctx, b));
  }

  /**
   `reset_drain`: the earliest reset day, the most left in the short window, the most left in the week, the earliest
   reset.
   */
  lemma ResetDrainMeaning(ctx: Ctx, accounts: seq<Account>, r: Account, b: Account)
    requires Competes(ctx, accounts, r, b) && ctx.options.strategy.ResetDrain?
    ensures RanksWithId(ResetDrainQuantities(ctx, r), ResetDrainQuantities(ctx, b), r, b)
  {
    SelectableIsDrawn(ctx, accounts);
    ResetDrainDrawn(ctx, StrategyPool(ctx, accounts), r, b);
  }

  function LastSelected(a: Account): real { OrZero(a.profile.lastSelectedAt) }

  function RoundRobinQuantities(ctx: Ctx, a: Account): seq<real> {
    [PlannerCost(ctx, a), LastSelected(a), ctx.env.saltedDigest(a.profile.id) as real]
  }

  lemma RoundRobinDrawn(ctx: Ctx, pool: seq<Account>, r: Account, b: Account)
    requires pool != [] && ctx.options.strategy.RoundRobin? && r in Drawn(ctx, pool) && b in pool
    ensures Ranks(RoundRobinQuantities(ctx, r), RoundRobinQuantities(ctx, b))
  {
    assert r == MinBy(ctx, RoundRobinRule, pool);
    LeastRanks(ctx, RoundRobinRule, pool, r, b, RoundRobinQuantities(ctx, r), RoundRobinQuantities(ctx, b));
  }

  /** `round_robin`: the lowest planner cost, the least recently selected, the smallest salted digest. */
  lemma RoundRobinMeaning(ctx: Ctx, accounts: seq<Account>, r: Account, b: Account)
    requires Competes(ctx, accounts, r, b) && ctx.options.strategy.RoundRobin?
    ensures Ranks(RoundRobinQuantities(ctx, r), RoundRobinQuantities(ctx, b))
  {
    SelectableIsDrawn(ctx, accounts);
    RoundRobinDrawn(ctx, StrategyPool(ctx, accounts), r, b);
  }

  function FirstUsed(o: Options, a: Account): real {
    if o.primaryFirst then PriorityPrimaryUsed(a) else PrioritySecondaryUsed(a)
  }

  function SecondUsed(o: Options, a: Account): real {
    if o.primaryFirst then PrioritySecondaryUsed(a) else PriorityPrimaryUsed(a)
  }

  function UsageQuantities(ctx: Ctx, a: Account): seq<real> {
    [PlannerCost(ctx, a), FirstUsed(ctx.options, a), SecondUsed(ctx.options, a), LastSelected(a)]
  }

  lemma UsageDrawn(ctx: Ctx, pool: seq<Account>, r: Account, b: Account)
    requires pool != [] && ctx.options.strategy.UsageWeighted? && !ctx.options.preferEarlierReset
            && r in Drawn(ctx, pool) && b in pool
    ensures RanksWithId(UsageQuantities(ctx, r), UsageQuantities(ctx, b), r, b)
  {
    assert r == MinBy(ctx, UsageRule(ctx.options), pool);
    LeastRanks(ctx, UsageRule(ctx.options), pool, r, b, UsageQuantities(ctx, r), UsageQuantities(ctx, b));
  }

  /** `usage_weighted`: cost, the window that counts first, the other window, the last selection. */
  lemma UsageMeaning(ctx: Ctx, accounts: seq<Account>, r: Account, b: Account)
    requires Competes(ctx, accounts, r, b) && ctx.options.strategy.UsageWeighted? && !ctx.options.preferEarlierReset
    ensures RanksWithId(UsageQuantities(ctx, r), UsageQuantities(ctx, b), r, b)
  {
    SelectableIsDrawn(ctx, accounts);
    UsageDrawn(ctx, StrategyPool(ctx, accounts), r, b);
  }

  function ResetFirstQuantities(ctx: Ctx, a: Account): seq<real> {
    [ResetBucket(ctx, a) as real, PlannerCost(ctx, a), FirstUsed(ctx.options, a), SecondUsed(ctx.options, a),
        LastSelected(a)]
  }

  lemma ResetFirstDrawn(ctx: Ctx, pool: seq<Account>, r: Account, b: Account)
    requires pool != [] && ctx.options.strategy.UsageWeighted? && ctx.options.preferEarlierReset
            && r in Drawn(ctx, pool) && b in pool
    ensures RanksWithId(ResetFirstQuantities(ctx, r), ResetFirstQuantities(ctx, b), r, b)
  {
    assert r == MinBy(ctx, UsageRule(ctx.options), pool);
    LeastRanks(ctx, UsageRule(ctx.options), pool, r, b, ResetFirstQuantities(ctx, r), ResetFirstQuantities(ctx, b));
  }

  /** `usage_weighted` with a reset preference: the earliest reset comes before all of these. */
  lemma ResetFirstMeaning(ctx: Ctx, accounts: seq<Account>, r: Account, b: Account)
    requires Competes(ctx, accounts, r, b) && ctx.options.strategy.UsageWeighted? && ctx.options.preferEarlierReset
    ensures RanksWithId(ResetFirstQuantities(ctx, r), ResetFirstQuantities(ctx, b), r, b)
  {
    SelectableIsDrawn(ctx, accounts);
    ResetFirstDrawn(ctx, StrategyPool(ctx, accounts), r, b);
  }

  /** Members of the candidate pool: all, or those of the earliest reset bucket. */
  lemma CandidateMembers(ctx: Ctx, pool: seq<Account>, a: Account)
    requires pool != []
    ensures a in Candidates(ctx, pool) <==>
              a in pool && (!ctx.options.preferEarlierReset || forall b | b in pool ::
                  ResetBucket(ctx, a) <= ResetBucket(ctx, b))
  {
    if ctx.options.preferEarlierReset {
      var least := LeastBucket(ctx, pool);
      KeepMembers(ctx, BucketIs(least), pool, a);
      LeastBucketAttained(ctx, pool);
      forall b | b in pool
        ensures least <= ResetBucket(ctx, b)
      {
        LeastBucketBound(ctx, pool, b);
      }
    }
  }

  /** Members of the cheapest pool. */
  lemma CheapestMembers(ctx: Ctx, pool: seq<Account>, a: Account)
    requires pool != []
    ensures a in LowestCost(ctx, pool) <==>
            a in pool && forall b | b in pool :: PlannerCost(ctx, a) <= PlannerCost(ctx, b)
  {
    if ctx.options.costs != map[] {
      var least := LeastCost(ctx, pool);
      KeepMembers(ctx, CostIs(least), pool, a);
      LeastCostAttained(ctx, pool);
      forall b | b in pool
        ensures least <= PlannerCost(ctx, b)
      {
        LeastCostBound(ctx, pool, b);
      }
    }
  }

  function FillQuantities(a: Account): seq<real> { [-OrZero(a.usedPercent), -OrZero(a.secondaryUsedPercent)] }

  lemma FillNumbers(ctx: Ctx, a: Account)
    ensures Numbers(ctx, Fill, a) == FillQuantities(a)
  {
  }

  lemma FillFirstDrawn(ctx: Ctx, pool: seq<Account>, r: Account, b: Account)
    requires pool != [] && ctx.options.strategy.FillFirst? && r in Drawn(ctx, pool) && b in Candidates(ctx, pool)
    ensures r in Candidates(ctx, pool) && RanksWithId(FillQuantities(r), FillQuantities(b), r, b)
  {
    CandidatesPick(ctx, pool);
    assert r == MinBy(ctx, Fill, Candidates(ctx, pool));
    MinByLeast(ctx, Fill, Candidates(ctx, pool));
    FillNumbers(ctx, r);
    FillNumbers(ctx, b);
    LeastRanks(ctx, Fill, Candidates(ctx, pool), r, b, FillQuantities(r), FillQuantities(b));
  }

  /** `fill_first`: among the candidates, the most used short window, then the most used week. */
  lemma FillFirstMeaning(ctx: Ctx, accounts: seq<Account>, r: Account, b: Account)
    requires Competes(ctx, accounts, r, b) && ctx.options.strategy.FillFirst?
    requires b in Candidates(ctx, StrategyPool(ctx, accounts))
    ensures r in Candidates(ctx, StrategyPool(ctx, accounts))
    ensures RanksWithId(FillQuantities(r), FillQuantities(b), r, b)
  {
    SelectableIsDrawn(ctx, accounts);
    FillFirstDrawn(ctx, StrategyPool(ctx, accounts), r, b);
  }

  function ProbeQuantities(ctx: Ctx, a: Account): seq<real> {
    [PlannerCost(ctx, a), -RemainingSecondaryCredits(ctx, a), PrioritySecondaryUsed(a), PriorityPrimaryUsed(a),
        LastSelected(a)]
  }

  lemma CapacityProbeDrawn(ctx: Ctx, pool: seq<Account>, r: Account, b: Account)
    requires pool != [] && ctx.options.strategy.CapacityWeighted? && ctx.options.deterministicProbe
            && r in Drawn(ctx, pool) && b in Candidates(ctx, pool)
    ensures r in Candidates(ctx, pool) && RanksWithId(ProbeQuantities(ctx, r), ProbeQuantities(ctx, b), r, b)
  {
    CandidatesPick(ctx, pool);
    assert r == MinBy(ctx, CapacityProbe, Candidates(ctx, pool));
    MinByLeast(ctx, CapacityProbe, Candidates(ctx, pool));
    LeastRanks(ctx, CapacityProbe, Candidates(ctx, pool), r, b, ProbeQuantities(ctx, r), ProbeQuantities(ctx, b));
  }

  /** `capacity_weighted` as a probe: among the candidates, the cheapest, the most credits left, then the least used. */
  lemma CapacityProbeMeaning(ctx: Ctx, accounts: seq<Account>, r: Account, b: Account)
    requires Competes(ctx, accounts, r, b) && ctx.options.strategy.CapacityWeighted? && ctx.options.deterministicProbe
    requires b in Candidates(ctx, StrategyPool(ctx, accounts))
    ensures r in Candidates(ctx, StrategyPool(ctx, accounts))
    ensures RanksWithId(ProbeQuantities(ctx, r), ProbeQuantities(ctx, b), r, b)
  {
    SelectableIsDrawn(ctx, accounts);
    CapacityProbeDrawn(ctx, StrategyPool(ctx, accounts), r, b);
  }

  /** `capacity_weighted`: exactly the cheapest candidates with credits left can be returned, if there are any. */
  lemma CapacityDrawMeaning(ctx: Ctx, accounts: seq<Account>, x: Account, r: Account)
    requires ctx.options.strategy.CapacityWeighted? && !ctx.options.deterministicProbe
            && Selectable(ctx, accounts) != []
    requires var pool := StrategyPool(ctx, accounts);
             pool != [] && Candidates(ctx, pool) != [] && x in LowestCost(ctx, Candidates(ctx, pool))
                 && RemainingSecondaryCredits(ctx, x) > 0.0
    ensures r in Selectable(ctx, accounts) <==>
              r in LowestCost(ctx, Candidates(ctx, StrategyPool(ctx, accounts)))
                  && RemainingSecondaryCredits(ctx, r) > 0.0
  {
    SelectableIsDrawn(ctx, accounts);
    var cheapest := LowestCost(ctx, Candidates(ctx, StrategyPool(ctx, accounts)));
    KeepSome(ctx, HasCredits, cheapest, x);
    KeepMembers(ctx, HasCredits, cheapest, r);
  }

  /******* Relative availability *******/

  lemma RelativeDrawn(ctx: Ctx, pool: seq<Account>, r: Account, b: Account)
    requires pool != [] && ctx.options.strategy.RelativeAvailability? && ctx.options.deterministicProbe
    requires IsPower(ctx.env.power) && r in Drawn(ctx, pool) && b in LowestCost(ctx, pool)
    ensures r in LowestCost(ctx, pool) && RawScore(ctx, r) >= RawScore(ctx, b)
  {
    LowestCostPick(ctx, pool);
    var cheapest := LowestCost(ctx, pool);
    BestScoreBound(ctx, cheapest, b);
    if BestScore(ctx, cheapest) > 0.0 {
      RankedStartsBest(ctx, cheapest);
      assert r == Ranked(ctx, cheapest)[0];
      RetainedWithin(ctx, cheapest);
      assert r in Retained(ctx, cheapest);
    } else {
      MinByLeast(ctx, Usage, cheapest);
    }
  }

  lemma CrossMultiply(c: real, s: real, c': real, s': real)
    requires s > 0.0 && s' > 0.0 && c / s >= c' / s'
    ensures c * s' >= c' * s
  {
    var x, y := c / s, c' / s';
    assert x * s == c && y * s' == c';
    assert (x - y) * (s * s') >= 0.0;
    assert c * s' == x * (s * s') && c' * s == y * (s * s');
  }

  lemma CancelFactor(f: real, x: real, y: real)
    requires f > 0.0 && f * x >= f * y
    ensures x >= y
  {
    assert f * (x - y) >= 0.0;
  }

  lemma CompareRates(c: real, s: real, c': real, s': real)
    requires s > 0.0 && s' > 0.0 && c / s >= c' / s'
    ensures c * s' >= c' * s && (c == c' > 0.0 ==> s <= s') && (s == s' ==> c >= c')
  {
    CrossMultiply(c, s, c', s');
    if c == c' > 0.0 {
      CancelFactor(c, s', s);
    }
    if s == s' {
      CancelFactor(s, c, c');
    }
  }

  /**
   `r` has at least the credits per second of `b`; with equal credits it resets no later, with equal resets it has no
   less.
   */
  ghost predicate AtLeastAsAvailable(ctx: Ctx, r: Account, b: Account) {
    var c, c' := RemainingSecondaryCredits(ctx, r), RemainingSecondaryCredits(ctx, b);
    var s, s' := DivisorSeconds(ctx, r), DivisorSeconds(ctx, b);
    c * s' >= c' * s && (c == c' > 0.0 ==> s <= s') && (s == s' ==> c >= c')
  }

  lemma ScoreIsAvailability(ctx: Ctx, r: Account, b: Account)
    requires RawScore(ctx, r) >= RawScore(ctx, b)
    ensures AtLeastAsAvailable(ctx, r, b)
  {
    var c, s := RemainingSecondaryCredits(ctx, r), DivisorSeconds(ctx, r);
    CompareRates(c, s, RemainingSecondaryCredits(ctx, b), DivisorSeconds(ctx, b));
  }

  lemma RelativeMeaning(ctx: Ctx, pool: seq<Account>, r: Account, b: Account)
    requires pool != [] && ctx.options.strategy.RelativeAvailability? && ctx.options.deterministicProbe
    requires IsPower(ctx.env.power) && r in Drawn(ctx, pool) && b in LowestCost(ctx, pool)
    ensures r in LowestCost(ctx, pool) && AtLeastAsAvailable(ctx, r, b)
  {
    RelativeDrawn(ctx, pool, r, b);
    ScoreIsAvailability(ctx, r, b);
  }

  /** `relative_availability` as a probe: among the cheapest, the most credits per second to the weekly reset. */
  lemma RelativeAvailabilityMeaning(ctx: Ctx, accounts: seq<Account>, r: Account, b: Account)
    requires Competes(ctx, accounts, r, b) && ctx.options.strategy.RelativeAvailability?
            && ctx.options.deterministicProbe
    requires IsPower(ctx.env.power) && b in LowestCost(ctx, StrategyPool(ctx, accounts))
    ensures r in LowestCost(ctx, StrategyPool(ctx, accounts)) && AtLeastAsAvailable(ctx, r, b)
  {
    SelectableIsDrawn(ctx, accounts);
    RelativeMeaning(ctx, StrategyPool(ctx, accounts), r, b);
  }

  /******* Exhausted accounts *******/

  function LeastUsedQuantities(a: Account): seq<real> {
    [PrioritySecondaryUsed(a), PriorityPrimaryUsed(a), LastSelected(a)]
  }

  lemma UsageNumbers(ctx: Ctx, a: Account)
    ensures Numbers(ctx, Usage, a) == LeastUsedQuantities(a)
  {
  }

  lemma LeastUsed(ctx: Ctx, pool: seq<Account>, r: Account, b: Account)
    requires b in pool && r == MinBy(ctx, Usage, pool)
    ensures r in pool && RanksWithId(LeastUsedQuantities(r), LeastUsedQuantities(b), r, b)
  {
    MinByLeast(ctx, Usage, pool);
    UsageNumbers(ctx, r);
    UsageNumbers(ctx, b);
    LeastRanks(ctx, Usage, pool, r, b, LeastUsedQuantities(r), LeastUsedQuantities(b));
  }

  /** Without any credits left, `capacity_weighted` takes the least used week, short window and last selection. */
  lemma ExhaustedCapacityMeaning(ctx: Ctx, pool: seq<Account>, r: Account, b: Account)
    requires pool != [] && ctx.options.strategy.CapacityWeighted? && !ctx.options.deterministicProbe
            && r in Drawn(ctx, pool)
    requires Candidates(ctx, pool) != [] && b in LowestCost(ctx, Candidates(ctx, pool))
    requires forall x | x in LowestCost(ctx, Candidates(ctx, pool)) :: RemainingSecondaryCredits(ctx, x) == 0.0
    ensures r in LowestCost(ctx, Candidates(ctx, pool))
            && RanksWithId(LeastUsedQuantities(r), LeastUsedQuantities(b), r, b)
  {
    var cheapest := LowestCost(ctx, Candidates(ctx, pool));
    var credited := Keep(ctx, HasCredits, cheapest);
    if credited != [] {
      KeepMembers(ctx, HasCredits, cheapest, credited[0]);
    }
    LeastUsed(ctx, cheapest, r, b);
  }

  /** So does `relative_availability`, as a probe or not. */
  lemma ExhaustedRelativeMeaning(ctx: Ctx, pool: seq<Account>, r: Account, b: Account)
    requires pool != [] && ctx.options.strategy.RelativeAvailability? && r in Drawn(ctx, pool)
            && b in LowestCost(ctx, pool)
    requires forall x | x in LowestCost(ctx, pool) :: RawScore(ctx, x) == 0.0
    ensures r in LowestCost(ctx, pool) && RanksWithId(LeastUsedQuantities(r), LeastUsedQuantities(b), r, b)
  {
    var cheapest := LowestCost(ctx, pool);
    BestScoreAttained(ctx, cheapest);
    LeastUsed(ctx, cheapest, r, b);
  }

  /******* Tiers and policies *******/

  ghost predicate HasTier(pool: seq<Account>, tier: int) { exists a :: a in pool && a.profile.healthTier == tier }

  lemma TierEmpty(ctx: Ctx, pool: seq<Account>, tier: int)
    ensures Keep(ctx, TierIs(tier), pool) != [] <==> HasTier(pool, tier)
  {
    var kept := Keep(ctx, TierIs(tier), pool);
    if kept != [] {
      KeepMembers(ctx, TierIs(tier), pool, kept[0]);
    }
    if a :| a in pool && a.profile.healthTier == tier {
      KeepSome(ctx, TierIs(tier), pool, a);
    }
  }

  /**
   Without a due probe, a draining account is used only if nothing is healthy or probing, a probing one only if nothing
   is healthy.
   */
  lemma TiersRespected(ctx: Ctx, pool: seq<Account>, r: Account)
    requires !TierBlind(ctx.options.strategy) && DueProbes(ctx, pool) == [] && r in Choices(ctx, pool)
    ensures HasTier(pool, 0) ==> r.profile.healthTier == 0
    ensures !HasTier(pool, 0) && HasTier(pool, 2) ==> r.profile.healthTier == 2
    ensures !HasTier(pool, 0) && !HasTier(pool, 2) && HasTier(pool, 1) ==>
            r.profile.healthTier == 1
  {
    ChoicesRespectHealth(ctx, pool);
    TierEmpty(ctx, pool, HEALTHY);
    TierEmpty(ctx, pool, PROBING);
    TierEmpty(ctx, pool, DRAINING);
    KeepMembers(ctx, TierIs(HEALTHY), pool, r);
    KeepMembers(ctx, TierIs(PROBING), pool, r);
    KeepMembers(ctx, TierIs(DRAINING), pool, r);
  }

  lemma PolicyPoolRespects(ctx: Ctx, health: seq<Account>, r: Account, b: Account)
    requires r in PolicyPool(ctx, health) && b in health
    ensures RoutingPolicy(b).BurnFirst? ==> RoutingPolicy(r).BurnFirst?
    ensures RoutingPolicy(b).Normal? ==> !RoutingPolicy(r).Preserve?
  {
    KeepMembers(ctx, PolicyIs(BurnFirst), health, r);
    KeepMembers(ctx, PolicyIs(Normal), health, r);
    KeepMembers(ctx, PolicyIs(BurnFirst), health, b);
    KeepMembers(ctx, PolicyIs(Normal), health, b);
  }

  /** Within the health pool, burn-first accounts go before normal ones and those before preserved ones. */
  lemma PoliciesRespected(ctx: Ctx, pool: seq<Account>, r: Account, b: Account)
    requires pool != [] && !TierBlind(ctx.options.strategy) && r in Choices(ctx, pool) && b in HealthPool(ctx, pool)
    ensures RoutingPolicy(b).BurnFirst? ==> RoutingPolicy(r).BurnFirst?
    ensures RoutingPolicy(b).Normal? ==> !RoutingPolicy(r).Preserve?
  {
    var health := HealthPool(ctx, pool);
    HealthPoolPicks(ctx, pool);
    PolicyPoolPicks(ctx, health);
    DrawnPicks(ctx, PolicyPool(ctx, health));
    PolicyPoolRespects(ctx, health, r, b);
  }

  /** A preserved account is burned opportunistically only above its floors. */
  lemma PreserveFloors(ctx: Ctx, pool: seq<Account>, r: Account)
    requires r in Opportune(ctx, pool) && RoutingPolicy(r).Preserve?
    ensures var weekly, short := RemainingPct(r, true), RemainingPct(r, false);
            && weekly.Some? && short.Some? && weekly.value > 5.0 && short.value > 10.0
            && r.profile.secondaryResetAt.Some? && (!BehindPace(ctx, r) ==> weekly.value > 15.0)
            && (RecentlyActive(ctx, r) ==> weekly.value > 25.0 && short.value > 30.0)
            && r.resetAt.Some? && (r.resetAt.value - ctx.now > HOUR as real ==> short.value > 20.0)
            && (PreserveCount(ctx, pool) <= 1 ==> short.value > 25.0)
  {
    OpportuneMembers(ctx, pool, r);
  }
}
