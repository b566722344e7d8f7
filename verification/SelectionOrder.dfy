/** Selection depends on which accounts there are, not on the order they are listed in. */
module SelectionOrder {
  import opened Accounts
  import opened SortKeys
  import opened Listings
  import opened Selection
  import opened SelectionProofs

  /** Accounts with the same id are the same account. */
  ghost predicate IdsIdentify(pool: seq<Account>) {
    forall a, b | a in pool && b in pool && a.profile.id == b.profile.id :: a == b
  }

  ghost predicate Injective(f: string -> nat) { forall s, t | f(s) == f(t) :: s == t }

  lemma WithinIdentify(part: seq<Account>, pool: seq<Account>)
    requires IdsIdentify(pool) && Within(part, pool)
    ensures IdsIdentify(part)
  {
  }

  /******* Filters and normalisation commute with reordering *******/

  lemma {:induction false} KeepCount(ctx: Ctx, test: Test, pool: seq<Account>, x: Account)
    ensures multiset(Keep(ctx, test, pool))[x] == if Passes(ctx, test, x) then multiset(pool)[x] else 0
    decreases |pool|
  {
    if pool == [] {
    } else {
      KeepCount(ctx, test, pool[..|pool| - 1], x);
      assert pool == pool[..|pool| - 1] + [pool[|pool| - 1]];
    }
  }

  lemma KeepPerm(ctx: Ctx, test: Test, a: seq<Account>, b: seq<Account>)
    requires Perm(a, b)
    ensures Perm(Keep(ctx, test, a), Keep(ctx, test, b))
  {
    forall x
      ensures multiset(Keep(ctx, test, a))[x] == multiset(Keep(ctx, test, b))[x]
    {
      KeepCount(ctx, test, a, x);
      KeepCount(ctx, test, b, x);
    }
  }

  function Settler(ctx: Ctx): Account -> Account { a => Settle(ctx, a).account }

  lemma NormalisedIsMapped(ctx: Ctx, accounts: seq<Account>)
    ensures Normalised(ctx, accounts) == Mapped(Settler(ctx), accounts)
  {
    forall i | 0 <= i < |accounts|
      ensures Normalised(ctx, accounts)[i] == Mapped(Settler(ctx), accounts)[i]
    {
      NormalisedAt(ctx, accounts, i);
    }
  }

  lemma NormalisedPerm(ctx: Ctx, a: seq<Account>, b: seq<Account>)
    requires Perm(a, b)
    ensures Perm(Normalised(ctx, a), Normalised(ctx, b))
  {
    NormalisedIsMapped(ctx, a);
    NormalisedIsMapped(ctx, b);
    MappedPerm(Settler(ctx), a, b);
  }

  lemma NormalisedIdentify(ctx: Ctx, accounts: seq<Account>)
    requires IdsIdentify(accounts)
    ensures IdsIdentify(Normalised(ctx, accounts))
  {
    var all := Normalised(ctx, accounts);
    forall x, y | x in all && y in all && x.profile.id == y.profile.id
      ensures x == y
    {
      var a := Origin(ctx, accounts, x);
      var b := Origin(ctx, accounts, y);
      SettledId(ctx, a);
      SettledId(ctx, b);
    }
  }

  /******* Keys *******/

  /** Every key but the backoff expiry tells two accounts apart. */
  lemma KeySeparates(ctx: Ctx, rule: Rule, a: Account, b: Account)
    requires !rule.Expiry? && Injective(ctx.env.saltedDigest) && KeyOf(ctx, rule, a) == KeyOf(ctx, rule, b)
    ensures a.profile.id == b.profile.id
  {
    var m, n := Numbers(ctx, rule, a), Numbers(ctx, rule, b);
    assert |m| == |n|;
    if rule.RoundRobinRule? {
      assert KeyOf(ctx, rule, a)[2] == KeyOf(ctx, rule, b)[2];
      assert ctx.env.saltedDigest(a.profile.id) == ctx.env.saltedDigest(b.profile.id);
    } else {
      assert Codes(a.profile.id) == KeyOf(ctx, rule, a)[|m|..] == KeyOf(ctx, rule, b)[|m|..] == Codes(b.profile.id);
      CodesInjective(a.profile.id, b.profile.id);
    }
  }

  lemma OrderSeparates(ctx: Ctx, rule: Rule, pool: seq<Account>)
    requires !rule.Expiry? && Injective(ctx.env.saltedDigest) && IdsIdentify(pool)
    ensures Separates(Order(ctx, rule), pool)
  {
    forall x, y | x in pool && y in pool && Order(ctx, rule)(x) == Order(ctx, rule)(y)
      ensures x == y
    {
      KeySeparates(ctx, rule, x, y);
    }
  }

  lemma MinByPerm(ctx: Ctx, rule: Rule, a: seq<Account>, b: seq<Account>)
    requires !rule.Expiry? && Injective(ctx.env.saltedDigest) && IdsIdentify(a) && Perm(a, b) && a != [] && b != []
    ensures MinBy(ctx, rule, a) == MinBy(ctx, rule, b)
  {
    OrderSeparates(ctx, rule, a);
    MinPerm(Order(ctx, rule), a, b);
  }

  /******* Least buckets, least costs, best scores *******/

  lemma {:induction false} LeastBucketBound(ctx: Ctx, pool: seq<Account>, a: Account)
    requires a in pool
    ensures LeastBucket(ctx, pool) <= ResetBucket(ctx, a)
    decreases |pool|
  {
    if |pool| > 1 && a in pool[..|pool| - 1] {
      LeastBucketBound(ctx, pool[..|pool| - 1], a);
    }
  }

  lemma {:induction false} LeastCostBound(ctx: Ctx, pool: seq<Account>, a: Account)
    requires a in pool
    ensures LeastCost(ctx, pool) <= PlannerCost(ctx, a)
    decreases |pool|
  {
    if |pool| > 1 && a in pool[..|pool| - 1] {
      LeastCostBound(ctx, pool[..|pool| - 1], a);
    }
  }

  lemma {:induction false} BestScoreBound(ctx: Ctx, pool: seq<Account>, a: Account)
    requires a in pool
    ensures RawScore(ctx, a) <= BestScore(ctx, pool)
    decreases |pool|
  {
    if a in pool[..|pool| - 1] {
      BestScoreBound(ctx, pool[..|pool| - 1], a);
    }
  }

  lemma {:induction false} BestScoreAttained(ctx: Ctx, pool: seq<Account>)
    ensures BestScore(ctx, pool) >= 0.0
    ensures BestScore(ctx, pool) > 0.0 ==> exists a :: a in pool && RawScore(ctx, a) == BestScore(ctx, pool)
    decreases |pool|
  {
    if pool == [] {
    } else {
      BestScoreAttained(ctx, pool[..|pool| - 1]);
      assert pool[|pool| - 1] in pool;
    }
  }

  lemma LeastBucketPerm(ctx: Ctx, a: seq<Account>, b: seq<Account>)
    requires Perm(a, b) && a != [] && b != []
    ensures LeastBucket(ctx, a) == LeastBucket(ctx, b)
  {
    PermMembers(a, b);
    LeastBucketAttained(ctx, a);
    LeastBucketAttained(ctx, b);
    var x :| x in a && ResetBucket(ctx, x) == LeastBucket(ctx, a);
    var y :| y in b && ResetBucket(ctx, y) == LeastBucket(ctx, b);
    LeastBucketBound(ctx, a, y);
    LeastBucketBound(ctx, b, x);
  }

  lemma LeastCostPerm(ctx: Ctx, a: seq<Account>, b: seq<Account>)
    requires Perm(a, b) && a != [] && b != []
    ensures LeastCost(ctx, a) == LeastCost(ctx, b)
  {
    PermMembers(a, b);
    LeastCostAttained(ctx, a);
    LeastCostAttained(ctx, b);
    var x :| x in a && PlannerCost(ctx, x) == LeastCost(ctx, a);
    var y :| y in b && PlannerCost(ctx, y) == LeastCost(ctx, b);
    LeastCostBound(ctx, a, y);
    LeastCostBound(ctx, b, x);
  }

  lemma BestScorePerm(ctx: Ctx, a: seq<Account>, b: seq<Account>)
    requires Perm(a, b)
    ensures BestScore(ctx, a) == BestScore(ctx, b)
  {
    BestScoreNotLess(ctx, a, b);
    BestScoreNotLess(ctx, b, a);
  }

  lemma BestScoreNotLess(ctx: Ctx, a: seq<Account>, b: seq<Account>)
    requires Perm(a, b)
    ensures BestScore(ctx, a) <= BestScore(ctx, b)
  {
    PermMembers(a, b);
    BestScoreAttained(ctx, a);
    BestScoreAttained(ctx, b);
    if BestScore(ctx, a) > 0.0 {
      var x :| x in a && RawScore(ctx, x) == BestScore(ctx, a);
      BestScoreBound(ctx, b, x);
    }
  }

  /******* The pipeline *******/

  /** What the lemmas below assume of two listings of one pool. */
  ghost predicate Shuffled(ctx: Ctx, a: seq<Account>, b: seq<Account>) {
    Injective(ctx.env.saltedDigest) && IdsIdentify(a) && Perm(a, b)
  }

  lemma KeepShuffled(ctx: Ctx, test: Test, a: seq<Account>, b: seq<Account>)
    requires Shuffled(ctx, a, b)
    ensures Shuffled(ctx, Keep(ctx, test, a), Keep(ctx, test, b))
    ensures Keep(ctx, test, a) == [] <==> Keep(ctx, test, b) == []
  {
    KeepPerm(ctx, test, a, b);
    KeepAll(ctx, test, a);
    PermMembers(Keep(ctx, test, a), Keep(ctx, test, b));
  }

  lemma CandidatesShuffled(ctx: Ctx, a: seq<Account>, b: seq<Account>)
    requires Shuffled(ctx, a, b) && a != [] && b != []
    ensures Shuffled(ctx, Candidates(ctx, a), Candidates(ctx, b))
  {
    LeastBucketPerm(ctx, a, b);
    KeepShuffled(ctx, BucketIs(LeastBucket(ctx, a)), a, b);
  }

  lemma LowestCostShuffled(ctx: Ctx, a: seq<Account>, b: seq<Account>)
    requires Shuffled(ctx, a, b) && a != [] && b != []
    ensures Shuffled(ctx, LowestCost(ctx, a), LowestCost(ctx, b))
  {
    LeastCostPerm(ctx, a, b);
    KeepShuffled(ctx, CostIs(LeastCost(ctx, a)), a, b);
  }

  lemma RetainedShuffled(ctx: Ctx, a: seq<Account>, b: seq<Account>)
    requires Shuffled(ctx, a, b)
    ensures Retained(ctx, a) == Retained(ctx, b)
  {
    BestScorePerm(ctx, a, b);
    var best := BestScore(ctx, a);
    if best > 0.0 {
      KeepShuffled(ctx, HeavyEnough(best), a, b);
      OrderSeparates(ctx, Heaviest(best), Keep(ctx, HeavyEnough(best), a));
      SortPerm(Order(ctx, Heaviest(best)), Keep(ctx, HeavyEnough(best), a), Keep(ctx, HeavyEnough(best), b));
    }
  }

  lemma CapacityShuffled(ctx: Ctx, a: seq<Account>, b: seq<Account>)
    requires Shuffled(ctx, a, b) && a != [] && b != [] && ctx.options.strategy.CapacityWeighted?
    ensures Perm(Drawn(ctx, a), Drawn(ctx, b))
  {
    CandidatesShuffled(ctx, a, b);
    CandidatesPick(ctx, a);
    CandidatesPick(ctx, b);
    var c, d := Candidates(ctx, a), Candidates(ctx, b);
    if ctx.options.deterministicProbe {
      MinByPerm(ctx, CapacityProbe, c, d);
    } else {
      LowestCostShuffled(ctx, c, d);
      LowestCostPick(ctx, c);
      LowestCostPick(ctx, d);
      KeepShuffled(ctx, HasCredits, LowestCost(ctx, c), LowestCost(ctx, d));
      MinByPerm(ctx, Usage, LowestCost(ctx, c), LowestCost(ctx, d));
    }
  }

  lemma RelativeShuffled(ctx: Ctx, a: seq<Account>, b: seq<Account>)
    requires Shuffled(ctx, a, b) && a != [] && b != [] && ctx.options.strategy.RelativeAvailability?
    ensures Perm(Drawn(ctx, a), Drawn(ctx, b))
  {
    LowestCostShuffled(ctx, a, b);
    LowestCostPick(ctx, a);
    LowestCostPick(ctx, b);
    var c, d := LowestCost(ctx, a), LowestCost(ctx, b);
    RetainedShuffled(ctx, c, d);
    if Retained(ctx, c) == [] {
      MinByPerm(ctx, Usage, c, d);
    }
  }

  lemma DrawnShuffled(ctx: Ctx, a: seq<Account>, b: seq<Account>)
    requires Shuffled(ctx, a, b) && a != [] && b != []
    ensures Perm(Drawn(ctx, a), Drawn(ctx, b))
  {
    match ctx.options.strategy {
      case SingleAccount => MinByPerm(ctx, ById, a, b);
      case SequentialDrain => MinByPerm(ctx, Drain, a, b);
      case ResetDrain => MinByPerm(ctx, ResetDrainRule, a, b);
      case RoundRobin => MinByPerm(ctx, RoundRobinRule, a, b);
      case UsageWeighted => MinByPerm(ctx, UsageRule(ctx.options), a, b);
      case FillFirst =>
        CandidatesShuffled(ctx, a, b);
        CandidatesPick(ctx, a);
        CandidatesPick(ctx, b);
        MinByPerm(ctx, Fill, Candidates(ctx, a), Candidates(ctx, b));
      case CapacityWeighted => CapacityShuffled(ctx, a, b);
      case RelativeAvailability => RelativeShuffled(ctx, a, b);
    }
  }

  lemma HealthPoolShuffled(ctx: Ctx, a: seq<Account>, b: seq<Account>)
    requires Shuffled(ctx, a, b)
    ensures Shuffled(ctx, HealthPool(ctx, a), HealthPool(ctx, b))
    ensures DueProbes(ctx, a) == [] <==> DueProbes(ctx, b) == []
  {
    KeepShuffled(ctx, TierIs(HEALTHY), a, b);
    KeepShuffled(ctx, TierIs(PROBING), a, b);
    KeepShuffled(ctx, TierIs(DRAINING), a, b);
    KeepShuffled(ctx, IsDue, Keep(ctx, TierIs(PROBING), a), Keep(ctx, TierIs(PROBING), b));
    if DueProbes(ctx, a) != [] {
      MinByPerm(ctx, OldestProbe, DueProbes(ctx, a), DueProbes(ctx, b));
    }
  }

  lemma PolicyPoolShuffled(ctx: Ctx, a: seq<Account>, b: seq<Account>)
    requires Shuffled(ctx, a, b)
    ensures Shuffled(ctx, PolicyPool(ctx, a), PolicyPool(ctx, b))
  {
    KeepShuffled(ctx, PolicyIs(BurnFirst), a, b);
    KeepShuffled(ctx, PolicyIs(Normal), a, b);
    KeepShuffled(ctx, PolicyIs(Preserve), a, b);
  }

  lemma ChoicesShuffled(ctx: Ctx, a: seq<Account>, b: seq<Account>)
    requires Shuffled(ctx, a, b)
    ensures Perm(Choices(ctx, a), Choices(ctx, b))
  {
    PermMembers(a, b);
    if a == [] {
    } else if TierBlind(ctx.options.strategy) {
      DrawnShuffled(ctx, a, b);
    } else {
      HealthPoolShuffled(ctx, a, b);
      var c, d := HealthPool(ctx, a), HealthPool(ctx, b);
      PolicyPoolShuffled(ctx, c, d);
      PermMembers(PolicyPool(ctx, c), PolicyPool(ctx, d));
      if PolicyPool(ctx, c) != [] {
        DrawnShuffled(ctx, PolicyPool(ctx, c), PolicyPool(ctx, d));
      }
    }
  }

  /******* Opportunistic traffic *******/

  lemma OtherUsablePerm(ctx: Ctx, x: Account, a: seq<Account>, b: seq<Account>, count: nat)
    requires Perm(a, b) && OtherUsable(ctx, x, a, count)
    ensures OtherUsable(ctx, x, b, count)
  {
    var i :| 0 <= i < |a| && Usable(ctx, a[i], x.profile.id, count);
    PermMembers(a, b);
    assert a[i] in b;
    var j :| 0 <= j < |b| && b[j] == a[i];
    assert Usable(ctx, b[j], x.profile.id, count);
  }

  lemma ExpendablePerm(ctx: Ctx, x: Account, a: seq<Account>, b: seq<Account>, count: nat)
    requires Perm(a, b)
    ensures Expendable(ctx, x, a, count) <==> Expendable(ctx, x, b, count)
  {
    if OtherUsable(ctx, x, a, count) {
      OtherUsablePerm(ctx, x, a, b, count);
    } else if OtherUsable(ctx, x, b, count) {
      OtherUsablePerm(ctx, x, b, a, count);
    }
  }

  lemma BurnablePerm(ctx: Ctx, which: Policy, a: seq<Account>, b: seq<Account>, count: nat)
    requires Perm(a, b)
    ensures Perm(Keep(ctx, Burnable(which, a, count), a), Keep(ctx, Burnable(which, b, count), b))
  {
    forall x
      ensures multiset(Keep(ctx, Burnable(which, a, count), a))[x] ==
              multiset(Keep(ctx, Burnable(which, b, count), b))[x]
    {
      KeepCount(ctx, Burnable(which, a, count), a, x);
      KeepCount(ctx, Burnable(which, b, count), b, x);
      ExpendablePerm(ctx, x, a, b, count);
    }
  }

  lemma OpportunePerm(ctx: Ctx, a: seq<Account>, b: seq<Account>)
    requires Perm(a, b)
    ensures Perm(Opportune(ctx, a), Opportune(ctx, b))
  {
    KeepPerm(ctx, PolicyIs(Preserve), a, b);
    PermMembers(Keep(ctx, PolicyIs(Preserve), a), Keep(ctx, PolicyIs(Preserve), b));
    var count := PreserveCount(ctx, a);
    BurnablePerm(ctx, BurnFirst, a, b, count);
    BurnablePerm(ctx, Normal, a, b, count);
    BurnablePerm(ctx, Preserve, a, b, count);
  }

  lemma ForTrafficShuffled(ctx: Ctx, a: seq<Account>, b: seq<Account>)
    requires Shuffled(ctx, a, b)
    ensures Shuffled(ctx, ForTraffic(ctx, a), ForTraffic(ctx, b))
  {
    if ctx.options.traffic.Opportunistic? {
      OpportunePerm(ctx, a, b);
      ForTrafficWithin(ctx, a);
      WithinIdentify(ForTraffic(ctx, a), a);
    }
  }

  /******* Order independence *******/

  lemma EligibleShuffled(ctx: Ctx, a: seq<Account>, b: seq<Account>)
    requires Shuffled(ctx, a, b) && Keep(ctx, IsAdmitted, a) != []
    ensures Shuffled(ctx, Eligible(ctx, a), Eligible(ctx, b))
  {
    KeepShuffled(ctx, IsAdmitted, a, b);
    ForTrafficShuffled(ctx, Keep(ctx, IsAdmitted, a), Keep(ctx, IsAdmitted, b));
  }

  /**
   Without the backoff fallback, reordering the accounts changes no outcome of any strategy, random draws included.
   */
  lemma OrderIndependent(ctx: Ctx, accounts: seq<Account>, shuffled: seq<Account>)
    requires Perm(accounts, shuffled) && IdsIdentify(accounts) && Injective(ctx.env.saltedDigest)
    requires SomeVerdict(ctx, accounts, Admitted)
    ensures Perm(Selectable(ctx, accounts), Selectable(ctx, shuffled))
  {
    NormalisedPerm(ctx, accounts, shuffled);
    NormalisedIdentify(ctx, accounts);
    VerdictKept(ctx, accounts);
    var a, b := Normalised(ctx, accounts), Normalised(ctx, shuffled);
    EligibleShuffled(ctx, a, b);
    ChoicesShuffled(ctx, Eligible(ctx, a), Eligible(ctx, b));
  }

  predicate Deterministic(o: Options) {
    o.deterministicProbe || !(o.strategy.CapacityWeighted? || o.strategy.RelativeAvailability?)
  }

  /** A deterministic strategy or probe has at most one outcome. */
  lemma AtMostOne(ctx: Ctx, accounts: seq<Account>)
    requires Deterministic(ctx.options)
    ensures |Selectable(ctx, accounts)| <= 1
  {
  }

  /** The deterministic strategies and probes return the very same account for any order of the input. */
  lemma SameAccount(ctx: Ctx, accounts: seq<Account>, shuffled: seq<Account>)
    requires Perm(accounts, shuffled) && IdsIdentify(accounts) && Injective(ctx.env.saltedDigest)
    requires SomeVerdict(ctx, accounts, Admitted) && Deterministic(ctx.options)
    ensures Selectable(ctx, accounts) == Selectable(ctx, shuffled)
  {
    OrderIndependent(ctx, accounts, shuffled);
    AtMostOne(ctx, accounts);
    AtMostOne(ctx, shuffled);
    OneIsSame(Selectable(ctx, accounts), Selectable(ctx, shuffled));
  }

  lemma OneIsSame(a: seq<Account>, b: seq<Account>)
    requires Perm(a, b) && |a| <= 1
    ensures a == b
  {
    PermMembers(a, b);
    if a != [] {
      assert a[0] in b;
    }
  }
}
