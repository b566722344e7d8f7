/** `select_account` on mutable account states, proved against the selection on values. */
module Selector {
  import opened Basics
  import opened Listings
  import opened Accounts
  import opened Selection
  import opened SelectionProofs
  import opened RelativeAvailabilityPruning

  function Views(states: seq<AccountState>): (r: seq<Account>)
    reads states
    ensures |r| == |states| && forall i | 0 <= i < |states| :: r[i] == states[i].View()
  {
    seq(|states|, i requires 0 <= i < |states| reads states => states[i].View())
  }

  /** The admission loop: settles every state and sorts out those that may serve and those in error backoff. */
  method AdmitAll(ctx: Ctx, states: seq<AccountState>)
    returns (available: seq<AccountState>, backoff: seq<AccountState>)
    requires Distinct(states)
    modifies states
    ensures Views(states) == Normalised(ctx, old(Views(states)))
    ensures Views(available) == Keep(ctx, IsAdmitted, Views(states)) && (forall s | s in available :: s in states)
    ensures Views(backoff) == Keep(ctx, IsBackingOff, Views(states)) && (forall s | s in backoff :: s in states)
  {
    available, backoff := [], [];
    ghost var was := Views(states);
    ghost var done: seq<Account> := [];
    for n := 0 to |states|
      invariant Progress(ctx, states, n, was, done, available, backoff) && SettledTo(ctx, was, done)
    {
      ghost var before := done;
      available, backoff, done := AdmitNext(ctx, states, n, was, before, available, backoff);
      SettledMore(ctx, was, before, done);
    }
    assert states[..|states|] == states;
    SettledAll(ctx, was, done);
    assert Views(states) == done;
  }

  /** `done` is what selection makes of the first of `was`. */
  ghost predicate SettledTo(ctx: Ctx, was: seq<Account>, done: seq<Account>) {
    |done| <= |was| && done == Normalised(ctx, was[..|done|])
  }

  lemma SettledMore(ctx: Ctx, was: seq<Account>, done: seq<Account>, more: seq<Account>)
    requires SettledTo(ctx, was, done) && |done| < |was| && more == done + [Settle(ctx, was[|done|]).account]
    ensures SettledTo(ctx, was, more)
  {
    assert was[..|more|][..|done|] == was[..|done|];
  }

  lemma SettledAll(ctx: Ctx, was: seq<Account>, done: seq<Account>)
    requires SettledTo(ctx, was, done) && |done| == |was|
    ensures done == Normalised(ctx, was)
  {
    assert was[..|done|] == was;
  }

  /** The first `n` states are settled and sorted out, the others are as they were. */
  ghost predicate Progress(ctx: Ctx, states: seq<AccountState>, n: nat, was: seq<Account>, done: seq<Account>,
                           available: seq<AccountState>, backoff: seq<AccountState>)
    reads states, available, backoff
  {
    && n == |done| <= |states| == |was|
    && (forall i | 0 <= i < |states| :: states[i].View() == if i < n then done[i] else was[i])
    && Lists(available, states[..n], Keep(ctx, IsAdmitted, done))
        && Lists(backoff, states[..n], Keep(ctx, IsBackingOff, done))
  }

  method AdmitNext(ctx: Ctx, states: seq<AccountState>, n: nat, ghost was: seq<Account>, ghost done: seq<Account>,
                   available: seq<AccountState>, backoff: seq<AccountState>)
    returns (available': seq<AccountState>, backoff': seq<AccountState>, ghost done': seq<Account>)
    requires Distinct(states) && n < |states| && Progress(ctx, states, n, was, done, available, backoff)
    modifies states[n]
    ensures Progress(ctx, states, n + 1, was, done', available', backoff')
            && done' == done + [Settle(ctx, was[n]).account]
  {
    var s := states[n];
    assert s !in states[..n];
    available', backoff' := AdmitOne(ctx, s, states[..n], done, available, backoff);
    assert states[..n + 1] == states[..n] + [s];
    done' := done + [s.View()];
  }

  /** `part` lists states of `whole` whose values are `values`. */
  ghost predicate Lists(part: seq<AccountState>, whole: seq<AccountState>, values: seq<Account>)
    reads part
  {
    |part| == |values| && forall k | 0 <= k < |part| :: part[k] in whole && part[k].View() == values[k]
  }

  /** One round of the admission loop, after the states in `prior`. */
  method AdmitOne(ctx: Ctx, s: AccountState, ghost prior: seq<AccountState>, ghost done: seq<Account>,
                  available: seq<AccountState>, backoff: seq<AccountState>)
    returns (available': seq<AccountState>, backoff': seq<AccountState>)
    requires s !in prior && Lists(available, prior, Keep(ctx, IsAdmitted, done))
            && Lists(backoff, prior, Keep(ctx, IsBackingOff, done))
    modifies s
    ensures s.View() == Settle(ctx, old(s.View())).account
    ensures Lists(available', prior + [s], Keep(ctx, IsAdmitted, done + [s.View()]))
    ensures Lists(backoff', prior + [s], Keep(ctx, IsBackingOff, done + [s.View()]))
  {
    SettleIdempotent(ctx, s.View());
    var verdict := s.Admit(ctx);
    KeepMore(ctx, IsAdmitted, done, s.View(), verdict.Admitted?);
    KeepMore(ctx, IsBackingOff, done, s.View(), verdict.Backoff?);
    available', backoff' := available, backoff;
    if verdict.Admitted? {
      available' := available + [s];
    } else if verdict.Backoff? {
      backoff' := backoff + [s];
    }
  }

  lemma KeepMore(ctx: Ctx, test: Test, pool: seq<Account>, a: Account, passes: bool)
    requires passes == Passes(ctx, test, a)
    ensures Keep(ctx, test, pool + [a]) == Keep(ctx, test, pool) + if passes then [a] else []
  {
    assert (pool + [a])[..|pool|] == pool;
  }

  /******* Random draws *******/

  /** `random.choices`: some item of positive weight. */
  method RandomChoice(pool: seq<Account>, weights: seq<real>) returns (a: Account)
    requires |pool| == |weights| && exists i :: 0 <= i < |weights| && weights[i] > 0.0
    ensures exists i :: 0 <= i < |pool| && pool[i] == a && weights[i] > 0.0
  {
    var i :| 0 <= i < |weights| && weights[i] > 0.0;
    a := pool[i];
  }

  function Credits(ctx: Ctx, pool: seq<Account>): (r: seq<real>)
    ensures |r| == |pool| && forall i | 0 <= i < |pool| :: r[i] == RemainingSecondaryCredits(ctx, pool[i])
  {
    seq(|pool|, i requires 0 <= i < |pool| => RemainingSecondaryCredits(ctx, pool[i]))
  }

  function Sum(weights: seq<real>): real {
    if weights == [] then 0.0 else Sum(weights[..|weights| - 1]) + weights[|weights| - 1]
  }

  lemma {:induction false} SumPositive(weights: seq<real>)
    requires forall i | 0 <= i < |weights| :: weights[i] >= 0.0
    ensures Sum(weights) >= 0.0 && (Sum(weights) > 0.0 <==> exists i :: 0 <= i < |weights| && weights[i] > 0.0)
    decreases |weights|
  {
    if weights == [] {
    } else {
      SumPositive(weights[..|weights| - 1]);
      assert weights[|weights| - 1] >= 0.0;
    }
  }

  lemma CreditsTotal(ctx: Ctx, pool: seq<Account>)
    ensures Sum(Credits(ctx, pool)) > 0.0 <==> Keep(ctx, HasCredits, pool) != []
    ensures Sum(Credits(ctx, pool)) > 0.0 <==> exists i :: 0 <= i < |pool| && Credits(ctx, pool)[i] > 0.0
  {
    var weights, kept := Credits(ctx, pool), Keep(ctx, HasCredits, pool);
    SumPositive(weights);
    if kept != [] {
      KeepMembers(ctx, HasCredits, pool, kept[0]);
      var i :| 0 <= i < |pool| && pool[i] == kept[0];
      assert weights[i] > 0.0;
    }
    if i :| 0 <= i < |pool| && weights[i] > 0.0 {
      KeepSome(ctx, HasCredits, pool, pool[i]);
    }
  }

  method SelectCapacityWeighted(ctx: Ctx, pool: seq<Account>) returns (a: Account)
    requires pool != []
    ensures Keep(ctx, HasCredits, pool) == [] ==> a == MinBy(ctx, Usage, pool)
    ensures Keep(ctx, HasCredits, pool) != [] ==> a in Keep(ctx, HasCredits, pool)
  {
    var weights := Credits(ctx, pool);
    var total := Sum(weights);
    CreditsTotal(ctx, pool);
    if total <= 0.0 {
      a := MinBy(ctx, Usage, pool);
    } else {
      a := RandomChoice(pool, weights);
      KeepMembers(ctx, HasCredits, pool, a);
    }
  }

  /** The loop that weighs the candidates, the sort and the cut. */
  method WeightedCandidates(ctx: Ctx, pool: seq<Account>) returns (retained: seq<Account>)
    ensures retained == Retained(ctx, pool)
  {
    var best := BestScore(ctx, pool);
    if best <= 0.0 {
      return [];
    }
    var weighted: seq<Account> := [];
    for n := 0 to |pool|
      invariant weighted == Keep(ctx, HeavyEnough(best), pool[..n])
    {
      assert pool[..n + 1] == pool[..n] + [pool[n]];
      KeepMore(ctx, HeavyEnough(best), pool[..n], pool[n], Weight(ctx, pool[n], best) >= MIN_WEIGHT);
      if Weight(ctx, pool[n], best) >= MIN_WEIGHT {
        weighted := weighted + [pool[n]];
      }
    }
    assert pool[..|pool|] == pool;
    var sorted := Sort(ctx, Heaviest(best), weighted);
    var k := if ctx.options.topK > 1 then ctx.options.topK else 1;
    retained := if k < |sorted| then sorted[..k] else sorted;
  }

  function Weights(ctx: Ctx, pool: seq<Account>, best: Positive): (r: seq<real>)
    ensures |r| == |pool| && forall i | 0 <= i < |pool| :: r[i] == Weight(ctx, pool[i], best)
  {
    seq(|pool|, i requires 0 <= i < |pool| => Weight(ctx, pool[i], best))
  }

  /** Every retained candidate has weight in the draw. */
  lemma RetainedWeighs(ctx: Ctx, pool: seq<Account>, a: Account)
    requires a in Retained(ctx, pool)
    ensures BestScore(ctx, pool) > 0.0 && Weight(ctx, a, BestScore(ctx, pool)) >= MIN_WEIGHT
  {
    RankedMembers(ctx, pool);
    assert a in Ranked(ctx, pool);
    HeavyMember(ctx, pool, a);
  }

  method SelectRelativeAvailability(ctx: Ctx, pool: seq<Account>) returns (a: Account)
    requires pool != []
    ensures Retained(ctx, pool) == [] ==> a == MinBy(ctx, Usage, pool)
    ensures Retained(ctx, pool) != [] && ctx.options.deterministicProbe ==> a == Retained(ctx, pool)[0]
    ensures Retained(ctx, pool) != [] ==> a in Retained(ctx, pool)
  {
    var retained := WeightedCandidates(ctx, pool);
    if retained == [] {
      return MinBy(ctx, Usage, pool);
    }
    if ctx.options.deterministicProbe {
      return retained[0];
    }
    RetainedWeighs(ctx, pool, retained[0]);
    var weights := Weights(ctx, retained, BestScore(ctx, pool));
    assert weights[0] > 0.0;
    a := RandomChoice(retained, weights);
  }

  /******* Choosing *******/

  method Draw(ctx: Ctx, pool: seq<Account>) returns (a: Account)
    requires pool != []
    ensures a in Drawn(ctx, pool)
  {
    match ctx.options.strategy {
      case SingleAccount => a := MinBy(ctx, ById, pool);
      case SequentialDrain => a := MinBy(ctx, Drain, pool);
      case ResetDrain => a := MinBy(ctx, ResetDrainRule, pool);
      case RoundRobin => a := MinBy(ctx, RoundRobinRule, pool);
      case UsageWeighted => a := MinBy(ctx, UsageRule(ctx.options), pool);
      case FillFirst =>
        CandidatesPick(ctx, pool);
        a := MinBy(ctx, Fill, Candidates(ctx, pool));
      case CapacityWeighted =>
        CandidatesPick(ctx, pool);
        var candidates := Candidates(ctx, pool);
        if ctx.options.deterministicProbe {
          a := MinBy(ctx, CapacityProbe, candidates);
        } else {
          LowestCostPick(ctx, candidates);
          a := SelectCapacityWeighted(ctx, LowestCost(ctx, candidates));
        }
      case RelativeAvailability =>
        LowestCostPick(ctx, pool);
        a := SelectRelativeAvailability(ctx, LowestCost(ctx, pool));
    }
  }

  /** Tiers, due probes and policies, then the strategy. */
  method Choose(ctx: Ctx, available: seq<Account>) returns (r: Option<Account>)
    requires available != []
    ensures r.None? <==> Choices(ctx, available) == []
    ensures r.Some? ==> r.value in Choices(ctx, available)
  {
    ChoicesPick(ctx, available);
    var a;
    if TierBlind(ctx.options.strategy) {
      a := Draw(ctx, available);
      return Some(a);
    }
    if ctx.options.recoveryProbeOnly && DueProbes(ctx, available) == [] {
      return None;
    }
    var health := HealthPool(ctx, available);
    HealthPoolPicks(ctx, available);
    PolicyPoolPicks(ctx, health);
    a := Draw(ctx, PolicyPool(ctx, health));
    r := Some(a);
  }

  method PoolFor(ctx: Ctx, available: seq<Account>) returns (pool: seq<Account>)
    ensures pool == ForTraffic(ctx, available)
  {
    pool := available;
    if ctx.options.traffic.Opportunistic? {
      pool := FilterOpportunisticCandidates(ctx, available);
    }
  }

  /** The state whose value was chosen. */
  method StateOf(states: seq<AccountState>, a: Account) returns (s: AccountState)
    requires a in Views(states)
    ensures s in states && s.View() == a
  {
    var i :| 0 <= i < |states| && states[i].View() == a;
    s := states[i];
  }

  /** The part of the selection that only reads. */
  method Decide(ctx: Ctx, all: seq<Account>, available: seq<Account>, backoff: seq<Account>,
                ghost accounts: seq<Account>) returns (r: Option<Account>)
    requires all == Normalised(ctx, accounts)
    requires available == Keep(ctx, IsAdmitted, all) && backoff == Keep(ctx, IsBackingOff, all)
    ensures r.None? <==> Selectable(ctx, accounts) == []
    ensures r.Some? ==> r.value in Selectable(ctx, accounts) && r.value in all
  {
    ChoicesPick(ctx, Eligible(ctx, all));
    var pool: seq<Account>;
    if available != [] {
      pool := PoolFor(ctx, available);
    } else if FallbackAllowed(ctx, all, backoff) {
      pool := PoolFor(ctx, [MinBy(ctx, Expiry, backoff)]);
    } else {
      return None;
    }
    if pool == [] {
      return None;
    }
    r := Choose(ctx, pool);
    if r.Some? {
      EligibleMembers(ctx, all, r.value);
    }
  }

  method SelectAccount(ctx: Ctx, states: seq<AccountState>) returns (selected: Option<AccountState>)
    requires Distinct(states)
    modifies states
    ensures Views(states) == Normalised(ctx, old(Views(states)))
    ensures selected.None? <==> Selectable(ctx, old(Views(states))) == []
    ensures selected.Some? ==> selected.value in states && selected.value.View() in Selectable(ctx, old(Views(states)))
  {
    ghost var accounts := Views(states);
    var available, backoff := AdmitAll(ctx, states);
    var chosen := Decide(ctx, Views(states), Views(available), Views(backoff), accounts);
    if chosen.None? {
      return None;
    }
    var s := StateOf(states, chosen.value);
    selected := Some(s);
  }
}
