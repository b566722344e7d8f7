/** The backoff fallback is the one place where the order of the input can matter, and exactly when it does. */
module FallbackOrder {
  import opened Basics
  import opened Accounts
  import opened SortKeys
  import opened Listings
  import opened Selection
  import opened SelectionProofs
  import opened SelectionOrder

  function BackingOff(ctx: Ctx, accounts: seq<Account>): seq<Account> {
    Keep(ctx, IsBackingOff, Normalised(ctx, accounts))
  }

  ghost predicate FallsBack(ctx: Ctx, accounts: seq<Account>) {
    !SomeVerdict(ctx, accounts, Admitted) && FallbackAllowed(ctx, Normalised(ctx, accounts), BackingOff(ctx, accounts))
  }

  lemma ObstructsPerm(x: Account, a: seq<Account>, b: seq<Account>)
    requires Perm(a, b) && Obstructs(x, a)
    ensures Obstructs(x, b)
  {
    PermMembers(a, b);
    forall i | 0 <= i < |b|
      ensures b[i].profile.id != x.profile.id
    {
      assert b[i] in a;
    }
  }

  lemma FallbackPerm(ctx: Ctx, a: seq<Account>, b: seq<Account>, c: seq<Account>, d: seq<Account>)
    requires Perm(a, b) && Perm(c, d) && FallbackAllowed(ctx, a, c)
    ensures FallbackAllowed(ctx, b, d)
  {
    PermMembers(a, b);
    PermMembers(c, d);
    if |c| == 1 {
      var i :| 0 <= i < |a| && Obstructs(a[i], c);
      ObstructsPerm(a[i], c, d);
      assert a[i] in b;
      var j :| 0 <= j < |b| && b[j] == a[i];
    }
  }

  lemma FallsBackPerm(ctx: Ctx, accounts: seq<Account>, shuffled: seq<Account>)
    requires Perm(accounts, shuffled) && FallsBack(ctx, accounts)
    ensures FallsBack(ctx, shuffled) && Perm(BackingOff(ctx, accounts), BackingOff(ctx, shuffled))
  {
    PermMembers(accounts, shuffled);
    NormalisedPerm(ctx, accounts, shuffled);
    var a, b := Normalised(ctx, accounts), Normalised(ctx, shuffled);
    KeepPerm(ctx, IsBackingOff, a, b);
    FallbackPerm(ctx, a, b, BackingOff(ctx, accounts), BackingOff(ctx, shuffled));
  }

  lemma FallbackEligible(ctx: Ctx, accounts: seq<Account>)
    requires FallsBack(ctx, accounts)
    ensures BackingOff(ctx, accounts) != []
    ensures Selectable(ctx, accounts) == Choices(ctx, ForTraffic(ctx, [MinBy(ctx, Expiry, BackingOff(ctx, accounts))]))
  {
    VerdictKept(ctx, accounts);
  }

  lemma {:induction false} KeepFirst(ctx: Ctx, test: Test, pool: seq<Account>)
    requires pool != [] && Passes(ctx, test, pool[0])
    ensures Keep(ctx, test, pool) != [] && Keep(ctx, test, pool)[0] == pool[0]
    decreases |pool|
  {
    if |pool| <= 1 {
    } else {
      KeepFirst(ctx, test, pool[..|pool| - 1]);
    }
  }

  /** The listing in which the account behind `x` comes first. */
  lemma MovedFirst(ctx: Ctx, accounts: seq<Account>, x: Account) returns (moved: seq<Account>)
    requires x in Normalised(ctx, accounts)
    ensures Perm(accounts, moved) && moved != [] && Normalised(ctx, moved)[0] == x
  {
    var i :| 0 <= i < |accounts| && Normalised(ctx, accounts)[i] == x;
    moved := [accounts[i]] + (accounts[..i] + accounts[i + 1..]);
    Removed(accounts, i);
    NormalisedAt(ctx, accounts, i);
    NormalisedAt(ctx, moved, 0);
  }

  /******* Being chosen alone *******/

  /**
   Whether an account is chosen when it alone is the fallback pool: opportunistic traffic wants it above its own floors,
   and a recovery probe under a strategy that respects health tiers wants a due probing account.
   */
  predicate ChosenAlone(ctx: Ctx, x: Account) {
    && (ctx.options.traffic.Opportunistic? ==>
          if RoutingPolicy(x).Preserve? then PreserveAllows(ctx, x, 1) else AboveEmergencyFloor(x))
    && (ctx.options.recoveryProbeOnly && !TierBlind(ctx.options.strategy) ==>
          x.profile.healthTier == PROBING && ProbeDue(ctx, x))
  }

  lemma KeepOne(ctx: Ctx, test: Test, x: Account)
    ensures Keep(ctx, test, [x]) == if Passes(ctx, test, x) then [x] else []
  {
    assert [x][..0] == [];
  }

  /** Alone in the pool, an account leaves no other usable one. */
  lemma ExpendableAlone(ctx: Ctx, x: Account)
    ensures Expendable(ctx, x, [x], PreserveCount(ctx, [x])) <==>
              if RoutingPolicy(x).Preserve? then PreserveAllows(ctx, x, 1) else AboveEmergencyFloor(x)
  {
    KeepOne(ctx, PolicyIs(Preserve), x);
  }

  lemma BurnableAlone(ctx: Ctx, which: Policy, x: Account, count: nat)
    ensures Keep(ctx, Burnable(which, [x], count), [x]) ==
              if RoutingPolicy(x) == which && Expendable(ctx, x, [x], count) then [x] else []
  {
    KeepOne(ctx, Burnable(which, [x], count), x);
  }

  lemma OpportuneAlone(ctx: Ctx, x: Account)
    ensures Opportune(ctx, [x]) == if Expendable(ctx, x, [x], PreserveCount(ctx, [x])) then [x] else []
  {
    var count := PreserveCount(ctx, [x]);
    BurnableAlone(ctx, BurnFirst, x, count);
    BurnableAlone(ctx, Normal, x, count);
    BurnableAlone(ctx, Preserve, x, count);
  }

  lemma SoleChoice(ctx: Ctx, x: Account)
    ensures var outcomes := Choices(ctx, ForTraffic(ctx, [x]));
            (outcomes != [] <==> ChosenAlone(ctx, x)) && forall y | y in outcomes :: y == x
  {
    OpportuneAlone(ctx, x);
    ExpendableAlone(ctx, x);
    var pool := ForTraffic(ctx, [x]);
    ChoicesPick(ctx, pool);
    DueExists(ctx, pool);
  }

  /** Listed first, an account nearest to recovery is the fallback. */
  lemma FallbackPicksFirst(ctx: Ctx, accounts: seq<Account>, x: Account) returns (moved: seq<Account>)
    requires FallsBack(ctx, accounts) && Least(ctx, Expiry, BackingOff(ctx, accounts), x)
    ensures Perm(accounts, moved) && Selectable(ctx, moved) == Choices(ctx, ForTraffic(ctx, [x]))
  {
    KeepMembers(ctx, IsBackingOff, Normalised(ctx, accounts), x);
    moved := MovedFirst(ctx, accounts, x);
    FallsBackPerm(ctx, accounts, moved);
    var backoff := BackingOff(ctx, moved);
    KeepFirst(ctx, IsBackingOff, Normalised(ctx, moved));
    PermMembers(BackingOff(ctx, accounts), backoff);
    MinOfFirst(Order(ctx, Expiry), backoff);
    FallbackEligible(ctx, moved);
  }

  /******* When the order matters *******/

  /** Two different accounts are nearest to recovery and at least one of them would be chosen. */
  ghost predicate ContestedRecovery(ctx: Ctx, backoff: seq<Account>) {
    exists x, y ::
      && Least(ctx, Expiry, backoff, x) && Least(ctx, Expiry, backoff, y) && x != y
      && (ChosenAlone(ctx, x) || ChosenAlone(ctx, y))
  }

  ghost predicate OrderIrrelevant(ctx: Ctx, accounts: seq<Account>) {
    forall shuffled | Perm(accounts, shuffled) :: Perm(Selectable(ctx, accounts), Selectable(ctx, shuffled))
  }

  /** The fallback of a listing is a least account, so its outcomes are that account's alone. */
  lemma FallbackOutcomes(ctx: Ctx, accounts: seq<Account>) returns (x: Account)
    requires FallsBack(ctx, accounts)
    ensures Least(ctx, Expiry, BackingOff(ctx, accounts), x)
    ensures Selectable(ctx, accounts) == Choices(ctx, ForTraffic(ctx, [x]))
  {
    FallbackEligible(ctx, accounts);
    x := MinBy(ctx, Expiry, BackingOff(ctx, accounts));
    MinByLeast(ctx, Expiry, BackingOff(ctx, accounts));
  }

  lemma UncontestedSuffices(ctx: Ctx, accounts: seq<Account>, shuffled: seq<Account>)
    requires FallsBack(ctx, accounts) && !ContestedRecovery(ctx, BackingOff(ctx, accounts)) && Perm(accounts, shuffled)
    ensures Selectable(ctx, accounts) == Selectable(ctx, shuffled)
  {
    FallsBackPerm(ctx, accounts, shuffled);
    PermMembers(BackingOff(ctx, accounts), BackingOff(ctx, shuffled));
    var x := FallbackOutcomes(ctx, accounts);
    var y := FallbackOutcomes(ctx, shuffled);
    assert Least(ctx, Expiry, BackingOff(ctx, accounts), y);
    SoleChoice(ctx, x);
    SoleChoice(ctx, y);
  }

  lemma ContestedMatters(ctx: Ctx, accounts: seq<Account>, x: Account, y: Account)
    requires FallsBack(ctx, accounts) && OrderIrrelevant(ctx, accounts)
    requires Least(ctx, Expiry, BackingOff(ctx, accounts), x) && Least(ctx, Expiry, BackingOff(ctx, accounts), y)
    requires ChosenAlone(ctx, x)
    ensures x == y
  {
    var first := FallbackPicksFirst(ctx, accounts, x);
    var second := FallbackPicksFirst(ctx, accounts, y);
    SoleChoice(ctx, x);
    SoleChoice(ctx, y);
    PermMembers(Selectable(ctx, accounts), Selectable(ctx, first));
    PermMembers(Selectable(ctx, accounts), Selectable(ctx, second));
    assert Selectable(ctx, first)[0] in Selectable(ctx, first);
  }

  lemma IrrelevantIsUncontested(ctx: Ctx, accounts: seq<Account>, x: Account, y: Account)
    requires FallsBack(ctx, accounts) && OrderIrrelevant(ctx, accounts)
    requires Least(ctx, Expiry, BackingOff(ctx, accounts), x) && Least(ctx, Expiry, BackingOff(ctx, accounts), y)
    ensures x == y || (!ChosenAlone(ctx, x) && !ChosenAlone(ctx, y))
  {
    if x == y {
    } else if ChosenAlone(ctx, x) {
      ContestedMatters(ctx, accounts, x, y);
    } else if ChosenAlone(ctx, y) {
      ContestedMatters(ctx, accounts, y, x);
    }
  }

  lemma UncontestedIsIrrelevant(ctx: Ctx, accounts: seq<Account>)
    requires FallsBack(ctx, accounts) && !ContestedRecovery(ctx, BackingOff(ctx, accounts))
    ensures OrderIrrelevant(ctx, accounts)
  {
    forall shuffled | Perm(accounts, shuffled)
      ensures Perm(Selectable(ctx, accounts), Selectable(ctx, shuffled))
    {
      UncontestedSuffices(ctx, accounts, shuffled);
    }
  }

  /**
   When a call falls back, for any traffic and any probe mode, every order of the input has the same outcomes unless two
   accounts tie for the next recovery and at least one of them would be chosen alone; then some orders differ.
   */
  lemma FallbackOrderMatters(ctx: Ctx, accounts: seq<Account>)
    requires FallsBack(ctx, accounts)
    ensures OrderIrrelevant(ctx, accounts) <==> !ContestedRecovery(ctx, BackingOff(ctx, accounts))
  {
    if !ContestedRecovery(ctx, BackingOff(ctx, accounts)) {
      UncontestedIsIrrelevant(ctx, accounts);
    } else if OrderIrrelevant(ctx, accounts) {
      forall x, y | Least(ctx, Expiry, BackingOff(ctx, accounts), x) && Least(ctx, Expiry, BackingOff(ctx, accounts), y)
        ensures x == y || (!ChosenAlone(ctx, x) && !ChosenAlone(ctx, y))
      {
        IrrelevantIsUncontested(ctx, accounts, x, y);
      }
    }
  }

  /** When the error backoff of an account ends. */
  function BackoffEnds(a: Account): real
    requires a.errorCount >= 3 && a.lastErrorAt.Some?
  {
    a.lastErrorAt.value + (if 30 * Pow2(a.errorCount - 3) < 300 then 30 * Pow2(a.errorCount - 3) else 300) as real
  }

  lemma BackingOffFields(ctx: Ctx, all: seq<Account>, a: Account)
    requires a in Keep(ctx, IsBackingOff, all) && Settle(ctx, a).account == a
    ensures a.errorCount >= 3 && a.lastErrorAt.Some? && Numbers(ctx, Expiry, a) == [BackoffEnds(a)]
  {
    KeepMembers(ctx, IsBackingOff, all, a);
  }

  /** The fallback is the account whose error backoff ends first. */
  lemma FallbackIsNearest(ctx: Ctx, accounts: seq<Account>, r: Account, b: Account)
    requires FallsBack(ctx, accounts) && r in Selectable(ctx, accounts) && b in BackingOff(ctx, accounts)
    ensures r.errorCount >= 3 && r.lastErrorAt.Some? && b.errorCount >= 3 && b.lastErrorAt.Some?
    ensures BackoffEnds(r) <= BackoffEnds(b)
  {
    var x := FallbackOutcomes(ctx, accounts);
    SoleChoice(ctx, x);
    var all := Normalised(ctx, accounts);
    KeepMembers(ctx, IsBackingOff, all, r);
    KeepMembers(ctx, IsBackingOff, all, b);
    var a := Origin(ctx, accounts, r);
    SettleIdempotent(ctx, a);
    var a' := Origin(ctx, accounts, b);
    SettleIdempotent(ctx, a');
    BackingOffFields(ctx, all, r);
    BackingOffFields(ctx, all, b);
    assert Before(ctx, Expiry, r, b);
    LeNumbersFirst(Numbers(ctx, Expiry, r), Numbers(ctx, Expiry, b), Tail(Expiry, r), Tail(Expiry, b));
  }

  /******* A tie *******/

  /** An active account whose third error was at time 100. */
  function Erring(id: string): Account {
    Account(Profile(id, None, None, None, None, None, HEALTHY, None, None, None, None, false, Normal, false),
            Active, None, None, None, None, None, Some(100.0), 3)
  }

  lemma KeepPair(ctx: Ctx, test: Test, x: Account, y: Account)
    ensures Keep(ctx, test, [x, y]) == (if Passes(ctx, test, x) then [x] else []) + if Passes(ctx, test, y) then [y]
            else []
  {
    assert [x, y][..1] == [x] && [x][..0] == [];
    assert Keep(ctx, test, [x]) == if Passes(ctx, test, x) then [x] else [];
  }

  lemma NormalisedPair(ctx: Ctx, x: Account, y: Account)
    requires Settle(ctx, x).account == x && Settle(ctx, y).account == y
    ensures Normalised(ctx, [x, y]) == [x, y]
  {
    NormalisedAt(ctx, [x, y], 0);
    NormalisedAt(ctx, [x, y], 1);
  }

  lemma TiedMin(ctx: Ctx, x: Account, y: Account)
    requires KeyOf(ctx, Expiry, x) == KeyOf(ctx, Expiry, y)
    ensures MinBy(ctx, Expiry, [x, y]) == x
  {
    var key := Order(ctx, Expiry);
    LeTotal(key(x), key(x));
    assert LeastOf(key, [x, y], [x, y][0]);
    MinOfFirst(key, [x, y]);
  }

  /** The fallback takes the first of two accounts that tie. */
  lemma TieTakesFirst(ctx: Ctx, x: Account, y: Account)
    requires Settle(ctx, x) == Settled(x, Backoff) && Settle(ctx, y) == Settled(y, Backoff)
            && KeyOf(ctx, Expiry, x) == KeyOf(ctx, Expiry, y)
    requires ctx.options.traffic.Foreground? && ctx.options.strategy.SingleAccount? && ctx.options.allowBackoffFallback
    ensures Selectable(ctx, [x, y]) == [x]
  {
    NormalisedPair(ctx, x, y);
    KeepPair(ctx, IsAdmitted, x, y);
    KeepPair(ctx, IsBackingOff, x, y);
    TiedMin(ctx, x, y);
    assert Eligible(ctx, [x, y]) == [x];
  }

  /** Two accounts that failed at the same time: the order of the input decides. */
  lemma TieDependsOnOrder(env: Env)
    requires !env.isFree(None)
    ensures var o :=
            Options(false, Secondary, SingleAccount, true, false, false, 5, false, Foreground, false, false, None,
            map[]);
            var ctx := Ctx(env, o, 101.0);
            Selectable(ctx, [Erring("a"), Erring("b")]) == [Erring("a")]
                && Selectable(ctx, [Erring("b"), Erring("a")]) == [Erring("b")]
  {
    var o := Options(false, Secondary, SingleAccount, true, false, false, 5, false, Foreground, false, false, None,
        map[]);
    var ctx := Ctx(env, o, 101.0);
    var x, y := Erring("a"), Erring("b");
    assert BackoffSeconds(3) == 30;
    assert Settle(ctx, x) == Settled(x, Backoff) && Settle(ctx, y) == Settled(y, Backoff);
    assert KeyOf(ctx, Expiry, x) == [130.0] == KeyOf(ctx, Expiry, y);
    TieTakesFirst(ctx, x, y);
    TieTakesFirst(ctx, y, x);
  }
}
