/**
 Bounded wait for recovery: a due probing account is chosen within as many selections as there are probing accounts.
 */
module Probing {
  import opened Basics
  import opened Listings
  import opened Accounts
  import opened SortKeys
  import opened Selection
  import opened SelectionProofs

  /** When each eligible probing account was last selected. */
  type Stamps = map<string, Option<real>>

  /** One selection: the eligible pool, what it knows of its probing accounts, and the account chosen. */
  datatype Round = Round(ctx: Ctx, pool: seq<Account>, stamps: Stamps, chosen: Account)

  ghost predicate IsProbe(pool: seq<Account>, a: Account) { a in pool && a.profile.healthTier == PROBING }

  ghost predicate Matches(pool: seq<Account>, stamps: Stamps) {
    && (forall a | IsProbe(pool, a) :: a.profile.id in stamps && stamps[a.profile.id] == a.profile.lastSelectedAt)
    && (forall id | id in stamps :: exists a :: IsProbe(pool, a) && a.profile.id == id)
  }

  /** A selection that respects health tiers, from a pool with a healthy account. */
  ghost predicate Proper(r: Round) {
    && !TierBlind(r.ctx.options.strategy) && r.chosen in Choices(r.ctx, r.pool) && Matches(r.pool, r.stamps)
    && (exists h :: h in r.pool && h.profile.healthTier == HEALTHY)
  }

  function Stamped(r: Round): Stamps {
    if r.chosen.profile.id in r.stamps then r.stamps[r.chosen.profile.id := Some(r.ctx.now)] else r.stamps
  }

  /** Time does not run backwards, and between selections only the chosen account's stamp changes. */
  ghost predicate Follows(r: Round, next: Round) {
    r.ctx.now <= next.ctx.now && next.stamps == Stamped(r)
  }

  ghost predicate Run(rounds: seq<Round>) {
    && (forall k | 0 <= k < |rounds| :: Proper(rounds[k]))
    && (forall k | 0 < k < |rounds| :: Follows(rounds[k - 1], rounds[k]))
  }

  predicate StampDue(now: real, stamp: Option<real>) { stamp.None? || now - stamp.value >= PROBE_QUIET }

  function ProbeKey(stamp: Option<real>, id: string): Key {
    (if stamp.None? then [0.0, 0.0] else [1.0, stamp.value]) + Codes(id)
  }

  predicate IsAhead(stamps: Stamps, y: string, x: string)
    requires x in stamps
  {
    y in stamps && y != x && Le(ProbeKey(stamps[y], y), ProbeKey(stamps[x], x))
  }

  /** The probing accounts that take precedence over `x`. */
  ghost function Ahead(stamps: Stamps, x: string): set<string>
    requires x in stamps
  {
    set y | y in stamps && IsAhead(stamps, y, x)
  }

  lemma KeyIsProbeKey(ctx: Ctx, a: Account)
    ensures KeyOf(ctx, OldestProbe, a) == ProbeKey(a.profile.lastSelectedAt, a.profile.id)
  {
  }

  lemma DueMember(ctx: Ctx, pool: seq<Account>, a: Account)
    ensures a in DueProbes(ctx, pool) <==> IsProbe(pool, a) && ProbeDue(ctx, a)
  {
    KeepMembers(ctx, TierIs(PROBING), pool, a);
    KeepMembers(ctx, IsDue, Keep(ctx, TierIs(PROBING), pool), a);
  }

  /** Whatever the strategy and the policies, a proper round with a due probe chooses the oldest one. */
  lemma OldestIsChosen(r: Round)
    requires Proper(r) && DueProbes(r.ctx, r.pool) != []
    ensures r.chosen == MinBy(r.ctx, OldestProbe, DueProbes(r.ctx, r.pool))
    ensures Least(r.ctx, OldestProbe, DueProbes(r.ctx, r.pool), r.chosen)
  {
    ChoicesRespectHealth(r.ctx, r.pool);
    var h :| h in r.pool && h.profile.healthTier == HEALTHY;
    KeepSome(r.ctx, TierIs(HEALTHY), r.pool, h);
    MinByLeast(r.ctx, OldestProbe, DueProbes(r.ctx, r.pool));
  }

  /** While `x` is due, the choice is `x` or one of those ahead of it. */
  lemma ChosenIsAhead(r: Round, x: string)
    requires Proper(r) && x in r.stamps && StampDue(r.ctx.now, r.stamps[x])
    ensures r.chosen.profile.id in r.stamps
    ensures r.chosen.profile.id == x || r.chosen.profile.id in Ahead(r.stamps, x)
  {
    var a :| IsProbe(r.pool, a) && a.profile.id == x;
    DueMember(r.ctx, r.pool, a);
    OldestIsChosen(r);
    DueMember(r.ctx, r.pool, r.chosen);
    KeyIsProbeKey(r.ctx, r.chosen);
    KeyIsProbeKey(r.ctx, a);
    assert Before(r.ctx, OldestProbe, r.chosen, a);
  }

  lemma FreshStampIsLast(now: real, stamp: Option<real>, y: string, x: string)
    requires StampDue(now, stamp)
    ensures !Le(ProbeKey(Some(now), y), ProbeKey(stamp, x))
  {
    var k, l := ProbeKey(Some(now), y), ProbeKey(stamp, x);
    assert k[0] == 1.0 && k[1] == now;
    if stamp.Some? {
      assert l[0] == 1.0 && l[1] == stamp.value;
      assert k[1..][0] == now && l[1..][0] == stamp.value;
    }
  }

  /** Each round that passes `x` over takes one account out of its way. */
  lemma AheadShrinks(r: Round, x: string)
    requires Proper(r) && x in r.stamps && StampDue(r.ctx.now, r.stamps[x]) && r.chosen.profile.id != x
    ensures x in Stamped(r) && Stamped(r)[x] == r.stamps[x]
    ensures Ahead(Stamped(r), x) == Ahead(r.stamps, x) - {r.chosen.profile.id}
    ensures |Ahead(Stamped(r), x)| < |Ahead(r.stamps, x)|
  {
    ChosenIsAhead(r, x);
    var c := r.chosen.profile.id;
    FreshStampIsLast(r.ctx.now, r.stamps[x], c, x);
    forall y
      ensures y in Ahead(Stamped(r), x) <==> y in Ahead(r.stamps, x) - {c}
    {
    }
  }

  lemma RunTail(rounds: seq<Round>)
    requires Run(rounds) && rounds != []
    ensures Run(rounds[1..])
  {
    var rest := rounds[1..];
    forall k | 0 < k < |rest|
      ensures Follows(rest[k - 1], rest[k])
    {
      assert Follows(rounds[k], rounds[k + 1]);
    }
  }

  lemma {:induction false} ChosenBehindAhead(rounds: seq<Round>, x: string) returns (k: nat)
    requires rounds != [] && Run(rounds) && x in rounds[0].stamps && StampDue(rounds[0].ctx.now, rounds[0].stamps[x])
    requires |rounds| > |Ahead(rounds[0].stamps, x)|
    ensures k <= |Ahead(rounds[0].stamps, x)| && rounds[k].chosen.profile.id == x
    decreases |rounds|
  {
    var r := rounds[0];
    k := 0;
    if r.chosen.profile.id != x {
      AheadShrinks(r, x);
      RunTail(rounds);
      assert Follows(rounds[0], rounds[1]);
      var n := ChosenBehindAhead(rounds[1..], x);
      k := n + 1;
    }
  }

  lemma AheadIsFewer(stamps: Stamps, x: string)
    requires x in stamps
    ensures |Ahead(stamps, x)| < |stamps|
  {
    var ahead := Ahead(stamps, x);
    SubsetSize(ahead, stamps.Keys - {x});
  }

  /** Every due probing account is chosen within as many selections as there are probing accounts. */
  lemma BoundedWait(rounds: seq<Round>, x: string)
    requires rounds != [] && Run(rounds) && x in rounds[0].stamps && StampDue(rounds[0].ctx.now, rounds[0].stamps[x])
    requires |rounds| >= |rounds[0].stamps|
    ensures exists k :: 0 <= k < |rounds[0].stamps| && rounds[k].chosen.profile.id == x
  {
    AheadIsFewer(rounds[0].stamps, x);
    var k := ChosenBehindAhead(rounds, x);
  }
}
