/** Relative-availability pruning keeps the best candidates. */
module RelativeAvailabilityPruning {
  import opened Accounts
  import opened SortKeys
  import opened Listings
  import opened Selection
  import opened SelectionProofs
  import opened SelectionOrder

  /** A strictly increasing power on [0, 1] that fixes both ends, as x ** p with p > 0 is. */
  ghost predicate IsPower(f: real -> real) {
    f(0.0) == 0.0 && f(1.0) == 1.0 && forall x, y | 0.0 <= x < y <= 1.0 :: f(x) < f(y)
  }

  lemma Normal(ctx: Ctx, pool: seq<Account>, a: Account)
    requires a in pool && BestScore(ctx, pool) > 0.0
    ensures 0.0 <= RawScore(ctx, a) / BestScore(ctx, pool) <= 1.0
  {
    BestScoreBound(ctx, pool, a);
    Ratio(RawScore(ctx, a), BestScore(ctx, pool));
  }

  lemma Ratio(x: real, y: real)
    requires 0.0 <= x <= y && y > 0.0
    ensures 0.0 <= x / y <= 1.0
  {
    assert x / y * y == x;
  }

  lemma RatioLess(x: real, y: real, best: real)
    requires x < y && best > 0.0
    ensures x / best < y / best
  {
    assert x / best * best == x && y / best * best == y;
  }

  /** Weights order candidates as their scores do. */
  lemma WeightMonotone(ctx: Ctx, pool: seq<Account>, a: Account, b: Account)
    requires IsPower(ctx.env.power) && BestScore(ctx, pool) > 0.0 && a in pool && b in pool
    ensures Weight(ctx, a, BestScore(ctx, pool)) >= Weight(ctx, b, BestScore(ctx, pool)) ==>
            RawScore(ctx, a) >= RawScore(ctx, b)
    ensures 0.0 <= Weight(ctx, a, BestScore(ctx, pool)) <= 1.0
  {
    var best := BestScore(ctx, pool);
    Normal(ctx, pool, a);
    Normal(ctx, pool, b);
    if RawScore(ctx, a) < RawScore(ctx, b) {
      RatioLess(RawScore(ctx, a), RawScore(ctx, b), best);
    }
  }

  function Heavy(ctx: Ctx, pool: seq<Account>): seq<Account>
    requires BestScore(ctx, pool) > 0.0
  {
    Keep(ctx, HeavyEnough(BestScore(ctx, pool)), pool)
  }

  function Ranked(ctx: Ctx, pool: seq<Account>): seq<Account>
    requires BestScore(ctx, pool) > 0.0
  {
    Sort(ctx, Heaviest(BestScore(ctx, pool)), Heavy(ctx, pool))
  }

  lemma RankedMembers(ctx: Ctx, pool: seq<Account>)
    requires BestScore(ctx, pool) > 0.0
    ensures Perm(Ranked(ctx, pool), Heavy(ctx, pool))
    ensures forall a :: a in Ranked(ctx, pool) <==> a in Heavy(ctx, pool)
  {
    SortPermutes(Order(ctx, Heaviest(BestScore(ctx, pool))), Heavy(ctx, pool));
    PermMembers(Ranked(ctx, pool), Heavy(ctx, pool));
  }

  lemma HeavyMember(ctx: Ctx, pool: seq<Account>, a: Account)
    requires BestScore(ctx, pool) > 0.0
    ensures a in Heavy(ctx, pool) <==> a in pool && Weight(ctx, a, BestScore(ctx, pool)) >= 0.1
  {
    KeepMembers(ctx, HeavyEnough(BestScore(ctx, pool)), pool, a);
  }

  lemma BeforeIsHeavier(ctx: Ctx, best: Positive, a: Account, b: Account)
    requires Before(ctx, Heaviest(best), a, b)
    ensures Weight(ctx, a, best) >= Weight(ctx, b, best)
  {
    var k, l := KeyOf(ctx, Heaviest(best), a), KeyOf(ctx, Heaviest(best), b);
    assert k[0] == -Weight(ctx, a, best) && l[0] == -Weight(ctx, b, best);
  }

  lemma RankedDescends(ctx: Ctx, pool: seq<Account>, i: nat, j: nat)
    requires IsPower(ctx.env.power) && BestScore(ctx, pool) > 0.0 && i <= j < |Ranked(ctx, pool)|
    ensures RawScore(ctx, Ranked(ctx, pool)[i]) >= RawScore(ctx, Ranked(ctx, pool)[j])
  {
    var best, ranked := BestScore(ctx, pool), Ranked(ctx, pool);
    if i < j {
      SortOrders(Order(ctx, Heaviest(best)), Heavy(ctx, pool));
      BeforeIsHeavier(ctx, best, ranked[i], ranked[j]);
      RankedMembers(ctx, pool);
      assert ranked[i] in ranked && ranked[j] in ranked;
      HeavyMember(ctx, pool, ranked[i]);
      HeavyMember(ctx, pool, ranked[j]);
      WeightMonotone(ctx, pool, ranked[i], ranked[j]);
    }
  }

  function Limit(ctx: Ctx): nat { if ctx.options.topK > 1 then ctx.options.topK else 1 }

  lemma WholeRatio(x: real)
    requires x > 0.0
    ensures x / x == 1.0
  {
  }

  lemma BestIsHeavy(ctx: Ctx, pool: seq<Account>) returns (x: Account)
    requires IsPower(ctx.env.power) && BestScore(ctx, pool) > 0.0
    ensures x in Heavy(ctx, pool) && RawScore(ctx, x) == BestScore(ctx, pool)
  {
    BestScoreAttained(ctx, pool);
    x :| x in pool && RawScore(ctx, x) == BestScore(ctx, pool);
    WholeRatio(RawScore(ctx, x));
    HeavyMember(ctx, pool, x);
  }

  /** The heaviest candidate is a best scorer. */
  lemma RankedStartsBest(ctx: Ctx, pool: seq<Account>)
    requires IsPower(ctx.env.power) && BestScore(ctx, pool) > 0.0
    ensures Ranked(ctx, pool) != [] && RawScore(ctx, Ranked(ctx, pool)[0]) == BestScore(ctx, pool)
  {
    var ranked := Ranked(ctx, pool);
    var x := BestIsHeavy(ctx, pool);
    RankedMembers(ctx, pool);
    assert x in ranked;
    var j :| 0 <= j < |ranked| && ranked[j] == x;
    RankedDescends(ctx, pool, 0, j);
    assert ranked[0] in ranked;
    HeavyMember(ctx, pool, ranked[0]);
    BestScoreBound(ctx, pool, ranked[0]);
  }

  /** Nothing dropped scores higher than anything retained. */
  lemma DroppedIsNoBetter(ctx: Ctx, pool: seq<Account>, kept: Account, dropped: Account)
    requires IsPower(ctx.env.power) && BestScore(ctx, pool) > 0.0
    requires kept in Retained(ctx, pool) && dropped in pool && dropped !in Retained(ctx, pool)
    ensures RawScore(ctx, dropped) <= RawScore(ctx, kept)
  {
    var ranked, retained := Ranked(ctx, pool), Retained(ctx, pool);
    RankedMembers(ctx, pool);
    var i :| 0 <= i < |retained| && retained[i] == kept;
    assert ranked[i] == kept && kept in ranked;
    HeavyMember(ctx, pool, kept);
    HeavyMember(ctx, pool, dropped);
    if dropped in ranked {
      var j :| 0 <= j < |ranked| && ranked[j] == dropped;
      assert forall n | 0 <= n < |retained| :: ranked[n] == retained[n];
      RankedDescends(ctx, pool, i, j);
    } else {
      WeightMonotone(ctx, pool, kept, dropped);
    }
  }

  /**
   If some candidate scores, the retained list is non-empty, short, led by a best scorer and weighted within [0.1, 1].
   */
  lemma PruningKeepsTheBest(ctx: Ctx, pool: seq<Account>, scorer: Account)
    requires IsPower(ctx.env.power) && scorer in pool && RawScore(ctx, scorer) > 0.0
    ensures var r := Retained(ctx, pool);
            && 1 <= |r| <= Limit(ctx)
            && (forall a | a in pool :: RawScore(ctx, a) <= RawScore(ctx, r[0]))
            && (forall a | a in r :: a in pool && 0.1 <= Weight(ctx, a, RawScore(ctx, r[0])) <= 1.0)
            && (forall kept, dropped | kept in r && dropped in pool && dropped !in r ::
                RawScore(ctx, dropped) <= RawScore(ctx, kept))
  {
    BestScoreBound(ctx, pool, scorer);
    RankedStartsBest(ctx, pool);
    RankedMembers(ctx, pool);
    var r, best := Retained(ctx, pool), BestScore(ctx, pool);
    assert r[0] == Ranked(ctx, pool)[0];
    forall a | a in pool
      ensures RawScore(ctx, a) <= best
    {
      BestScoreBound(ctx, pool, a);
    }
    forall a | a in r
      ensures a in pool && 0.1 <= Weight(ctx, a, best) <= 1.0
    {
      assert a in Ranked(ctx, pool);
      HeavyMember(ctx, pool, a);
      WeightMonotone(ctx, pool, a, a);
    }
    forall kept, dropped | kept in r && dropped in pool && dropped !in r
      ensures RawScore(ctx, dropped) <= RawScore(ctx, kept)
    {
      DroppedIsNoBetter(ctx, pool, kept, dropped);
    }
  }

  /** Only the limit and the minimum weight drop candidates. */
  lemma PruningDropsNoMore(ctx: Ctx, pool: seq<Account>)
    ensures BestScore(ctx, pool) <= 0.0 ==> Retained(ctx, pool) == []
    ensures BestScore(ctx, pool) > 0.0 && |Heavy(ctx, pool)| <= Limit(ctx) ==>
            Perm(Retained(ctx, pool), Heavy(ctx, pool))
    ensures BestScore(ctx, pool) > 0.0 && |Heavy(ctx, pool)| > Limit(ctx) ==> |Retained(ctx, pool)| == Limit(ctx)
  {
    if BestScore(ctx, pool) > 0.0 {
      RankedMembers(ctx, pool);
      PermMembers(Ranked(ctx, pool), Heavy(ctx, pool));
    }
  }
}
