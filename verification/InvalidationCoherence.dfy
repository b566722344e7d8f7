/** End-to-end coherence of the API-key cache: which reads its entries may come from. */
module InvalidationCoherence {
  import opened Invalidation
  import opened InvalidationProofs
  import opened InvalidationRuns
  import opened InvalidationDelivery

  /******* Where an entry comes from *******/

  /** Task `t` is a read of `key` that saw cache version `version` and shared version `stamp.shared` when it began. */
  predicate InRead(r: Replica, t: nat, key: string, version: nat, stamp: Stamp) {
    t in r.tasks && r.tasks[t] == KeyRead(key, version, stamp)
  }

  lemma ActBeginsRead(r: Replica, sh: Shared, t: nat, a: Action, u: nat, key: string, version: nat, stamp: Stamp)
    requires Enabled(r, t, a) && InRead(Act(r, sh, t, a), u, key, version, stamp) && !InRead(r, u, key, version, stamp)
    ensures u == t && a == Keys(BeginRead(key)) && stamp.shared == V(sh.versions, API_KEY)
  {
    match a
    case Bumps(b) =>
    case Polls(p) =>
    case Keys(k) =>
  }

  /** From event `a` to state `b`, task `t` is that read. */
  ghost predicate ReadSince(tr: Trace, a: nat, b: nat, r: nat, t: nat, key: string, version: nat, stamp: Stamp)
    requires Run(tr) && b <= |tr.events| && r < |tr.states[0].replicas|
  {
    && a < b && tr.events[a] == Event(r, t, Keys(BeginRead(key))) && Row(tr, a, API_KEY) == stamp.shared
    && forall k | a < k <= b :: InRead(ReplicaAt(tr, k, r), t, key, version, stamp)
  }

  lemma {:induction false} ReadBegan(tr: Trace, b: nat, r: nat, t: nat, key: string, version: nat, stamp: Stamp)
    returns (a: nat)
    requires Run(tr) && b <= |tr.events| && r < |tr.states[0].replicas|
    requires InRead(ReplicaAt(tr, b, r), t, key, version, stamp)
    ensures ReadSince(tr, a, b, r, t, key, version, stamp)
    decreases b
  {
    if b == 0 {
      assert false;
    } else {
      Stepped(tr, b - 1, r);
      var before, e := ReplicaAt(tr, b - 1, r), tr.events[b - 1];
      if InRead(before, t, key, version, stamp) {
        a := ReadBegan(tr, b - 1, r, t, key, version, stamp);
      } else {
        ActBeginsRead(before, tr.states[b - 1].shared, e.task, e.action, t, key, version, stamp);
        a := b - 1;
      }
    }
  }

  predicate Holds(r: Replica, key: string, stamp: Stamp) {
    key in r.cache.entries && r.cache.entries[key].data == stamp
  }

  lemma ActStores(r: Replica, sh: Shared, t: nat, a: Action, key: string, stamp: Stamp)
    requires Enabled(r, t, a) && Holds(Act(r, sh, t, a), key, stamp) && !Holds(r, key, stamp)
    ensures a.Keys? && a.k.StoreRead? && t in r.tasks && r.tasks[t].KeyRead?
    ensures r.tasks[t].key == key && r.tasks[t].stamp == stamp
  {
    match a
    case Bumps(b) => BumpFrame(r, sh.versions, t, b);
    case Polls(p) =>
    case Keys(k) =>
  }

  /** Events `begin` and `store` are one read of `key` by replica `r`, from its start to the store of its result. */
  ghost predicate ReadAndStored(tr: Trace, begin: nat, store: nat, r: nat, key: string, stamp: Stamp)
    requires Run(tr) && store < |tr.events| && r < |tr.states[0].replicas|
  {
    && tr.events[store].replica == r && tr.events[store].action.Keys? && tr.events[store].action.k.StoreRead?
    && exists version :: ReadSince(tr, begin, store, r, tr.events[store].task, key, version, stamp)
  }

  /** Every entry was stored by a read of the run that began at the shared version the entry remembers. */
  lemma {:induction false} EntryOrigin(tr: Trace, j: nat, r: nat, key: string, stamp: Stamp)
    returns (begin: nat, store: nat)
    requires Run(tr) && j <= |tr.events| && r < |tr.states[0].replicas| && Holds(ReplicaAt(tr, j, r), key, stamp)
    ensures store < j && ReadAndStored(tr, begin, store, r, key, stamp)
    decreases j
  {
    if j == 0 {
      assert false;
    } else {
      Stepped(tr, j - 1, r);
      var before, e := ReplicaAt(tr, j - 1, r), tr.events[j - 1];
      if Holds(before, key, stamp) {
        begin, store := EntryOrigin(tr, j - 1, r, key, stamp);
      } else {
        ActStores(before, tr.states[j - 1].shared, e.task, e.action, key, stamp);
        store := j - 1;
        begin := ReadBegan(tr, store, r, e.task, key, before.tasks[e.task].version, stamp);
      }
    }
  }

  /******* A replica's own invalidations *******/

  lemma ActKeepsVersion(r: Replica, sh: Shared, t: nat, a: Action)
    requires Enabled(r, t, a)
    ensures r.cache.version <= Act(r, sh, t, a).cache.version
    ensures (exists key :: Invalidates(r, t, a, key)) ==>
              r.cache.version < Act(r, sh, t, a).cache.version
  {
    match a
    case Bumps(b) => BumpFrame(r, sh.versions, t, b);
    case Polls(p) =>
    case Keys(k) =>
  }

  /** The event drops `key` from the replica's own cache. */
  predicate Invalidates(r: Replica, t: nat, a: Action, key: string) {
    || a == Keys(InvalidateKey(key)) || a == Keys(ClearKeys)
    || (a == Keys(InvalidateMutated) && t in r.tasks && r.tasks[t].Mutated? && r.tasks[t].key == key)
  }

  lemma {:induction false} CacheVersionGrows(tr: Trace, i: nat, j: nat, r: nat)
    requires Run(tr) && i <= j <= |tr.events| && r < |tr.states[0].replicas|
    ensures ReplicaAt(tr, i, r).cache.version <= ReplicaAt(tr, j, r).cache.version
    decreases j
  {
    if i == j {
    } else {
      CacheVersionGrows(tr, i, j - 1, r);
      Stepped(tr, j - 1, r);
      var e := tr.events[j - 1];
      if e.replica == r {
        ActKeepsVersion(ReplicaAt(tr, j - 1, r), tr.states[j - 1].shared, e.task, e.action);
      }
    }
  }

  /** A read that began at event `a` carries the cache version of that moment. */
  lemma ReadVersion(tr: Trace, a: nat, b: nat, r: nat, t: nat, key: string, version: nat, stamp: Stamp)
    requires Run(tr) && b <= |tr.events| && r < |tr.states[0].replicas|
            && ReadSince(tr, a, b, r, t, key, version, stamp)
    ensures version == ReplicaAt(tr, a, r).cache.version
  {
    Stepped(tr, a, r);
    assert InRead(ReplicaAt(tr, a + 1, r), t, key, version, stamp);
  }

  /** A read is stored if and only if the cache was neither cleared nor invalidated since it began. */
  lemma StoredIffUndisturbed(tr: Trace, a: nat, b: nat, r: nat, t: nat, key: string, version: nat, stamp: Stamp)
    requires Run(tr) && b < |tr.events| && r < |tr.states[0].replicas| && ReadSince(tr, a, b, r, t, key, version, stamp)
    requires tr.events[b].replica == r && tr.events[b].task == t && tr.events[b].action.Keys?
            && tr.events[b].action.k.StoreRead?
    ensures var before, after := ReplicaAt(tr, b, r).cache, ReplicaAt(tr, b + 1, r).cache;
            if ReplicaAt(tr, a, r).cache.version == before.version
            then Holds(ReplicaAt(tr, b + 1, r), key, stamp)
            else after == before
  {
    ReadVersion(tr, a, b, r, t, key, version, stamp);
    Stepped(tr, b, r);
    assert InRead(ReplicaAt(tr, b, r), t, key, version, stamp);
  }

  lemma ActDrops(r: Replica, sh: Shared, t: nat, a: Action, key: string)
    requires Enabled(r, t, a) && Invalidates(r, t, a, key)
    ensures key !in Act(r, sh, t, a).cache.entries
  {
  }

  /** What a state holds of `key` after it was absent at state `i` was stored at or after event `i`. */
  lemma {:induction false} StoredSince(tr: Trace, i: nat, j: nat, r: nat, key: string, stamp: Stamp)
      returns (begin: nat, store: nat)
    requires Run(tr) && i <= j <= |tr.events| && r < |tr.states[0].replicas|
    requires key !in ReplicaAt(tr, i, r).cache.entries && Holds(ReplicaAt(tr, j, r), key, stamp)
    ensures i <= store < j && StoredBy(tr, begin, store, r, key, stamp)
    decreases j
  {
    if i == j {
      assert false;
    } else {
      Stepped(tr, j - 1, r);
      var before, e := ReplicaAt(tr, j - 1, r), tr.events[j - 1];
      if Holds(before, key, stamp) {
        begin, store := StoredSince(tr, i, j - 1, r, key, stamp);
      } else {
        ActStores(before, tr.states[j - 1].shared, e.task, e.action, key, stamp);
        store := j - 1;
        begin := ReadBegan(tr, store, r, e.task, key, before.tasks[e.task].version, stamp);
        StoreMeansUndisturbed(before, tr.states[j - 1].shared, e.task, e.action, key, stamp);
        ReadVersion(tr, begin, store, r, e.task, key, before.tasks[e.task].version, stamp);
      }
    }
  }

  lemma StoreMeansUndisturbed(r: Replica, sh: Shared, t: nat, a: Action, key: string, stamp: Stamp)
    requires Enabled(r, t, a) && Holds(Act(r, sh, t, a), key, stamp) && !Holds(r, key, stamp)
    ensures t in r.tasks && r.tasks[t].KeyRead? && r.tasks[t].version == r.cache.version
  {
    ActStores(r, sh, t, a, key, stamp);
  }

  /** One read, stored at `store`, during which the cache version did not move. */
  ghost predicate StoredBy(tr: Trace, begin: nat, store: nat, r: nat, key: string, stamp: Stamp)
    requires Run(tr) && store < |tr.events| && r < |tr.states[0].replicas|
  {
    && ReadAndStored(tr, begin, store, r, key, stamp)
    && begin < store && ReplicaAt(tr, begin, r).cache.version == ReplicaAt(tr, store, r).cache.version
  }

  /**
   Once a replica has itself dropped a key, after its own mutation of it or otherwise, whatever it holds of that key
   comes from a read that began afterwards, however long an older read takes.
   */
  lemma OwnInvalidationHolds(tr: Trace, k: nat, j: nat, r: nat, key: string) returns (begin: nat, store: nat)
    requires Run(tr) && k < j <= |tr.events| && r < |tr.states[0].replicas| && tr.events[k].replica == r
    requires Invalidates(ReplicaAt(tr, k, r), tr.events[k].task, tr.events[k].action, key)
    requires key in ReplicaAt(tr, j, r).cache.entries
    ensures k < begin < store < j
    ensures ReadAndStored(tr, begin, store, r, key, ReplicaAt(tr, j, r).cache.entries[key].data)
  {
    var stamp := ReplicaAt(tr, j, r).cache.entries[key].data;
    var e := tr.events[k];
    Stepped(tr, k, r);
    ActDrops(ReplicaAt(tr, k, r), tr.states[k].shared, e.task, e.action, key);
    ActKeepsVersion(ReplicaAt(tr, k, r), tr.states[k].shared, e.task, e.action);
    begin, store := StoredSince(tr, k + 1, j, r, key, stamp);
    if begin <= k {
      CacheVersionGrows(tr, begin, k, r);
      CacheVersionGrows(tr, k + 1, store, r);
      assert false;
    }
  }

  /******* Which events committed a version and mutated a key *******/

  /** Event `m` commits version `v` of `ns`. */
  ghost predicate Commits(tr: Trace, m: nat, ns: Namespace, v: nat)
    requires Run(tr) && m < |tr.events|
  {
    tr.events[m].action == Bumps(Commit) && Row(tr, m, ns) + 1 == v == Row(tr, m + 1, ns)
  }

  lemma {:induction false} CommitOf(tr: Trace, i: nat, j: nat, ns: Namespace, v: nat) returns (m: nat)
    requires Run(tr) && i <= j <= |tr.events| && Row(tr, i, ns) < v <= Row(tr, j, ns)
    ensures i <= m < j && Commits(tr, m, ns, v)
    decreases j
  {
    if Row(tr, j - 1, ns) < v {
      assert Leads(tr, j - 1);
      m := j - 1;
    } else {
      m := CommitOf(tr, i, j - 1, ns, v);
    }
  }

  /** Task `t` is on the way from key mutation number `mutation` to the bump that announces it. */
  predicate Announces(r: Replica, t: nat, mutation: nat) {
    && t in r.tasks
    && ((r.tasks[t].Bumping? && r.tasks[t].caller == Plain(mutation))
        || (r.tasks[t].Mutated? && r.tasks[t].mutation == mutation))
  }

  lemma ActMutates(r: Replica, sh: Shared, t: nat, a: Action, u: nat, mutation: nat)
    requires Enabled(r, t, a) && Announces(Act(r, sh, t, a), u, mutation) && !Announces(r, u, mutation) && mutation > 0
    ensures u == t && a.Keys? && a.k.MutateKey? && sh.mutations + 1 == mutation
  {
    match a
    case Bumps(b) =>
    case Polls(p) =>
    case Keys(k) =>
  }

  /** Event `u` is key mutation number `mutation` of the run, by task `t` of replica `q`. */
  ghost predicate Mutates(tr: Trace, u: nat, q: nat, t: nat, mutation: nat)
    requires Run(tr) && u < |tr.events|
  {
    && tr.events[u].replica == q && tr.events[u].task == t && tr.events[u].action.Keys?
        && tr.events[u].action.k.MutateKey?
    && tr.states[u].shared.mutations + 1 == mutation
  }

  lemma {:induction false} MutationOf(tr: Trace, m: nat, q: nat, t: nat, mutation: nat) returns (u: nat)
    requires Run(tr) && m <= |tr.events| && q < |tr.states[0].replicas| && Announces(ReplicaAt(tr, m, q), t, mutation)
            && mutation > 0
    ensures u < m && Mutates(tr, u, q, t, mutation)
    decreases m
  {
    if m == 0 {
      assert false;
    } else {
      Stepped(tr, m - 1, q);
      var before, e := ReplicaAt(tr, m - 1, q), tr.events[m - 1];
      if Announces(before, t, mutation) {
        u := MutationOf(tr, m - 1, q, t, mutation);
      } else {
        ActMutates(before, tr.states[m - 1].shared, e.task, e.action, t, mutation);
        u := m - 1;
      }
    }
  }

  /** The key mutation a commit announces, zero for a bump that follows none. */
  ghost function MutationBehind(tr: Trace, m: nat): nat
    requires Run(tr) && m < |tr.events| && tr.events[m].action == Bumps(Commit)
  {
    assert Leads(tr, m);
    var caller := tr.states[m].replicas[tr.events[m].replica].tasks[tr.events[m].task].caller;
    if caller.Plain? then caller.mutation else 0
  }

  /** Every commit that announces a key mutation comes after that mutation, in the same task of the same replica. */
  lemma MutationPrecedesCommit(tr: Trace, m: nat) returns (u: nat)
    requires Run(tr) && m < |tr.events| && tr.events[m].action == Bumps(Commit) && MutationBehind(tr, m) > 0
    ensures u < m && Mutates(tr, u, tr.events[m].replica, tr.events[m].task, MutationBehind(tr, m))
  {
    assert Leads(tr, m);
    SameReplicas(tr, m);
    u := MutationOf(tr, m, tr.events[m].replica, tr.events[m].task, MutationBehind(tr, m));
  }

  /******* The clear *******/

  lemma ActKeepsCleared(r: Replica, sh: Shared, t: nat, a: Action)
    requires Enabled(r, t, a) && ReplicaInv(r, sh)
    ensures r.history.clearedAt <= Act(r, sh, t, a).history.clearedAt
  {
    match a
    case Bumps(b) => BumpFrame(r, sh.versions, t, b);
    case Polls(p) => PollAdvances(r, sh.versions, t, p);
    case Keys(k) => KeyFrame(r, sh, t, k);
  }

  lemma {:induction false} ClearedStays(tr: Trace, i: nat, j: nat, r: nat)
    requires Run(tr) && i <= j <= |tr.events| && r < |tr.states[0].replicas|
    ensures ReplicaAt(tr, i, r).history.clearedAt <= ReplicaAt(tr, j, r).history.clearedAt
    decreases j
  {
    if i == j {
    } else {
      ClearedStays(tr, i, j - 1, r);
      Stepped(tr, j - 1, r);
      SameReplicas(tr, j - 1);
      RunKeepsInv(tr, j - 1);
      var e := tr.events[j - 1];
      if e.replica == r {
        assert ReplicaInv(ReplicaAt(tr, j - 1, r), tr.states[j - 1].shared);
        ActKeepsCleared(ReplicaAt(tr, j - 1, r), tr.states[j - 1].shared, e.task, e.action);
      }
    }
  }

  /** A round for api_key version `w` clears the cache at shared version `w` or later. */
  lemma DeliveredIsCleared(tr: Trace, k: nat, r: nat, w: nat)
    requires Run(tr) && k < |tr.events| && r < |tr.states[0].replicas| && Delivered(tr, k, r, API_KEY, w)
    ensures w <= ReplicaAt(tr, |tr.events|, r).history.clearedAt
  {
    var t := tr.events[k].task;
    var s :| RoundSince(tr, s, k, r, t, API_KEY, w) && AllCalled(tr, s, k, r, t, API_KEY, w);
    RunKeepsInv(tr, 0);
    assert ReplicaInv(tr.states[0].replicas[r], tr.states[0].shared);
    assert CalledAt(tr, s, k, r, t, API_KEY, w, 0);
    var a: nat, b: nat :| Called(tr, s, a, b, k, r, t, 0) && w <= Row(tr, a, API_KEY);
    assert InRound(ReplicaAt(tr, a, r), t, API_KEY, w);
    CallClears(tr, a, r, t);
    ClearedStays(tr, a + 1, |tr.events|, r);
  }

  lemma CallClears(tr: Trace, a: nat, r: nat, t: nat)
    requires Run(tr) && a < |tr.events| && r < |tr.states[0].replicas|
            && tr.events[a] == Event(r, t, Polls(CallbackStarts))
    requires var tasks := ReplicaAt(tr, a, r).tasks; t in tasks && tasks[t].Round? && Clears(tasks[t].ns, tasks[t].next)
    ensures ReplicaAt(tr, a + 1, r).history.clearedAt == Row(tr, a, API_KEY)
  {
    Stepped(tr, a, r);
  }

  /**
   Once a primed replica has acknowledged api_key version `v`, every entry it holds comes from a read that began after
   the event that committed `v`, and hence after the key mutation that commit announces (MutationPrecedesCommit), even
   if the read finished after the clear.
   */
  lemma Coherence(tr: Trace, i: nat, r: nat, v: nat, key: string) returns (commit: nat, begin: nat, store: nat)
    requires Run(tr) && i <= |tr.events| && r < |tr.states[0].replicas| && NoLocalBump(tr, r, API_KEY)
    requires ReplicaAt(tr, i, r).poller.initialized
    requires Row(tr, i, API_KEY) < v <= Known(tr, |tr.events|, r, API_KEY)
    requires key in ReplicaAt(tr, |tr.events|, r).cache.entries
    ensures i <= commit < begin < store < |tr.events|
    ensures Commits(tr, commit, API_KEY, v)
    ensures ReadAndStored(tr, begin, store, r, key, ReplicaAt(tr, |tr.events|, r).cache.entries[key].data)
    ensures MutationBehind(tr, commit) > 0 ==>
              exists u ::
                  0 <= u < commit
                  && Mutates(tr, u, tr.events[commit].replica, tr.events[commit].task, MutationBehind(tr, commit))
  {
    var n := |tr.events|;
    var stamp := ReplicaAt(tr, n, r).cache.entries[key].data;
    var k, w := NoLostInvalidation(tr, i, r, API_KEY, v);
    DeliveredIsCleared(tr, k, r, w);
    SameReplicas(tr, n);
    RunKeepsInv(tr, n);
    assert ReplicaInv(ReplicaAt(tr, n, r), tr.states[n].shared);
    begin, store := EntryOrigin(tr, n, r, key, stamp);
    NeverRewinds(tr, begin, n, r, API_KEY);
    commit := CommitOf(tr, i, n, API_KEY, v);
    if begin <= commit {
      NeverRewinds(tr, begin, commit, r, API_KEY);
      assert false;
    }
    if MutationBehind(tr, commit) > 0 {
      var u := MutationPrecedesCommit(tr, commit);
    }
  }
}
