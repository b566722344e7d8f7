/**
 What every run of the invalidation protocol keeps: versions only grow, requests are never lost, bumps are conserved.
 */
module InvalidationRuns {
  import opened Invalidation
  import opened InvalidationProofs

  ghost function ReplicaAt(tr: Trace, k: nat, r: nat): Replica
    requires Run(tr) && k <= |tr.events| && r < |tr.states[0].replicas|
  {
    SameReplicas(tr, k);
    tr.states[k].replicas[r]
  }

  ghost function Known(tr: Trace, k: nat, r: nat, ns: Namespace): nat
    requires Run(tr) && k <= |tr.events| && r < |tr.states[0].replicas|
  {
    V(ReplicaAt(tr, k, r).poller.known, ns)
  }

  ghost function Row(tr: Trace, k: nat, ns: Namespace): nat
    requires Run(tr) && k <= |tr.events|
  {
    V(tr.states[k].shared.versions, ns)
  }

  /** Event `k` is a step of replica `r`: what it meant for that replica, and for the others. */
  lemma Stepped(tr: Trace, k: nat, r: nat)
    requires Run(tr) && k < |tr.events| && r < |tr.states[0].replicas|
    ensures var e, before, after := tr.events[k], ReplicaAt(tr, k, r), ReplicaAt(tr, k + 1, r);
            if e.replica == r
            then Enabled(before, e.task, e.action) && after == Act(before, tr.states[k].shared, e.task, e.action)
            else after == before
  {
    assert Leads(tr, k);
    SameReplicas(tr, k);
  }

  /******* Monotonicity *******/

  lemma ActNeverRewinds(r: Replica, sh: Shared, t: nat, a: Action)
    requires Enabled(r, t, a)
    ensures forall ns :: V(r.poller.known, ns) <= V(Act(r, sh, t, a).poller.known, ns)
    ensures r.poller.known.Keys <= Act(r, sh, t, a).poller.known.Keys
    ensures r.poller.initialized ==> Act(r, sh, t, a).poller.initialized
    ensures forall ns :: V(sh.versions, ns) <= V(SharedAfter(sh, r, t, a).versions, ns)
  {
    match a
    case Bumps(b) => BumpFrame(r, sh.versions, t, b);
    case Polls(p) =>
    case Keys(k) => KeyFrame(r, sh, t, k);
  }

  lemma NeverRewindsStep(tr: Trace, k: nat, r: nat, ns: Namespace)
    requires Run(tr) && k < |tr.events| && r < |tr.states[0].replicas|
    ensures Known(tr, k, r, ns) <= Known(tr, k + 1, r, ns)
    ensures Row(tr, k, ns) <= Row(tr, k + 1, ns)
    ensures ns in ReplicaAt(tr, k, r).poller.known ==> ns in ReplicaAt(tr, k + 1, r).poller.known
    ensures ReplicaAt(tr, k, r).poller.initialized ==> ReplicaAt(tr, k + 1, r).poller.initialized
  {
    assert Leads(tr, k);
    SameReplicas(tr, k);
    var before, e := tr.states[k], tr.events[k];
    ActNeverRewinds(before.replicas[e.replica], before.shared, e.task, e.action);
  }

  /** In every interleaving, neither an acknowledged nor a shared version ever decreases. */
  lemma {:induction false} NeverRewinds(tr: Trace, i: nat, j: nat, r: nat, ns: Namespace)
    requires Run(tr) && i <= j <= |tr.events| && r < |tr.states[0].replicas|
    ensures Known(tr, i, r, ns) <= Known(tr, j, r, ns)
    ensures Row(tr, i, ns) <= Row(tr, j, ns)
    ensures ns in ReplicaAt(tr, i, r).poller.known ==> ns in ReplicaAt(tr, j, r).poller.known
    ensures ReplicaAt(tr, i, r).poller.initialized ==> ReplicaAt(tr, j, r).poller.initialized
    decreases j - i
  {
    if i >= j {
    } else {
      NeverRewinds(tr, i, j - 1, r, ns);
      NeverRewindsStep(tr, j - 1, r, ns);
    }
  }

  /** In every interleaving, no replica acknowledges more than the shared row holds. */
  lemma AcknowledgedBelowShared(tr: Trace, k: nat, r: nat, ns: Namespace)
    requires Run(tr) && k <= |tr.events| && r < |tr.states[0].replicas|
    ensures Known(tr, k, r, ns) <= Row(tr, k, ns)
  {
    SameReplicas(tr, k);
    RunKeepsInv(tr, k);
    assert ReplicaInv(ReplicaAt(tr, k, r), tr.states[k].shared);
  }

  /******* Pending bumps and conservation *******/

  lemma ActRequested(r: Replica, sh: Shared, t: nat, a: Action, ns: Namespace)
    requires Enabled(r, t, a) && Below(r.history.requested, sh.versions) && ns in r.history.requested
    ensures ns in Act(r, sh, t, a).history.requested
    ensures V(r.history.requested, ns) <= V(Act(r, sh, t, a).history.requested, ns)
  {
    match a
    case Bumps(b) =>
    case Polls(p) => PollFrame(r, sh.versions, t, p);
    case Keys(k) => KeyFrame(r, sh, t, k);
  }

  lemma {:induction false} RequestRemembered(tr: Trace, k: nat, j: nat, r: nat, ns: Namespace)
    requires Run(tr) && k < j <= |tr.events| && r < |tr.states[0].replicas|
    requires tr.events[k].replica == r && tr.events[k].action == Bumps(RequestBump(ns))
    ensures ns in ReplicaAt(tr, j, r).history.requested
    ensures Row(tr, k, ns) <= V(ReplicaAt(tr, j, r).history.requested, ns)
    decreases j
  {
    assert Leads(tr, j - 1);
    SameReplicas(tr, j - 1);
    if j > k + 1 {
      RequestRemembered(tr, k, j - 1, r, ns);
      RunKeepsInv(tr, j - 1);
      var before, e := tr.states[j - 1], tr.events[j - 1];
      assert ReplicaInv(before.replicas[r], before.shared);
      if e.replica == r {
        ActRequested(before.replicas[r], before.shared, e.task, e.action, ns);
      }
    }
  }

  /**
   A requested bump is never lost: at any later point the namespace is pending, its flush is in flight with the
   marker already cleared, or the shared version has risen since the request.
   */
  lemma RequestNeverLost(tr: Trace, k: nat, r: nat, ns: Namespace)
    requires Run(tr) && k < |tr.events| && r < |tr.states[0].replicas|
    requires tr.events[k].replica == r && tr.events[k].action == Bumps(RequestBump(ns))
    ensures var now := ReplicaAt(tr, |tr.events|, r);
            || ns in now.poller.pending
            || (exists t ::
                t in now.tasks && now.tasks[t].Bumping? && now.tasks[t].ns == ns && now.tasks[t].caller.Flush?)
            || Row(tr, k, ns) < Row(tr, |tr.events|, ns)
  {
    RequestRemembered(tr, k, |tr.events|, r, ns);
    SameReplicas(tr, |tr.events|);
    RunKeepsInv(tr, |tr.events|);
    var now := ReplicaAt(tr, |tr.events|, r);
    assert ReplicaInv(now, tr.states[|tr.events|].shared);
    assert RequestKept(now, ns, tr.states[|tr.events|].shared);
    assert forall t | InFlight(now, t, ns) :: t in now.tasks && now.tasks[t].Bumping?;
  }

  /******* A poll flushes what is pending *******/

  /** Task `t` is a flush that has still to take the marker of `ns`. */
  predicate ToFlush(r: Replica, t: nat, ns: Namespace) {
    t in r.tasks
    && ((r.tasks[t].Flushing? && ns in r.tasks[t].todo)
        || (r.tasks[t].Bumping? && r.tasks[t].caller.Flush? && ns in r.tasks[t].caller.rest))
  }

  /** Only taking the marker ends that. */
  lemma ActFlushes(r: Replica, sh: Shared, t: nat, a: Action, u: nat, ns: Namespace)
    requires Enabled(r, t, a) && ToFlush(r, u, ns) && !ToFlush(Act(r, sh, t, a), u, ns)
    ensures u == t && a == Bumps(TakeMarker(ns))
  {
    match a
    case Bumps(b) =>
    case Polls(p) =>
    case Keys(k) =>
  }

  lemma {:induction false} MarkerTaken(tr: Trace, i: nat, j: nat, r: nat, t: nat, ns: Namespace) returns (k: nat)
    requires Run(tr) && i <= j <= |tr.events| && r < |tr.states[0].replicas|
    requires ToFlush(ReplicaAt(tr, i, r), t, ns) && !ToFlush(ReplicaAt(tr, j, r), t, ns)
    ensures i <= k < j && tr.events[k] == Event(r, t, Bumps(TakeMarker(ns)))
    decreases j
  {
    Stepped(tr, j - 1, r);
    var e := tr.events[j - 1];
    if ToFlush(ReplicaAt(tr, j - 1, r), t, ns) {
      ActFlushes(ReplicaAt(tr, j - 1, r), tr.states[j - 1].shared, e.task, e.action, t, ns);
      k := j - 1;
    } else {
      k := MarkerTaken(tr, i, j - 1, r, t, ns);
    }
  }

  /** A poll begun while a namespace is pending takes its marker, and so bumps it, before it reads any row. */
  lemma PollFlushesFirst(tr: Trace, s: nat, e: nat, r: nat, t: nat, ns: Namespace) returns (k: nat)
    requires Run(tr) && s < e < |tr.events| && r < |tr.states[0].replicas|
    requires tr.events[s] == Event(r, t, Bumps(StartPoll)) && ns in ReplicaAt(tr, s, r).poller.pending
    requires tr.events[e] == Event(r, t, Polls(ReadRows))
    ensures s < k < e && tr.events[k] == Event(r, t, Bumps(TakeMarker(ns)))
    ensures var tasks := ReplicaAt(tr, k + 1, r).tasks;
            t in tasks && tasks[t].Bumping? && tasks[t].ns == ns && !tasks[t].committed
  {
    Stepped(tr, s, r);
    Stepped(tr, e, r);
    k := MarkerTaken(tr, s + 1, e, r, t, ns);
    Stepped(tr, k, r);
  }

  /******* Retries *******/

  /** Task `t` is bumping `ns` after `attempt` attempts that ended in an operational error. */
  predicate Attempting(r: Replica, t: nat, ns: Namespace, attempt: nat) {
    t in r.tasks && r.tasks[t].Bumping? && r.tasks[t].ns == ns && r.tasks[t].attempt == attempt
  }

  lemma ActRetries(r: Replica, sh: Shared, t: nat, a: Action, u: nat, ns: Namespace, attempt: nat)
    requires Enabled(r, t, a) && Attempting(Act(r, sh, t, a), u, ns, attempt) && !Attempting(r, u, ns, attempt)
            && attempt > 0
    ensures u == t && a == Bumps(Returns(Operational)) && Attempting(r, t, ns, attempt - 1)
  {
    match a
    case Bumps(b) =>
    case Polls(p) =>
    case Keys(k) =>
  }

  lemma {:induction false} AttemptFailed(tr: Trace, j: nat, r: nat, t: nat, ns: Namespace, attempt: nat)
      returns (k: nat)
    requires Run(tr) && j <= |tr.events| && r < |tr.states[0].replicas|
    requires Attempting(ReplicaAt(tr, j, r), t, ns, attempt) && attempt > 0
    ensures k < j && tr.events[k] == Event(r, t, Bumps(Returns(Operational)))
    ensures Attempting(ReplicaAt(tr, k, r), t, ns, attempt - 1)
    decreases j
  {
    if j == 0 {
      assert false;
    } else {
      Stepped(tr, j - 1, r);
      var before, e := ReplicaAt(tr, j - 1, r), tr.events[j - 1];
      if Attempting(before, t, ns, attempt) {
        k := AttemptFailed(tr, j - 1, r, t, ns, attempt);
      } else {
        ActRetries(before, tr.states[j - 1].shared, e.task, e.action, t, ns, attempt);
        k := j - 1;
      }
    }
  }

  /** An operational error ends a bump if and only if it is the third in a row; then all three are exhibited. */
  lemma GivesUpAfterThree(tr: Trace, k: nat, r: nat, t: nat, ns: Namespace, attempt: nat)
      returns (first: nat, second: nat)
    requires Run(tr) && k < |tr.events| && r < |tr.states[0].replicas|
    requires tr.events[k] == Event(r, t, Bumps(Returns(Operational))) && Attempting(ReplicaAt(tr, k, r), t, ns, attempt)
    ensures attempt < 2 <==> Attempting(ReplicaAt(tr, k + 1, r), t, ns, attempt + 1)
    ensures attempt == 2 ==> first < second < k
    ensures attempt == 2 ==> tr.events[first] == tr.events[second] == Event(r, t, Bumps(Returns(Operational)))
    ensures attempt <= 2
  {
    Stepped(tr, k, r);
    AttemptsBounded(tr, k, r);
    first, second := 0, 0;
    if attempt == 2 {
      second := AttemptFailed(tr, k, r, t, ns, 2);
      first := AttemptFailed(tr, second, r, t, ns, 1);
    }
  }

  ghost predicate FewAttempts(r: Replica) {
    forall t | t in r.tasks && r.tasks[t].Bumping? :: r.tasks[t].attempt <= 2
  }

  lemma {:induction false} AttemptsBounded(tr: Trace, j: nat, r: nat)
    requires Run(tr) && j <= |tr.events| && r < |tr.states[0].replicas|
    ensures FewAttempts(ReplicaAt(tr, j, r))
    decreases j
  {
    if j == 0 {
    } else {
      AttemptsBounded(tr, j - 1, r);
      Stepped(tr, j - 1, r);
      var e := tr.events[j - 1];
      if e.replica == r {
        ActFewAttempts(ReplicaAt(tr, j - 1, r), tr.states[j - 1].shared, e.task, e.action);
      }
    }
  }

  lemma ActFewAttempts(r: Replica, sh: Shared, t: nat, a: Action)
    requires Enabled(r, t, a) && FewAttempts(r)
    ensures FewAttempts(Act(r, sh, t, a))
  {
    match a
    case Bumps(b) =>
    case Polls(p) =>
    case Keys(k) =>
  }

  /** How many bumps of a namespace the replicas committed in the first `k` events. */
  ghost function Commits(tr: Trace, k: nat, ns: Namespace): nat
    requires Run(tr) && k <= |tr.events|
  {
    if k == 0 then 0
    else
      assert Leads(tr, k - 1);
      var before, e := tr.states[k - 1], tr.events[k - 1];
      Commits(tr, k - 1, ns) +
      if e.action == Bumps(Commit) && before.replicas[e.replica].tasks[e.task].ns == ns then 1 else 0
  }

  /** The final version is the initial one plus the number of committed bumps over all replicas. */
  lemma {:induction false} VersionsAreConserved(tr: Trace, k: nat, ns: Namespace)
    requires Run(tr) && k <= |tr.events|
    ensures Row(tr, k, ns) == Row(tr, 0, ns) + Commits(tr, k, ns)
  {
    if k == 0 {
    } else {
      VersionsAreConserved(tr, k - 1, ns);
      assert Leads(tr, k - 1);
    }
  }
}
