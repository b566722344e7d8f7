/** What every step of the invalidation protocol keeps, and what follows for whole runs. */
module InvalidationProofs {
  import opened Invalidation

  /******* The invariant of one replica against the shared state *******/

  ghost predicate Below(m: Versions, versions: Versions) {
    forall ns | ns in m :: m[ns] <= V(versions, ns)
  }

  ghost predicate RoundInv(r: Replica, ns: Namespace, version: nat, rows: Versions, next: nat, sh: Shared) {
    version <= V(sh.versions, ns) && Below(rows, sh.versions) && next <= V(r.callbacks, ns)
  }

  ghost predicate TaskInv(r: Replica, task: Task, sh: Shared) {
    match task
    case Bumping(ns, _, committed, Flush(_, since)) =>
      since <= V(sh.versions, ns) && (committed ==> since < V(sh.versions, ns))
    case HoldingOwn(ns, version) => version <= V(sh.versions, ns)
    case Rows(rows) => Below(rows, sh.versions)
    case Round(ns, version, rows, next, _) => RoundInv(r, ns, version, rows, next, sh)
    case Callback(ns, version, rows, next, _) => RoundInv(r, ns, version, rows, next + 1, sh)
    case KeyRead(_, version, stamp) =>
      && version <= r.cache.version
      && stamp.shared <= V(sh.versions, API_KEY)
      && (version == r.cache.version ==> stamp.shared >= r.history.clearedAt)
    case _ => true
  }

  ghost predicate TasksInv(r: Replica, sh: Shared) {
    forall t | t in r.tasks :: TaskInv(r, r.tasks[t], sh)
  }

  /** Cached entries were read after the latest clearing callback. */
  ghost predicate CacheInv(r: Replica, sh: Shared) {
    && r.history.clearedAt <= V(sh.versions, API_KEY)
    && forall k | k in r.cache.entries ::
         r.history.clearedAt <= r.cache.entries[k].data.shared <= V(sh.versions, API_KEY)
  }

  predicate InFlight(r: Replica, t: nat, ns: Namespace) {
    && t in r.tasks && r.tasks[t].Bumping? && r.tasks[t].ns == ns
    && r.tasks[t].caller.Flush? && r.tasks[t].caller.since >= V(r.history.requested, ns)
  }

  ghost predicate RequestKept(r: Replica, ns: Namespace, sh: Shared) {
    ns in r.poller.pending || (exists t :: InFlight(r, t, ns)) || V(sh.versions, ns) > V(r.history.requested, ns)
  }

  ghost predicate PendingInv(r: Replica, sh: Shared) {
    && Below(r.history.requested, sh.versions)
    && forall ns | ns in r.history.requested :: RequestKept(r, ns, sh)
  }

  ghost predicate ReplicaInv(r: Replica, sh: Shared) {
    && V(r.callbacks, API_KEY) >= 1
    && TasksInv(r, sh) && Below(r.poller.known, sh.versions) && CacheInv(r, sh) && PendingInv(r, sh)
  }

  ghost predicate Inv(s: System) {
    forall i | 0 <= i < |s.replicas| :: ReplicaInv(s.replicas[i], s.shared)
  }

  /******* The shared state only grows, so bystanders keep their invariant *******/

  ghost predicate Grows(sh: Shared, sh': Shared) {
    forall ns :: V(sh.versions, ns) <= V(sh'.versions, ns)
  }

  lemma SharedGrows(sh: Shared, r: Replica, t: nat, a: Action)
    requires Enabled(r, t, a)
    ensures Grows(sh, SharedAfter(sh, r, t, a))
  {
  }

  lemma Bystander(r: Replica, sh: Shared, sh': Shared)
    requires ReplicaInv(r, sh) && Grows(sh, sh')
    ensures ReplicaInv(r, sh')
  {
    forall t | t in r.tasks ensures TaskInv(r, r.tasks[t], sh') {
      assert TaskInv(r, r.tasks[t], sh);
    }
    forall ns | ns in r.history.requested ensures RequestKept(r, ns, sh') {
      assert RequestKept(r, ns, sh);
    }
  }

  /******* What each kind of step leaves alone *******/

  lemma BumpFrame(r: Replica, versions: Versions, t: nat, a: BumpAction)
    requires BumpEnabled(r, t, a)
    ensures var r' := BumpStep(r, versions, t, a);
            && r'.cache == r.cache && r'.callbacks == r.callbacks && r'.poller.known == r.poller.known
            && r'.poller.initialized == r.poller.initialized
            && r'.history == r.history.(requested := r'.history.requested)
            && (a.RequestBump? || (r'.tasks - {t} == r.tasks - {t} && r'.history == r.history))
  {
  }

  lemma PollFrame(r: Replica, versions: Versions, t: nat, a: PollAction)
    requires PollEnabled(r, t, a)
    ensures var r' := PollStep(r, versions, t, a);
            && r'.callbacks == r.callbacks && r'.poller.pending == r.poller.pending
            && r'.history.requested == r.history.requested && r'.tasks - {t} == r.tasks - {t}
            && (t in r.tasks ==> !r.tasks[t].Bumping?)
  {
  }

  lemma KeyFrame(r: Replica, sh: Shared, t: nat, a: KeyAction)
    requires KeyEnabled(r, t, a)
    ensures var r' := KeyStep(r, sh, t, a);
            && r'.callbacks == r.callbacks && r'.poller == r.poller && r'.history == r.history
            && r.cache.version <= r'.cache.version
            && (a.InvalidateKey? || a.ClearKeys?
                || (r'.tasks - {t} == r.tasks - {t} && (t in r.tasks ==> !r.tasks[t].Bumping?)))
            && (a.InvalidateKey? || a.ClearKeys? ==> r'.tasks == r.tasks)
  {
  }

  /** What one step of a replica may do to the parts its in-flight tasks depend on. */
  ghost predicate Advances(r: Replica, r': Replica) {
    && r'.callbacks == r.callbacks
    && r.cache.version <= r'.cache.version
    && r.history.clearedAt <= r'.history.clearedAt
    && (r.cache.version == r'.cache.version ==> r'.history.clearedAt == r.history.clearedAt)
  }

  lemma PollAdvances(r: Replica, versions: Versions, t: nat, a: PollAction)
    requires PollEnabled(r, t, a) && r.history.clearedAt <= V(versions, API_KEY)
    ensures Advances(r, PollStep(r, versions, t, a))
  {
  }

  lemma OtherTasks(r: Replica, r': Replica, t: nat, sh: Shared, sh': Shared)
    requires TasksInv(r, sh) && Advances(r, r') && Grows(sh, sh') && r'.tasks - {t} == r.tasks - {t}
    requires t in r'.tasks ==> TaskInv(r', r'.tasks[t], sh')
    ensures TasksInv(r', sh')
  {
    forall u | u in r'.tasks && u != t ensures TaskInv(r', r'.tasks[u], sh') {
      assert u in r'.tasks - {t} && (r'.tasks - {t})[u] == (r.tasks - {t})[u];
      assert TaskInv(r, r.tasks[u], sh);
    }
  }

  /******* The acting replica keeps its invariant: tasks *******/

  lemma RowTask(r: Replica, sh: Shared, t: nat, ns: Namespace, rows: Versions)
    requires TaskInv(r, Rows(rows), sh) && ns in rows
    ensures TaskInv(RowTaken(r, t, ns, rows), RowTaken(r, t, ns, rows).tasks[t], sh)
  {
  }

  lemma BumpTasks(r: Replica, sh: Shared, t: nat, a: BumpAction)
    requires ReplicaInv(r, sh) && BumpEnabled(r, t, a)
    ensures TasksInv(BumpStep(r, sh.versions, t, a), SharedAfter(sh, r, t, Bumps(a)))
  {
    BumpFrame(r, sh.versions, t, a);
    SharedGrows(sh, r, t, Bumps(a));
    if t in r.tasks {
      assert TaskInv(r, r.tasks[t], sh);
    }
    OtherTasks(r, BumpStep(r, sh.versions, t, a), t, sh, SharedAfter(sh, r, t, Bumps(a)));
  }

  lemma PollTasks(r: Replica, sh: Shared, t: nat, a: PollAction)
    requires ReplicaInv(r, sh) && PollEnabled(r, t, a)
    ensures TasksInv(PollStep(r, sh.versions, t, a), sh)
  {
    PollFrame(r, sh.versions, t, a);
    PollAdvances(r, sh.versions, t, a);
    if t in r.tasks {
      assert TaskInv(r, r.tasks[t], sh);
    }
    if a.NextRow? {
      RowTask(r, sh, t, a.ns, r.tasks[t].rows);
    }
    OtherTasks(r, PollStep(r, sh.versions, t, a), t, sh, sh);
  }

  lemma KeyTasks(r: Replica, sh: Shared, t: nat, a: KeyAction)
    requires ReplicaInv(r, sh) && KeyEnabled(r, t, a)
    ensures TasksInv(KeyStep(r, sh, t, a), SharedAfter(sh, r, t, Keys(a)))
  {
    KeyFrame(r, sh, t, a);
    SharedGrows(sh, r, t, Keys(a));
    if t in r.tasks {
      assert TaskInv(r, r.tasks[t], sh);
    }
    OtherTasks(r, KeyStep(r, sh, t, a), t, sh, SharedAfter(sh, r, t, Keys(a)));
  }

  /******* Acknowledged versions *******/

  lemma PollKnown(r: Replica, sh: Shared, t: nat, a: PollAction)
    requires ReplicaInv(r, sh) && PollEnabled(r, t, a)
    ensures Below(PollStep(r, sh.versions, t, a).poller.known, sh.versions)
  {
    if t in r.tasks {
      assert TaskInv(r, r.tasks[t], sh);
    }
  }

  /******* The cache *******/

  lemma PollCache(r: Replica, sh: Shared, t: nat, a: PollAction)
    requires ReplicaInv(r, sh) && PollEnabled(r, t, a)
    ensures CacheInv(PollStep(r, sh.versions, t, a), sh)
  {
    if t in r.tasks {
      assert TaskInv(r, r.tasks[t], sh);
    }
  }

  /** A slow read stores only if no clear happened since it began, so what it stores is recent enough. */
  lemma KeyCache(r: Replica, sh: Shared, t: nat, a: KeyAction)
    requires ReplicaInv(r, sh) && KeyEnabled(r, t, a)
    ensures CacheInv(KeyStep(r, sh, t, a), SharedAfter(sh, r, t, Keys(a)))
  {
    if t in r.tasks {
      assert TaskInv(r, r.tasks[t], sh);
    }
  }

  /******* Pending bumps *******/

  /** A flush bump that is answered either committed a newer version or puts its marker back. */
  lemma AnsweredKept(r: Replica, sh: Shared, t: nat, result: BumpResult)
    requires ReplicaInv(r, sh) && BumpEnabled(r, t, Returns(result)) && InFlight(r, t, r.tasks[t].ns)
    ensures RequestKept(BumpStep(r, sh.versions, t, Returns(result)), r.tasks[t].ns, sh)
  {
    assert TaskInv(r, r.tasks[t], sh);
    var r', ns := BumpStep(r, sh.versions, t, Returns(result)), r.tasks[t].ns;
    assert InFlight(r', t, ns) || ns in r'.poller.pending || r.tasks[t].committed;
  }

  lemma PendingCarriesOver(r: Replica, r': Replica, sh: Shared, sh': Shared)
    requires PendingInv(r, sh) && Grows(sh, sh')
    requires r'.poller.pending == r.poller.pending && r'.history.requested == r.history.requested
    requires forall ns, u | InFlight(r, u, ns) :: InFlight(r', u, ns)
    ensures PendingInv(r', sh')
  {
    forall ns | ns in r'.history.requested ensures RequestKept(r', ns, sh') {
      assert RequestKept(r, ns, sh);
    }
  }

  lemma StillInFlight(r: Replica, r': Replica, t: nat)
    requires r'.tasks - {t} == r.tasks - {t} && r'.history.requested == r.history.requested
    ensures forall ns, u | u != t && InFlight(r, u, ns) :: InFlight(r', u, ns)
  {
    assert forall u | u in r.tasks && u != t :: u in r.tasks - {t} && (r.tasks - {t})[u] == (r'.tasks - {t})[u];
  }

  lemma BumpPending(r: Replica, sh: Shared, t: nat, a: BumpAction)
    requires ReplicaInv(r, sh) && BumpEnabled(r, t, a)
    ensures PendingInv(BumpStep(r, sh.versions, t, a), SharedAfter(sh, r, t, Bumps(a)))
  {
    var r', sh' := BumpStep(r, sh.versions, t, a), SharedAfter(sh, r, t, Bumps(a));
    SharedGrows(sh, r, t, Bumps(a));
    BumpFrame(r, sh.versions, t, a);
    if !a.RequestBump? {
      StillInFlight(r, r', t);
    }
    forall ns | ns in r'.history.requested ensures RequestKept(r', ns, sh') {
      if a == RequestBump(ns) {
      } else {
        assert RequestKept(r, ns, sh);
        if a == TakeMarker(ns) {
          assert InFlight(r', t, ns);
        } else if u :| InFlight(r, u, ns) {
          if a.Returns? && u == t {
            AnsweredKept(r, sh, t, a.result);
          } else {
            assert InFlight(r', u, ns);
          }
        }
      }
    }
  }

  /******* Every step, every run *******/

  lemma ActKeepsInv(r: Replica, sh: Shared, t: nat, a: Action)
    requires ReplicaInv(r, sh) && Enabled(r, t, a)
    ensures ReplicaInv(Act(r, sh, t, a), SharedAfter(sh, r, t, a))
  {
    var r', sh' := Act(r, sh, t, a), SharedAfter(sh, r, t, a);
    SharedGrows(sh, r, t, a);
    match a
    case Bumps(b) =>
      BumpFrame(r, sh.versions, t, b);
      BumpTasks(r, sh, t, b);
      BumpPending(r, sh, t, b);
    case Polls(p) =>
      PollFrame(r, sh.versions, t, p);
      PollTasks(r, sh, t, p);
      PollKnown(r, sh, t, p);
      PollCache(r, sh, t, p);
      StillInFlight(r, r', t);
      PendingCarriesOver(r, r', sh, sh');
    case Keys(k) =>
      KeyFrame(r, sh, t, k);
      KeyTasks(r, sh, t, k);
      KeyCache(r, sh, t, k);
      StillInFlight(r, r', t);
      PendingCarriesOver(r, r', sh, sh');
  }

  lemma StepKeepsInv(s: System, e: Event)
    requires Inv(s) && Possible(s, e)
    ensures Inv(Step(s, e))
  {
    var r, sh := s.replicas[e.replica], s.shared;
    var s' := Step(s, e);
    SharedGrows(sh, r, e.task, e.action);
    ActKeepsInv(r, sh, e.task, e.action);
    forall i | 0 <= i < |s'.replicas| ensures ReplicaInv(s'.replicas[i], s'.shared) {
      if i != e.replica {
        Bystander(s.replicas[i], sh, s'.shared);
      }
    }
  }

  lemma InitHasInv(s: System)
    requires Init(s)
    ensures Inv(s)
  {
  }

  lemma {:induction false} RunKeepsInv(tr: Trace, k: nat)
    requires Run(tr) && k < |tr.states|
    ensures Inv(tr.states[k])
  {
    if k == 0 {
      InitHasInv(tr.states[0]);
    } else {
      RunKeepsInv(tr, k - 1);
      assert Leads(tr, k - 1);
      StepKeepsInv(tr.states[k - 1], tr.events[k - 1]);
    }
  }

  lemma StepKeepsReplicas(s: System, e: Event)
    requires Possible(s, e)
    ensures |Step(s, e).replicas| == |s.replicas|
    ensures forall r | 0 <= r < |s.replicas| :: Step(s, e).replicas[r].callbacks == s.replicas[r].callbacks
  {
    var r := s.replicas[e.replica];
    match e.action
    case Bumps(b) => BumpFrame(r, s.shared.versions, e.task, b);
    case Polls(p) => PollFrame(r, s.shared.versions, e.task, p);
    case Keys(k) => KeyFrame(r, s.shared, e.task, k);
  }

  lemma {:induction false} SameReplicas(tr: Trace, k: nat)
    requires Run(tr) && k < |tr.states|
    ensures |tr.states[k].replicas| == |tr.states[0].replicas|
    ensures forall r | 0 <= r < |tr.states[0].replicas| ::
            tr.states[k].replicas[r].callbacks == tr.states[0].replicas[r].callbacks
  {
    if k == 0 {
    } else {
      SameReplicas(tr, k - 1);
      assert Leads(tr, k - 1);
      StepKeepsReplicas(tr.states[k - 1], tr.events[k - 1]);
    }
  }
}
