/** When a replica's acknowledged version may pass a version, stated over whole runs. */
module InvalidationDelivery {
  import opened Invalidation
  import opened InvalidationProofs
  import opened InvalidationRuns

  /******* Rounds of callbacks *******/

  /** Task `t` is running the callbacks of `ns` for snapshot version `w`. */
  predicate InRound(r: Replica, t: nat, ns: Namespace, w: nat) {
    && t in r.tasks && (r.tasks[t].Round? || r.tasks[t].Callback?)
    && r.tasks[t].ns == ns && r.tasks[t].version == w
  }

  lemma BumpBeginsNoRound(r: Replica, versions: Versions, t: nat, a: BumpAction, u: nat, ns: Namespace, w: nat)
    requires BumpEnabled(r, t, a) && InRound(BumpStep(r, versions, t, a), u, ns, w)
    ensures InRound(r, u, ns, w)
  {
  }

  lemma KeyBeginsNoRound(r: Replica, sh: Shared, t: nat, a: KeyAction, u: nat, ns: Namespace, w: nat)
    requires KeyEnabled(r, t, a) && InRound(KeyStep(r, sh, t, a), u, ns, w)
    ensures InRound(r, u, ns, w)
  {
  }

  /** A round begins only at a snapshot row that is a change. */
  lemma ActBeginsRound(r: Replica, sh: Shared, t: nat, a: Action, u: nat, ns: Namespace, w: nat)
    requires Enabled(r, t, a) && InRound(Act(r, sh, t, a), u, ns, w) && !InRound(r, u, ns, w)
    ensures u == t && a == Polls(NextRow(ns)) && t in r.tasks && r.tasks[t].Rows?
    ensures ns in r.tasks[t].rows && r.tasks[t].rows[ns] == w && Changed(r.poller, ns, w)
    ensures Act(r, sh, t, a).tasks[t] == Round(ns, w, r.tasks[t].rows - {ns}, 0, true)
  {
    match a
    case Bumps(b) => BumpBeginsNoRound(r, sh.versions, t, b, u, ns, w);
    case Polls(p) =>
    case Keys(k) => KeyBeginsNoRound(r, sh, t, k, u, ns, w);
  }

  /** A round goes on by starting its next callback and by ending it. */
  lemma ActInRound(r: Replica, sh: Shared, t: nat, a: Action, u: nat, ns: Namespace, w: nat)
    requires Enabled(r, t, a) && InRound(r, u, ns, w) && InRound(Act(r, sh, t, a), u, ns, w)
    ensures var x, y := r.tasks[u], Act(r, sh, t, a).tasks[u];
            || y == x
            || (u == t && a == Polls(CallbackStarts) && x.Round? && y == Callback(ns, w, x.rows, x.next, x.ok))
            || (u == t && a.Polls? && a.p.CallbackEnds? && x.Callback?
                && y == Round(ns, w, x.rows, x.next + 1, x.ok && a.p.success))
  {
    match a
    case Bumps(b) =>
    case Polls(p) =>
    case Keys(k) =>
  }

  /** Task `t` of replica `r` is in this round in every state after event `s` up to state `d`; event `s` began it. */
  ghost predicate RoundSince(tr: Trace, s: nat, d: nat, r: nat, t: nat, ns: Namespace, w: nat)
    requires Run(tr) && d <= |tr.events| && r < |tr.states[0].replicas|
  {
    && s < d && tr.events[s] == Event(r, t, Polls(NextRow(ns)))
    && Changed(ReplicaAt(tr, s, r).poller, ns, w)
    && (forall k | s < k <= d :: InRound(ReplicaAt(tr, k, r), t, ns, w))
    && var first := ReplicaAt(tr, s + 1, r).tasks[t]; first.Round? && first.next == 0 && first.ok
  }

  lemma {:induction false} RoundBegan(tr: Trace, d: nat, r: nat, t: nat, ns: Namespace, w: nat) returns (s: nat)
    requires Run(tr) && d <= |tr.events| && r < |tr.states[0].replicas| && InRound(ReplicaAt(tr, d, r), t, ns, w)
    ensures RoundSince(tr, s, d, r, t, ns, w)
    decreases d
  {
    if d == 0 {
      assert false;
    } else {
      Stepped(tr, d - 1, r);
      var before, e := ReplicaAt(tr, d - 1, r), tr.events[d - 1];
      if InRound(before, t, ns, w) {
        s := RoundBegan(tr, d - 1, r, t, ns, w);
      } else {
        ActBeginsRound(before, tr.states[d - 1].shared, e.task, e.action, t, ns, w);
        s := d - 1;
      }
    }
  }

  /** Between events `s` and `d`, task `t` called callback `c` of its round and the call succeeded. */
  ghost predicate Called(tr: Trace, s: nat, a: nat, b: nat, d: nat, r: nat, t: nat, c: nat)
    requires Run(tr) && d <= |tr.events| && r < |tr.states[0].replicas|
  {
    && s < a < b < d
    && tr.events[a] == Event(r, t, Polls(CallbackStarts)) && tr.events[b] == Event(r, t, Polls(CallbackEnds(true)))
    && var started, ended := ReplicaAt(tr, a, r).tasks, ReplicaAt(tr, b, r).tasks;
       && t in started && started[t].Round? && started[t].next == c
       && t in ended && ended[t].Callback? && ended[t].next == c
  }

  lemma {:induction false} CallBegan(tr: Trace, s: nat, b: nat, r: nat, t: nat, ns: Namespace, w: nat) returns (a: nat)
    requires Run(tr) && b <= |tr.events| && r < |tr.states[0].replicas| && RoundSince(tr, s, b, r, t, ns, w)
    requires ReplicaAt(tr, b, r).tasks[t].Callback?
    ensures s < a < b && tr.events[a] == Event(r, t, Polls(CallbackStarts))
    ensures var task := ReplicaAt(tr, a, r).tasks[t]; task.Round? && task.next == ReplicaAt(tr, b, r).tasks[t].next
    decreases b
  {
    assert b > s + 1;
    Stepped(tr, b - 1, r);
    var before, e := ReplicaAt(tr, b - 1, r), tr.events[b - 1];
    assert InRound(before, t, ns, w) && InRound(ReplicaAt(tr, b, r), t, ns, w);
    if e.replica == r {
      ActInRound(before, tr.states[b - 1].shared, e.task, e.action, t, ns, w);
    }
    if before.tasks[t].Callback? {
      a := CallBegan(tr, s, b - 1, r, t, ns, w);
    } else {
      a := b - 1;
    }
  }

  /** A round whose callbacks all succeeded so far has called each callback before its next one. */
  lemma {:induction false} CallSucceeded(tr: Trace, s: nat, d: nat, r: nat, t: nat, ns: Namespace, w: nat, c: nat)
    returns (a: nat, b: nat)
    requires Run(tr) && d <= |tr.events| && r < |tr.states[0].replicas| && RoundSince(tr, s, d, r, t, ns, w)
    requires var task := ReplicaAt(tr, d, r).tasks[t]; task.ok && c < task.next
    ensures Called(tr, s, a, b, d, r, t, c)
    decreases d
  {
    assert d > s + 1;
    Stepped(tr, d - 1, r);
    var before, e := ReplicaAt(tr, d - 1, r), tr.events[d - 1];
    assert InRound(before, t, ns, w) && InRound(ReplicaAt(tr, d, r), t, ns, w);
    if e.replica == r {
      ActInRound(before, tr.states[d - 1].shared, e.task, e.action, t, ns, w);
    }
    if c < before.tasks[t].next {
      a, b := CallSucceeded(tr, s, d - 1, r, t, ns, w, c);
    } else {
      b := d - 1;
      a := CallBegan(tr, s, b, r, t, ns, w);
    }
  }

  /******* What raises an acknowledged version *******/

  /** Event `k` acknowledges `w` after a round in which no callback failed. */
  ghost predicate RoundClosed(tr: Trace, k: nat, r: nat, ns: Namespace, w: nat)
    requires Run(tr) && k < |tr.events| && r < |tr.states[0].replicas|
  {
    var t, tasks := tr.events[k].task, ReplicaAt(tr, k, r).tasks;
    && tr.events[k].replica == r && tr.events[k].action == Polls(RoundDone)
    && t in tasks && tasks[t].Round? && tasks[t].ns == ns && tasks[t].version == w && tasks[t].ok
  }

  /** Event `k` acknowledges `w` as the version a `bump_local` read back. */
  ghost predicate OwnRecorded(tr: Trace, k: nat, r: nat, ns: Namespace, w: nat)
    requires Run(tr) && k < |tr.events| && r < |tr.states[0].replicas|
  {
    var t, tasks := tr.events[k].task, ReplicaAt(tr, k, r).tasks;
    tr.events[k].replica == r && tr.events[k].action == Polls(RecordOwn) && t in tasks && tasks[t] == HoldingOwn(ns, w)
  }

  lemma ActRaises(r: Replica, sh: Shared, t: nat, a: Action, ns: Namespace)
    requires Enabled(r, t, a) && r.poller.initialized
    ensures var before, after := V(r.poller.known, ns), V(Act(r, sh, t, a).poller.known, ns);
            && (after > before <==>
                 || (a == Polls(RoundDone) && r.tasks[t].ns == ns && r.tasks[t].ok && r.tasks[t].version > before)
                 || (a == Polls(RecordOwn) && r.tasks[t].ns == ns && r.tasks[t].version > before))
            && (after > before ==> after == r.tasks[t].version)
  {
    match a
    case Bumps(b) => BumpFrame(r, sh.versions, t, b);
    case Polls(p) =>
    case Keys(k) => KeyFrame(r, sh, t, k);
  }

  /**
   Exactly what acknowledges on a primed replica: an event raises its version of `ns` to `w` if and only if it ends a
   round for `w` in which every callback succeeded, or records `w` for a `bump_local`.
   */
  lemma RaisedExactly(tr: Trace, k: nat, r: nat, ns: Namespace, w: nat)
    requires Run(tr) && k < |tr.events| && r < |tr.states[0].replicas| && ReplicaAt(tr, k, r).poller.initialized
    requires Known(tr, k, r, ns) < w
    ensures Known(tr, k + 1, r, ns) == w <==> RoundClosed(tr, k, r, ns, w) || OwnRecorded(tr, k, r, ns, w)
  {
    Stepped(tr, k, r);
    var e := tr.events[k];
    if e.replica == r {
      ActRaises(ReplicaAt(tr, k, r), tr.states[k].shared, e.task, e.action, ns);
    }
  }

  /**
   An event raises the acknowledged version without a successful round if and only if it records a higher one for
   `bump_local`.
   */
  lemma SilentRaiseIsOwn(tr: Trace, k: nat, r: nat, ns: Namespace)
    requires Run(tr) && k < |tr.events| && r < |tr.states[0].replicas| && ReplicaAt(tr, k, r).poller.initialized
    ensures Known(tr, k, r, ns) < Known(tr, k + 1, r, ns) && !(exists w :: RoundClosed(tr, k, r, ns, w))
       <==> exists w :: w > Known(tr, k, r, ns) && OwnRecorded(tr, k, r, ns, w)
  {
    NeverRewindsStep(tr, k, r, ns);
    if Known(tr, k, r, ns) < Known(tr, k + 1, r, ns) {
      RaisedExactly(tr, k, r, ns, Known(tr, k + 1, r, ns));
    }
    forall w | w > Known(tr, k, r, ns) && OwnRecorded(tr, k, r, ns, w)
      ensures Known(tr, k + 1, r, ns) == w
    {
      RaisedExactly(tr, k, r, ns, w);
    }
  }

  lemma {:induction false} Crossing(tr: Trace, i: nat, j: nat, r: nat, ns: Namespace, v: nat) returns (k: nat)
    requires Run(tr) && i <= j <= |tr.events| && r < |tr.states[0].replicas|
    requires Known(tr, i, r, ns) < v <= Known(tr, j, r, ns)
    ensures i <= k < j && Known(tr, k, r, ns) < v <= Known(tr, k + 1, r, ns)
    decreases j
  {
    if Known(tr, j - 1, r, ns) < v {
      k := j - 1;
    } else {
      k := Crossing(tr, i, j - 1, r, ns, v);
    }
  }

  /******* Delivery *******/

  /** Callback `c` ran to success in this round, in a call that began when version `w` was already committed. */
  ghost predicate CalledAt(tr: Trace, s: nat, d: nat, r: nat, t: nat, ns: Namespace, w: nat, c: nat)
    requires Run(tr) && d < |tr.events| && r < |tr.states[0].replicas|
  {
    exists a: nat, b: nat :: Called(tr, s, a, b, d, r, t, c) && w <= Row(tr, a, ns)
  }

  /** Each callback of `ns` ran to success in this one round. */
  ghost predicate AllCalled(tr: Trace, s: nat, d: nat, r: nat, t: nat, ns: Namespace, w: nat)
    requires Run(tr) && d < |tr.events| && r < |tr.states[0].replicas|
  {
    forall c: nat | c < V(tr.states[0].replicas[r].callbacks, ns) :: CalledAt(tr, s, d, r, t, ns, w, c)
  }

  /** Event `k` acknowledges `w` because one round called every callback of `ns` to success. */
  ghost predicate Delivered(tr: Trace, k: nat, r: nat, ns: Namespace, w: nat)
    requires Run(tr) && k < |tr.events| && r < |tr.states[0].replicas|
  {
    && RoundClosed(tr, k, r, ns, w)
    && exists s :: RoundSince(tr, s, k, r, tr.events[k].task, ns, w) && AllCalled(tr, s, k, r, tr.events[k].task, ns, w)
  }

  /** A round calls its callbacks only after the version it read was committed. */
  lemma CalledAfterCommit(tr: Trace, s: nat, a: nat, d: nat, r: nat, t: nat, ns: Namespace, w: nat)
    requires Run(tr) && d <= |tr.events| && r < |tr.states[0].replicas| && RoundSince(tr, s, d, r, t, ns, w)
            && s < a <= d
    ensures w <= Row(tr, a, ns)
  {
    assert InRound(ReplicaAt(tr, a, r), t, ns, w);
    SameReplicas(tr, a);
    RunKeepsInv(tr, a);
    assert ReplicaInv(ReplicaAt(tr, a, r), tr.states[a].shared);
    assert TaskInv(ReplicaAt(tr, a, r), ReplicaAt(tr, a, r).tasks[t], tr.states[a].shared);
  }

  lemma ClosedIsDelivered(tr: Trace, k: nat, r: nat, ns: Namespace, w: nat)
    requires Run(tr) && k < |tr.events| && r < |tr.states[0].replicas| && RoundClosed(tr, k, r, ns, w)
    ensures Delivered(tr, k, r, ns, w)
  {
    var t := tr.events[k].task;
    Stepped(tr, k, r);
    SameReplicas(tr, k);
    var s := RoundBegan(tr, k, r, t, ns, w);
    forall c: nat | c < V(tr.states[0].replicas[r].callbacks, ns)
      ensures CalledAt(tr, s, k, r, t, ns, w, c)
    {
      var a, b := CallSucceeded(tr, s, k, r, t, ns, w, c);
      CalledAfterCommit(tr, s, a, k, r, t, ns, w);
      assert Called(tr, s, a, b, k, r, t, c);
    }
    assert AllCalled(tr, s, k, r, t, ns, w);
  }

  /**
   What a primed replica has acknowledged beyond its state at priming was acknowledged by one event: the end of one
   round in which every callback succeeded, or the record of a `bump_local` that read back at least that version.
   */
  lemma AcknowledgedIsDelivered(tr: Trace, i: nat, r: nat, ns: Namespace, v: nat) returns (k: nat, w: nat)
    requires Run(tr) && i <= |tr.events| && r < |tr.states[0].replicas| && ReplicaAt(tr, i, r).poller.initialized
    requires Known(tr, i, r, ns) < v <= Known(tr, |tr.events|, r, ns)
    ensures i <= k < |tr.events| && w >= v
    ensures Delivered(tr, k, r, ns, w) || OwnRecorded(tr, k, r, ns, w)
  {
    k := Crossing(tr, i, |tr.events|, r, ns, v);
    w := Known(tr, k + 1, r, ns);
    NeverRewinds(tr, i, k, r, ns);
    RaisedExactly(tr, k, r, ns, w);
    if RoundClosed(tr, k, r, ns, w) {
      ClosedIsDelivered(tr, k, r, ns, w);
    }
  }

  /******* Without bump_local *******/

  predicate LocalTask(task: Task, ns: Namespace) {
    || (task.Bumping? && task.caller.Local? && task.ns == ns)
    || (task.ReadingOwn? && task.ns == ns)
    || (task.HoldingOwn? && task.ns == ns)
  }

  ghost predicate NoLocalTask(r: Replica, ns: Namespace) {
    forall t | t in r.tasks :: !LocalTask(r.tasks[t], ns)
  }

  ghost predicate NoLocalBump(tr: Trace, r: nat, ns: Namespace) {
    forall k | 0 <= k < |tr.events| && tr.events[k].replica == r :: tr.events[k].action != Bumps(StartLocalBump(ns))
  }

  /** Only `bump_local` itself starts a local task; later steps hand it on under the same id. */
  lemma ActNoLocal(r: Replica, sh: Shared, t: nat, a: Action, ns: Namespace)
    requires Enabled(r, t, a) && NoLocalTask(r, ns) && a != Bumps(StartLocalBump(ns))
    ensures NoLocalTask(Act(r, sh, t, a), ns)
  {
    var r' := Act(r, sh, t, a);
    match a {
      case Bumps(b) => BumpFrame(r, sh.versions, t, b);
      case Polls(p) => PollFrame(r, sh.versions, t, p);
      case Keys(k) => KeyFrame(r, sh, t, k);
    }
    forall u | u in r'.tasks ensures !LocalTask(r'.tasks[u], ns) {
      if u != t && r'.tasks - {t} == r.tasks - {t} {
        assert u in r'.tasks - {t} && (r'.tasks - {t})[u] == (r.tasks - {t})[u];
      }
    }
  }

  lemma {:induction false} NoLocalAt(tr: Trace, k: nat, r: nat, ns: Namespace)
    requires Run(tr) && k <= |tr.events| && r < |tr.states[0].replicas| && NoLocalBump(tr, r, ns)
    ensures NoLocalTask(ReplicaAt(tr, k, r), ns)
  {
    if k == 0 {
    } else {
      NoLocalAt(tr, k - 1, r, ns);
      Stepped(tr, k - 1, r);
      var e := tr.events[k - 1];
      if e.replica == r {
        ActNoLocal(ReplicaAt(tr, k - 1, r), tr.states[k - 1].shared, e.task, e.action, ns);
      }
    }
  }

  /**
   No lost invalidation. On a replica that does not use `bump_local` on the namespace, the acknowledged version passes
   a version `v` committed after priming only at the end of one round, begun after `v` was committed, in which every
   callback of the namespace ran to success.
   */
  lemma NoLostInvalidation(tr: Trace, i: nat, r: nat, ns: Namespace, v: nat) returns (k: nat, w: nat)
    requires Run(tr) && i <= |tr.events| && r < |tr.states[0].replicas| && NoLocalBump(tr, r, ns)
    requires ReplicaAt(tr, i, r).poller.initialized && Row(tr, i, ns) < v <= Known(tr, |tr.events|, r, ns)
    ensures i <= k < |tr.events| && w >= v && Delivered(tr, k, r, ns, w)
    ensures forall a | 0 <= a <= i :: Row(tr, a, ns) < w
  {
    AcknowledgedBelowShared(tr, i, r, ns);
    k, w := AcknowledgedIsDelivered(tr, i, r, ns, v);
    NoLocalAt(tr, k, r, ns);
    forall a | 0 <= a <= i
      ensures Row(tr, a, ns) < w
    {
      NeverRewinds(tr, a, i, r, ns);
    }
  }

  /******* Stale and failed rows *******/

  ghost predicate TakesRow(tr: Trace, k: nat, r: nat, ns: Namespace, w: nat)
    requires Run(tr) && k < |tr.events| && r < |tr.states[0].replicas|
  {
    var t, tasks := tr.events[k].task, ReplicaAt(tr, k, r).tasks;
    && tr.events[k].replica == r && tr.events[k].action == Polls(NextRow(ns))
    && t in tasks && tasks[t].Rows? && ns in tasks[t].rows && tasks[t].rows[ns] == w
  }

  predicate InRows(r: Replica, t: nat) { t in r.tasks && r.tasks[t].Rows? }

  /** Taking a row starts a round of callbacks exactly when it is a change. */
  lemma RoundIffChanged(tr: Trace, k: nat, r: nat, ns: Namespace, w: nat)
    requires Run(tr) && k < |tr.events| && r < |tr.states[0].replicas| && TakesRow(tr, k, r, ns, w)
    ensures InRound(ReplicaAt(tr, k + 1, r), tr.events[k].task, ns, w) <==> Changed(ReplicaAt(tr, k, r).poller, ns, w)
    ensures !Changed(ReplicaAt(tr, k, r).poller, ns, w) ==> InRows(ReplicaAt(tr, k + 1, r), tr.events[k].task)
  {
    Stepped(tr, k, r);
  }

  /**
   A snapshot row no newer than a version the replica acknowledged at any earlier point, even while the poll was under
   way, starts no round and raises nothing.
   */
  lemma StaleRowIsSilent(tr: Trace, j: nat, k: nat, r: nat, ns: Namespace, w: nat)
    requires Run(tr) && j <= k < |tr.events| && r < |tr.states[0].replicas|
    requires TakesRow(tr, k, r, ns, w) && w <= Known(tr, j, r, ns)
    ensures InRows(ReplicaAt(tr, k + 1, r), tr.events[k].task)
    ensures forall n :: Known(tr, k + 1, r, n) == Known(tr, k, r, n)
  {
    NeverRewinds(tr, j, k, r, ns);
    RoundIffChanged(tr, k, r, ns, w);
    Stepped(tr, k, r);
  }

  /** Event `d` ends a round for `w` in which some callback failed. */
  ghost predicate RoundFailed(tr: Trace, d: nat, r: nat, ns: Namespace, w: nat)
    requires Run(tr) && d < |tr.events| && r < |tr.states[0].replicas|
  {
    var t, tasks := tr.events[d].task, ReplicaAt(tr, d, r).tasks;
    && tr.events[d].replica == r && tr.events[d].action == Polls(RoundDone)
    && t in tasks && tasks[t].Round? && tasks[t].ns == ns && tasks[t].version == w && !tasks[t].ok
  }

  /**
   A failed round acknowledges nothing, and from then on taking a row at least as new runs the callbacks again if and
   only if that version was not acknowledged in between.
   */
  lemma FailedRoundIsRetried(tr: Trace, d: nat, k: nat, r: nat, ns: Namespace, w: nat, w': nat)
    requires Run(tr) && d < k < |tr.events| && r < |tr.states[0].replicas|
    requires RoundFailed(tr, d, r, ns, w) && TakesRow(tr, k, r, ns, w') && w' >= w
    ensures ReplicaAt(tr, d + 1, r).poller == ReplicaAt(tr, d, r).poller
    ensures InRound(ReplicaAt(tr, k + 1, r), tr.events[k].task, ns, w') <==> Known(tr, k, r, ns) < w'
  {
    Stepped(tr, d, r);
    var s := RoundBegan(tr, d, r, tr.events[d].task, ns, w);
    NeverRewinds(tr, s, k, r, ns);
    RoundIffChanged(tr, k, r, ns, w');
  }
}
