/** Lease safety and rotation coalescing over all runs of the HTTP client module. */
module HttpClientProofs {
  import opened Basics
  import opened HttpClients

  /******* Lists without repetition *******/

  ghost predicate Unique(s: seq<Id>) {
    forall i, j | 0 <= i < j < |s| :: s[i] != s[j]
  }

  lemma {:induction false} RemovedUnique(s: seq<Id>, x: Id)
    requires Unique(s)
    ensures Unique(Removed(s, x)) && x !in Removed(s, x)
  {
    if s == [] {
    } else {
      RemovedUnique(s[1..], x);
      assert s[0] !in s[1..];
    }
  }

  /******* The invariant of the globals *******/

  ghost predicate ClientInv(g: Globals, c: Id)
    requires c in g.clients
  {
    var m := g.clients[c];
    && m.leases >= 0
    && (m.closed ==> m.closeTask) && (m.closeTask ==> m.requested)
    && m.closes == (if m.closeTask then 1 else 0)
    && (m.forced ==> m.closeTask) && (m.closeTask && !m.forced ==> m.leases == 0)
    && (c in g.retired <==> m.requested && !m.closeTask)
    && (m.requested && !m.closeTask ==> m.leases > 0)
    && (c in g.closing <==> m.closeTask && !m.closed)
    && (g.current == Some(c) ==> !m.requested)
  }

  ghost predicate GlobalsInv(g: Globals) {
    && (forall c | c in g.clients :: ClientInv(g, c))
    && (forall c | c in g.retired || c in g.closing :: c in g.clients)
    && Unique(g.retired) && Unique(g.closing)
    && (g.current.Some? ==> g.current.value in g.clients)
  }

  /** Every client that is not current has been asked to close. */
  ghost predicate Settled(g: Globals) {
    forall c | c in g.clients && g.current != Some(c) :: g.clients[c].requested
  }

  /** A locked helper acting on `c` leaves every other client and the current one alone. */
  ghost predicate OnlyTouches(g: Globals, g': Globals, c: Id) {
    && g'.current == g.current && g'.lastRotation == g.lastRotation && g'.clients.Keys == g.clients.Keys
    && forall d | d in g.clients && d != c :: g'.clients[d] == g.clients[d]
  }

  /** Closing a client that was asked to: afterwards it has its one close task, forced only if leases were live. */
  lemma StartCloseKeeps(g: Globals, c: Id)
    requires c in g.clients && g.clients[c].requested && g.current != Some(c) && g.clients[c].leases >= 0
    requires forall d | d in g.clients && d != c :: ClientInv(g, d)
    requires g.clients[c].closeTask ==> ClientInv(g, c)
    requires !g.clients[c].closeTask ==>
            g.clients[c].closes == 0 && !g.clients[c].closed && !g.clients[c].forced && c !in g.closing
    requires (forall d | d in g.retired || d in g.closing :: d in g.clients) && Unique(g.retired) && Unique(g.closing)
    requires g.current.Some? ==> g.current.value in g.clients
    ensures GlobalsInv(StartClose(g, c)) && OnlyTouches(g, StartClose(g, c), c)
    ensures StartClose(g, c).clients[c].closeTask
  {
    var g' := StartClose(g, c);
    RemovedUnique(g.retired, c);
    forall d | d in g'.clients ensures ClientInv(g', d) {
      if d != c {
        assert ClientInv(g, d);
      }
    }
  }

  lemma RequestKeeps(g: Globals, c: Id, force: bool)
    requires GlobalsInv(g) && c in g.clients && g.current != Some(c) && (force || !g.clients[c].requested)
    ensures GlobalsInv(RequestClose(g, c, force)) && OnlyTouches(g, RequestClose(g, c, force), c)
    ensures RequestClose(g, c, force).clients[c].requested
    ensures force ==> RequestClose(g, c, force).clients[c].closeTask
    ensures RequestClose(g, c, force).clients[c].leases == g.clients[c].leases
  {
    assert ClientInv(g, c);
    var g' := g.(clients := g.clients[c := g.clients[c].(requested := true)]);
    forall d | d in g.clients && d != c ensures ClientInv(g', d) {
      assert ClientInv(g, d);
    }
    if g.clients[c].leases > 0 && !force {
      var g'' := RequestClose(g, c, force);
      forall d | d in g''.clients ensures ClientInv(g'', d) {
        assert ClientInv(g, d);
        assert d in g''.retired <==> d in g.retired || d == c;
      }
    } else {
      StartCloseKeeps(g', c);
    }
  }

  /**
   Releasing one of `c`'s leases never raises, and starts the close exactly when it was the last of a retired client.
   */
  lemma ReleaseKeeps(g: Globals, c: Id)
    requires GlobalsInv(g) && c in g.clients && g.clients[c].leases > 0
    ensures Release(g, c).Ok?
    ensures GlobalsInv(Release(g, c).value) && OnlyTouches(g, Release(g, c).value, c)
    ensures Release(g, c).value.clients[c].leases == g.clients[c].leases - 1
    ensures Release(g, c).value.clients[c].requested == g.clients[c].requested
  {
    assert ClientInv(g, c);
    var m := g.clients[c].(leases := g.clients[c].leases - 1);
    var g' := g.(clients := g.clients[c := m]);
    forall d | d in g.clients && d != c ensures ClientInv(g', d) {
      assert ClientInv(g, d);
    }
    if m.requested && m.leases == 0 {
      StartCloseKeeps(g', c);
    } else {
      assert ClientInv(g', c);
    }
  }

  lemma InstallKeeps(g: Globals, c: Id)
    requires GlobalsInv(g) && Settled(g) && c !in g.clients
    ensures GlobalsInv(Install(g, c)) && Settled(Install(g, c))
    ensures Install(g, c).current == Some(c) && Install(g, c).clients.Keys == g.clients.Keys + {c}
    ensures Install(g, c).clients[c].leases == 0
    ensures forall d | d in g.clients :: Install(g, c).clients[d].leases == g.clients[d].leases
  {
    var g' := g.(current := Some(c), clients := g.clients[c := Fresh()]);
    forall d | d in g'.clients ensures ClientInv(g', d) {
      if d != c {
        assert ClientInv(g, d);
      }
    }
    if g.current.Some? {
      RequestKeeps(g', g.current.value, false);
    }
  }

  lemma {:induction false} ForceAllKeeps(g: Globals, ids: seq<Id>)
    requires GlobalsInv(g) && g.current.None? && forall c | c in ids :: c in g.clients
    ensures GlobalsInv(ForceAll(g, ids)) && ForceAll(g, ids).current.None?
    ensures forall c | c in g.clients :: ForceAll(g, ids).clients[c].leases == g.clients[c].leases
    ensures forall c | c in g.clients && g.clients[c].closeTask :: ForceAll(g, ids).clients[c].closeTask
    ensures forall c | c in ids :: ForceAll(g, ids).clients[c].closeTask
    decreases |ids|
  {
    if ids == [] {
    } else {
      RequestKeeps(g, ids[0], true);
      var g' := RequestClose(g, ids[0], true);
      assert forall c | c in g.clients && g.clients[c].closeTask :: g'.clients[c].closeTask by {
        assert ClientInv(g, ids[0]);
      }
      ForceAllKeeps(g', ids[1..]);
    }
  }

  /** A forced shutdown leaves no client without a close task. */
  lemma ShutdownKeeps(g: Globals)
    requires GlobalsInv(g) && Settled(g)
    ensures forall c | c in ShutdownList(g) :: c in g.clients
    ensures GlobalsInv(Shutdown(g)) && Settled(Shutdown(g)) && Shutdown(g).current.None?
    ensures forall c | c in g.clients ::
            Shutdown(g).clients[c].closeTask && Shutdown(g).clients[c].leases == g.clients[c].leases
  {
    var g' := g.(current := None, lastRotation := None);
    var ids := ShutdownList(g);
    forall c | c in g'.clients ensures ClientInv(g', c) && (g.clients[c].closeTask || c in ids) {
      assert ClientInv(g, c);
    }
    ForceAllKeeps(g', ids);
    assert GlobalsInv(Shutdown(g));
    forall c | c in g.clients ensures Shutdown(g).clients[c].closeTask && Shutdown(g).clients[c].requested {
      assert ClientInv(Shutdown(g), c);
    }
  }

  /******* Leases *******/

  /** The lease objects of `c` whose release has not been applied. */
  function Live(leases: map<nat, Lease>, c: Id): set<nat> {
    set l | l in leases && leases[l].client == c && !leases[l].state.Released?
  }

  ghost predicate Counted(s: System) {
    && (forall l | l in s.leases :: s.leases[l].client in s.globals.clients)
    && forall c | c in s.globals.clients :: s.globals.clients[c].leases == |Live(s.leases, c)|
  }

  ghost predicate LockInv(s: System) {
    && (forall c | c in s.globals.clients :: c < s.next)
    && (s.lock.Some? && s.lock.value.AfterFailure? ==> Judge(s.globals, s.lock.value.failed, s.lock.value.now).Rotate?)
  }

  ghost predicate Inv(s: System) {
    GlobalsInv(s.globals) && Settled(s.globals) && Counted(s) && LockInv(s)
  }

  lemma LiveSame(leases: map<nat, Lease>, leases': map<nat, Lease>, c: Id, l: nat)
    requires l in leases'
            && (forall k | k != l :: (k in leases <==> k in leases') && (k in leases ==> leases[k] == leases'[k]))
    requires (l in leases && leases[l].client == c && !leases[l].state.Released?) ==
            (leases'[l].client == c && !leases'[l].state.Released?)
    ensures Live(leases', c) == Live(leases, c)
  {
  }

  lemma AcquireCounts(s: System, s': System, l: nat, c: Id)
    requires Counted(s) && c in s.globals.clients && l !in s.leases && s'.leases == s.leases[l := Lease(c, Held)]
    requires s'.globals.clients ==
            s.globals.clients[c := s.globals.clients[c].(leases := s.globals.clients[c].leases + 1)]
    ensures Counted(s')
  {
    forall d | d in s'.globals.clients ensures s'.globals.clients[d].leases == |Live(s'.leases, d)| {
      if d == c {
        assert Live(s'.leases, c) == Live(s.leases, c) + {l};
      } else {
        LiveSame(s.leases, s'.leases, d, l);
      }
    }
  }

  lemma AcquireKeeps(s: System, l: nat)
    requires Inv(s) && Enabled(s, Acquire(l))
    ensures Inv(Step(s, Acquire(l)))
  {
    var s', c := Step(s, Acquire(l)), s.globals.current.value;
    AcquireCounts(s, s', l, c);
    forall d | d in s'.globals.clients ensures ClientInv(s'.globals, d) {
      assert ClientInv(s.globals, d);
    }
  }

  lemma ReleaseCounts(s: System, s': System, l: nat, c: Id)
    requires Counted(s) && l in s.leases && s.leases[l] == Lease(c, Closing)
            && s'.leases == s.leases[l := Lease(c, Released)]
    requires s'.globals.clients.Keys == s.globals.clients.Keys
    requires forall d | d in s.globals.clients ::
            s'.globals.clients[d].leases == s.globals.clients[d].leases - if d == c then 1 else 0
    ensures Counted(s')
  {
    forall d | d in s'.globals.clients ensures s'.globals.clients[d].leases == |Live(s'.leases, d)| {
      if d == c {
        assert Live(s.leases, c) == Live(s'.leases, c) + {l};
      } else {
        LiveSame(s.leases, s'.leases, d, l);
      }
    }
  }

  lemma FinishReleaseKeeps(s: System, l: nat)
    requires Inv(s) && Enabled(s, FinishRelease(l))
    ensures Release(s.globals, s.leases[l].client).Ok?
    ensures Inv(Step(s, FinishRelease(l)))
  {
    var c := s.leases[l].client;
    assert l in Live(s.leases, c);
    ReleaseKeeps(s.globals, c);
    ReleaseCounts(s, Step(s, FinishRelease(l)), l, c);
  }

  lemma BeginReleaseKeeps(s: System, l: nat)
    requires Inv(s) && Enabled(s, BeginRelease(l))
    ensures Inv(Step(s, BeginRelease(l)))
  {
    var s' := Step(s, BeginRelease(l));
    forall d | d in s'.globals.clients ensures s'.globals.clients[d].leases == |Live(s'.leases, d)| {
      LiveSame(s.leases, s'.leases, d, l);
    }
  }

  lemma RotationTimeIrrelevant(g: Globals, at: Option<real>)
    requires GlobalsInv(g) && Settled(g)
    ensures GlobalsInv(g.(lastRotation := at)) && Settled(g.(lastRotation := at))
  {
    var g' := g.(lastRotation := at);
    forall d | d in g'.clients ensures ClientInv(g', d) {
      assert ClientInv(g, d);
    }
  }

  lemma BuiltCounts(s: System, s': System, c: Id)
    requires Counted(s) && c !in s.globals.clients && s'.leases == s.leases
            && s'.globals.clients.Keys == s.globals.clients.Keys + {c}
    requires s'.globals.clients[c].leases == 0 && forall d | d in s.globals.clients ::
            s'.globals.clients[d].leases == s.globals.clients[d].leases
    ensures Counted(s')
  {
    assert Live(s.leases, c) == {};
  }

  lemma BuiltKeeps(s: System)
    requires Inv(s) && Enabled(s, Built)
    ensures Inv(Step(s, Built))
  {
    InstallKeeps(s.globals, s.next);
    var s' := Step(s, Built);
    RotationTimeIrrelevant(Install(s.globals, s.next), s'.globals.lastRotation);
    BuiltCounts(s, s', s.next);
  }

  lemma CloseAllKeeps(s: System)
    requires Inv(s) && Enabled(s, CloseAll)
    ensures Inv(Step(s, CloseAll))
  {
    ShutdownKeeps(s.globals);
  }

  lemma CloseCompletesKeeps(s: System, c: Id)
    requires Inv(s) && Enabled(s, CloseCompletes(c))
    ensures Inv(Step(s, CloseCompletes(c)))
  {
    var s' := Step(s, CloseCompletes(c));
    RemovedUnique(s.globals.closing, c);
    forall d | d in s'.globals.clients ensures ClientInv(s'.globals, d) {
      assert ClientInv(s.globals, d);
    }
  }

  lemma StepKeepsInv(s: System, e: Event)
    requires Inv(s) && Enabled(s, e)
    ensures Inv(Step(s, e))
  {
    match e
    case Acquire(l) => AcquireKeeps(s, l);
    case BeginRelease(l) => BeginReleaseKeeps(s, l);
    case FinishRelease(l) => FinishReleaseKeeps(s, l);
    case Built => BuiltKeeps(s);
    case CloseAll => CloseAllKeeps(s);
    case CloseCompletes(c) => CloseCompletesKeeps(s, c);
    case _ =>
  }

  lemma {:induction false} RunKeepsInv(tr: Trace, k: nat)
    requires Run(tr) && k < |tr.states|
    ensures Inv(tr.states[k])
  {
    if k == 0 {
    } else {
      RunKeepsInv(tr, k - 1);
      assert Leads(tr, k - 1);
      StepKeepsInv(tr.states[k - 1], tr.events[k - 1]);
    }
  }

  /******* What the invariant means *******/

  /** The guards that mention known clients never block a step: lookups succeed and ids are fresh. */
  lemma GuardsHold(s: System)
    requires Inv(s)
    ensures s.globals.current.Some? ==> s.globals.current.value in s.globals.clients
    ensures forall l | l in s.leases :: s.leases[l].client in s.globals.clients
    ensures s.next !in s.globals.clients
    ensures forall c | c in ShutdownList(s.globals) :: c in s.globals.clients
  {
  }

  /** In every run, releasing a lease whose close began never raises: counts equal open lease objects. */
  lemma ReleaseNeverRaises(tr: Trace, k: nat, l: nat)
    requires Run(tr) && k < |tr.states| && l in tr.states[k].leases && tr.states[k].leases[l].state.Closing?
    ensures var s := tr.states[k];
            var c := s.leases[l].client;
            c in s.globals.clients && s.globals.clients[c].leases == |Live(s.leases, c)| > 0
                && Release(s.globals, c).Ok?
  {
    RunKeepsInv(tr, k);
    var s := tr.states[k];
    assert l in Live(s.leases, s.leases[l].client);
  }

  /**
   Lease safety in every state of every run. The count of a client is the number of its unreleased leases; the
   current client was never asked to close; every other client is retired with live leases or has a close task; no
   client ever gets a second close task; and a close task started outside a forced shutdown finds, and leaves, no
   live lease.
   */
  lemma LeaseSafety(tr: Trace, k: nat, c: Id)
    requires Run(tr) && k < |tr.states| && c in tr.states[k].globals.clients
    ensures var g := tr.states[k].globals;
            var m := g.clients[c];
            && m.leases == |Live(tr.states[k].leases, c)|
            && (g.current == Some(c) ==> !m.requested && !m.closeTask)
            && (g.current != Some(c) ==> (c in g.retired && m.leases > 0 && !m.closeTask) || m.closeTask)
            && m.closes <= 1
            && (m.closeTask && !m.forced ==> Live(tr.states[k].leases, c) == {})
  {
    RunKeepsInv(tr, k);
    assert ClientInv(tr.states[k].globals, c);
  }

  /** Only a forced shutdown starts a close over live leases. */
  lemma ForcedOnlyByShutdown(s: System, e: Event, c: Id)
    requires Inv(s) && Enabled(s, e) && c in s.globals.clients && c in Step(s, e).globals.clients
    requires !s.globals.clients[c].closeTask && Step(s, e).globals.clients[c].closeTask
    requires Live(Step(s, e).leases, c) != {}
    ensures e == CloseAll
  {
    StepKeepsInv(s, e);
    var g' := Step(s, e).globals;
    assert g'.clients[c].leases == |Live(Step(s, e).leases, c)|;
    assert ClientInv(s.globals, c);
    if e.FinishRelease? {
      ReleaseForcesNothing(s.globals, s.leases[e.lease].client);
    }
  }

  lemma ReleaseForcesNothing(g: Globals, d: Id)
    requires d in g.clients && Release(g, d).Ok?
    ensures forall c
            | c in g.clients && c in Release(g, d).value.clients && !g.clients[c].closeTask
            && Release(g, d).value.clients[c].closeTask ::
              Release(g, d).value.clients[c].leases == 0
  {
  }

  /******* Rotation coalescing *******/

  /** Event `k` completes a failure report's build and replaces the client that was current. */
  ghost predicate Rotates(tr: Trace, k: nat)
    requires Run(tr) && k < |tr.events|
  {
    tr.events[k] == Built && tr.states[k].lock.Some? && tr.states[k].lock.value.AfterFailure?
  }

  ghost function RotatedAt(tr: Trace, k: nat): real
    requires Run(tr) && k < |tr.events| && Rotates(tr, k)
  {
    tr.states[k].lock.value.now
  }

  /** Once a newer client exists, an older one never becomes current again. */
  lemma {:induction false} NeverCurrentAgain(tr: Trace, i: nat, j: nat, c: Id)
    requires Run(tr) && i <= j < |tr.states| && c < tr.states[i].next && tr.states[i].globals.current != Some(c)
    ensures c < tr.states[j].next && tr.states[j].globals.current != Some(c)
    decreases j
  {
    if i >= j {
    } else {
      NeverCurrentAgain(tr, i, j - 1, c);
      assert Leads(tr, j - 1);
      RunKeepsInv(tr, j - 1);
      StepCurrent(tr.states[j - 1], tr.events[j - 1]);
    }
  }

  lemma StepCurrent(s: System, e: Event)
    requires Inv(s) && Enabled(s, e)
    ensures Step(s, e).next == (if e == Built then s.next + 1 else s.next)
    ensures Step(s, e).globals.current ==
            if e == Built then Some(s.next) else if e == CloseAll then None else s.globals.current
    ensures Step(s, e).globals.lastRotation ==
            if e == Built && s.lock.value.AfterFailure? then Some(s.lock.value.now) else if e == CloseAll then None
                else s.globals.lastRotation
  {
    match e
    case FinishRelease(l) =>
      FinishReleaseKeeps(s, l);
      assert l in Live(s.leases, s.leases[l].client);
      ReleaseKeeps(s.globals, s.leases[l].client);
    case Built => InstallTimes(s.globals, s.next);
    case CloseAll =>
      ShutdownKeeps(s.globals);
      ForceAllTimes(s.globals.(current := None, lastRotation := None), ShutdownList(s.globals));
    case _ =>
  }

  lemma InstallTimes(g: Globals, c: Id)
    requires GlobalsInv(g) && c !in g.clients
    ensures Install(g, c).lastRotation == g.lastRotation && Install(g, c).current == Some(c)
  {
  }

  lemma {:induction false} ForceAllTimes(g: Globals, ids: seq<Id>)
    requires forall c | c in ids :: c in g.clients
    ensures ForceAll(g, ids).lastRotation == g.lastRotation && ForceAll(g, ids).current == g.current
    decreases |ids|
  {
    if ids == [] {
    } else {
      ForceAllTimes(RequestClose(g, ids[0], true), ids[1..]);
    }
  }

  /** However many reports name sessions of one generation, at most one rotates it away. */
  lemma RotatedAtMostOnce(tr: Trace, i: nat, j: nat, generation: Id)
    requires Run(tr) && i < j < |tr.events| && Rotates(tr, i) && Rotates(tr, j)
    requires tr.states[i].lock.value.failed.Some? && tr.states[i].lock.value.failed.value.client == generation
    requires tr.states[j].lock.value.failed.Some?
    ensures tr.states[j].lock.value.failed.value.client != generation
  {
    assert Leads(tr, i);
    RunKeepsInv(tr, i);
    RunKeepsInv(tr, j);
    StepCurrent(tr.states[i], tr.events[i]);
    NeverCurrentAgain(tr, i + 1, j, generation);
  }

  /** Event `i` is the latest failure rotation before state `j`, and no shutdown came after it. */
  ghost predicate LatestRotation(tr: Trace, i: nat, j: nat)
    requires Run(tr) && j <= |tr.events|
  {
    i < j && Rotates(tr, i) && forall k: nat | i < k < j :: !Rotates(tr, k) && tr.events[k] != CloseAll
  }

  lemma {:induction false} LastRotationKept(tr: Trace, i: nat, j: nat)
    requires Run(tr) && j <= |tr.events| && LatestRotation(tr, i, j)
    ensures tr.states[j].globals.lastRotation == Some(RotatedAt(tr, i))
    decreases j
  {
    assert Leads(tr, j - 1);
    RunKeepsInv(tr, j - 1);
    StepCurrent(tr.states[j - 1], tr.events[j - 1]);
    if j > i + 1 {
      LastRotationKept(tr, i, j - 1);
      assert !Rotates(tr, j - 1);
    }
  }

  lemma {:induction false} LastRotationOrigin(tr: Trace, j: nat) returns (i: nat)
    requires Run(tr) && j <= |tr.events| && tr.states[j].globals.lastRotation.Some?
    ensures LatestRotation(tr, i, j)
    decreases j
  {
    if j == 0 {
      assert false;
    } else {
      assert Leads(tr, j - 1);
      RunKeepsInv(tr, j - 1);
      StepCurrent(tr.states[j - 1], tr.events[j - 1]);
      if Rotates(tr, j - 1) {
        i := j - 1;
      } else {
        i := LastRotationOrigin(tr, j - 1);
      }
    }
  }

  /**
   A report that names a session starts a rotation if and only if that session belongs to the current client, however
   recent the last rotation is.
   */
  lemma NamedReportRotates(tr: Trace, k: nat, failed: Session, now: real)
    requires Run(tr) && k < |tr.events| && tr.events[k] == Report(Some(failed), now)
    ensures tr.states[k + 1].lock == Some(AfterFailure(Some(failed), now)) <==>
              tr.states[k].globals.current == Some(failed.client)
    ensures tr.states[k + 1].globals == tr.states[k].globals
  {
    assert Leads(tr, k);
  }

  /**
   A report that names no session starts a rotation if and only if a client is current and the latest failure rotation
   since the last shutdown, if there is one, is at least the cooldown ago.
   */
  lemma SessionlessReportRotates(tr: Trace, k: nat, now: real)
    requires Run(tr) && k < |tr.events| && tr.events[k] == Report(None, now)
    ensures tr.states[k + 1].lock == Some(AfterFailure(None, now)) <==>
              tr.states[k].globals.current.Some? && forall i: nat | LatestRotation(tr, i, k) ::
                  now - RotatedAt(tr, i) >= 1.0
  {
    assert Leads(tr, k);
    forall i: nat | LatestRotation(tr, i, k)
      ensures tr.states[k].globals.lastRotation == Some(RotatedAt(tr, i))
    {
      LastRotationKept(tr, i, k);
    }
    if tr.states[k].globals.lastRotation.Some? {
      var i := LastRotationOrigin(tr, k);
    }
  }

  /**
   So a rotation for such a report comes at least the cooldown after the previous one, unless a shutdown lies between.
   */
  lemma CooldownKept(tr: Trace, i: nat, j: nat)
    requires Run(tr) && i < j < |tr.events| && Rotates(tr, i) && Rotates(tr, j) && tr.states[j].lock.value.failed.None?
    requires forall k: nat | i < k < j :: !Rotates(tr, k)
    ensures RotatedAt(tr, j) - RotatedAt(tr, i) >= 1.0 || exists k: nat ::
            i < k < j && tr.events[k] == CloseAll
  {
    if forall k: nat | i < k < j :: tr.events[k] != CloseAll {
      LastRotationKept(tr, i, j);
      RunKeepsInv(tr, j);
    }
  }

  /******* A shutdown forgets the cooldown *******/

  lemma Extended(tr: Trace, e: Event) returns (more: Trace)
    requires Run(tr) && Enabled(Traces.Last(tr), e)
    ensures Run(more) && more.events == tr.events + [e] && more.states == tr.states + [Step(Traces.Last(tr), e)]
  {
    more := Traces.Trace(tr.states + [Step(Traces.Last(tr), e)], tr.events + [e]);
    forall k: nat | k < |more.events|
      ensures Leads(more, k)
    {
      if k < |tr.events| {
        assert Leads(tr, k);
      }
    }
  }

  /** The client the lock holder waits for is built. */
  lemma Installed(tr: Trace) returns (more: Trace)
    requires Run(tr) && Traces.Last(tr).lock.Some?
    ensures Run(more) && more.events == tr.events + [Built] && tr.states <= more.states
    ensures Traces.Last(more).lock.None? && Traces.Last(more).globals.current.Some?
    ensures Traces.Last(more).globals.lastRotation ==
              if Traces.Last(tr).lock.value.AfterFailure? then Some(Traces.Last(tr).lock.value.now)
                  else Traces.Last(tr).globals.lastRotation
  {
    RunKeepsInv(tr, |tr.events|);
    GuardsHold(Traces.Last(tr));
    more := Extended(tr, Built);
    StepCurrent(Traces.Last(tr), Built);
  }

  /** From an idle module without a client: initialization, then a rotation for a report that names no session. */
  lemma StartedAndRotated(tr: Trace, now: real) returns (more: Trace)
    requires Run(tr) && Traces.Last(tr).lock.None? && Traces.Last(tr).globals.current.None?
            && Traces.Last(tr).globals.lastRotation.None?
    ensures Run(more) && more.events == tr.events + [BeginInit, Built, Report(None, now), Built]
            && tr.states <= more.states
    ensures more.states[|more.events| - 1].lock == Some(AfterFailure(None, now)) && Traces.Last(more).lock.None?
  {
    more := Extended(tr, BeginInit);
    more := Installed(more);
    more := Extended(more, Report(None, now));
    ghost var reported := more;
    more := Installed(more);
    assert more.states[|more.events| - 1] == Traces.Last(reported);
  }

  lemma ShutDown(tr: Trace) returns (more: Trace)
    requires Run(tr) && Traces.Last(tr).lock.None?
    ensures Run(more) && more.events == tr.events + [CloseAll] && tr.states <= more.states
    ensures Traces.Last(more).lock.None? && Traces.Last(more).globals.current.None?
            && Traces.Last(more).globals.lastRotation.None?
  {
    RunKeepsInv(tr, |tr.events|);
    GuardsHold(Traces.Last(tr));
    StepCurrent(Traces.Last(tr), CloseAll);
    more := Extended(tr, CloseAll);
  }

  /** Two rotations for reports that name no session, half a second apart, with a shutdown between them. */
  lemma ShutdownForgetsCooldown() returns (tr: Trace)
    ensures Run(tr) && |tr.events| == 9 && tr.events[4] == CloseAll
    ensures Rotates(tr, 3) && Rotates(tr, 8) && tr.states[3].lock.value.failed == tr.states[8].lock.value.failed == None
    ensures RotatedAt(tr, 8) - RotatedAt(tr, 3) == 0.5
  {
    var start := Traces.Trace([System(Globals(None, map[], [], [], None), map[], None, 0)], []);
    var first := StartedAndRotated(start, 10.0);
    var closed := ShutDown(first);
    tr := StartedAndRotated(closed, 10.5);
    assert |first.events| == 4 && |closed.events| == 5;
    assert tr.states[3] == closed.states[3] == first.states[3];
    assert tr.events[3] == first.events[3] && tr.events[4] == closed.events[4];
  }
}
