/** Runs that show what the delivery theorems and the documentation of `prime` leave out. */
module InvalidationWitnesses {
  import opened ApiKeyCaching
  import opened Invalidation
  import opened InvalidationProofs
  import opened InvalidationRuns
  import opened InvalidationDelivery

  /** A replica with one callback for `ns`, the versions it has acknowledged and one task, if any, in flight. */
  function Replica0(ns: Namespace, known: Versions, initialized: bool, tasks: map<nat, Task>): Replica {
    Replica(Poller(known, {}, initialized), Cache(map[], 0), tasks, map[API_KEY := 1, ns := 1], History(map[], 0))
  }

  function Rows0(ns: Namespace, version: nat): Shared { Shared(if version == 0 then map[] else map[ns := version], 0) }

  /** Two replicas, the first primed; `task0` and `task1` are what each has in flight. */
  function Pair(ns: Namespace, version: nat, known: Versions, task0: map<nat, Task>, task1: map<nat, Task>): System {
    System(Rows0(ns, version), [Replica0(ns, known, true, task0), Replica0(ns, map[], false, task1)])
  }

  /** A single replica. */
  function Solo(ns: Namespace, version: nat, known: Versions, initialized: bool, tasks: map<nat, Task>): System {
    System(Rows0(ns, version), [Replica0(ns, known, initialized, tasks)])
  }

  /** Event `e` leads from `s` to `next`. */
  predicate Goes(s: System, e: Event, next: System) { Possible(s, e) && Step(s, e) == next }

  /** A step of a single replica shown by its parts. */
  lemma SoloGoes(ns: Namespace, version: nat, known: Versions, initialized: bool, tasks: map<nat, Task>, a: Action,
                 version': nat, known': Versions, initialized': bool, tasks': map<nat, Task>)
    requires var r, sh := Replica0(ns, known, initialized, tasks), Rows0(ns, version);
             && Enabled(r, 0, a) && SharedAfter(sh, r, 0, a).versions == Rows0(ns, version').versions
             && SharedAfter(sh, r, 0, a).mutations == 0
             && var r' := Act(r, sh, 0, a);
                && r'.tasks == tasks' && r'.poller.known == known' && r'.poller.initialized == initialized'
                && r'.poller.pending == {} && r'.cache == r.cache && r'.callbacks == r.callbacks
                    && r'.history == r.history
    ensures Goes(Solo(ns, version, known, initialized, tasks), Event(0, 0, a),
            Solo(ns, version', known', initialized', tasks'))
  {
    var s := Step(Solo(ns, version, known, initialized, tasks), Event(0, 0, a));
    assert s.replicas == [Replica0(ns, known', initialized', tasks')];
  }

  /** A step of one of two replicas shown by its parts. */
  lemma PairGoes(ns: Namespace, s: System, e: Event, next: System)
    requires Possible(s, e) && |s.replicas| == |next.replicas| == 2
    requires var t := Step(s, e);
             && t.shared.versions == next.shared.versions && t.shared.mutations == next.shared.mutations
             && forall i | 0 <= i < 2 ::
                  && t.replicas[i].tasks == next.replicas[i].tasks
                  && t.replicas[i] == next.replicas[i].(tasks := t.replicas[i].tasks)
    ensures Goes(s, e, next)
  {
    assert Step(s, e).replicas == next.replicas;
  }

  /******* bump_local *******/

  function Absorbing(ns: Namespace): Trace {
    var local, peer := Bumping(ns, 0, false, Local), Bumping(ns, 0, false, Plain(0));
    Traces.Trace(
      [System(Rows0(ns, 0), [Replica0(ns, map[], false, map[]), Replica0(ns, map[], false, map[])]),
       Pair(ns, 0, map[], map[], map[]),
       Pair(ns, 0, map[], map[0 := local], map[]),
       Pair(ns, 1, map[], map[0 := local.(committed := true)], map[]),
       Pair(ns, 1, map[], map[0 := ReadingOwn(ns)], map[]),
       Pair(ns, 1, map[], map[0 := ReadingOwn(ns)], map[0 := peer]),
       Pair(ns, 2, map[], map[0 := ReadingOwn(ns)], map[0 := peer.(committed := true)]),
       Pair(ns, 2, map[], map[0 := HoldingOwn(ns, 2)], map[0 := peer.(committed := true)]),
       Pair(ns, 2, map[ns := 2], map[], map[0 := peer.(committed := true)])],
      [Event(0, 0, Polls(Initialize)),
       Event(0, 0, Bumps(StartLocalBump(ns))),
       Event(0, 0, Bumps(Commit)),
       Event(0, 0, Bumps(Returns(Committed))),
       Event(1, 0, Bumps(StartBump(ns))),
       Event(1, 0, Bumps(Commit)),
       Event(0, 0, Polls(ReadOwn)),
       Event(0, 0, Polls(RecordOwn))])
  }

  lemma AbsorbingStart(ns: Namespace, k: nat)
    requires ns != API_KEY && k in {0, 1}
    ensures Leads(Absorbing(ns), k)
  {
    var tr := Absorbing(ns);
    PairGoes(ns, tr.states[k], tr.events[k], tr.states[k + 1]);
  }

  lemma AbsorbingCommit(ns: Namespace, k: nat)
    requires ns != API_KEY && k in {2, 3}
    ensures Leads(Absorbing(ns), k)
  {
    var tr := Absorbing(ns);
    PairGoes(ns, tr.states[k], tr.events[k], tr.states[k + 1]);
  }

  lemma AbsorbingPeer(ns: Namespace, k: nat)
    requires ns != API_KEY && k in {4, 5}
    ensures Leads(Absorbing(ns), k)
  {
    var tr := Absorbing(ns);
    PairGoes(ns, tr.states[k], tr.events[k], tr.states[k + 1]);
  }

  lemma AbsorbingRecord(ns: Namespace, k: nat)
    requires ns != API_KEY && k in {6, 7}
    ensures Leads(Absorbing(ns), k)
  {
    var tr := Absorbing(ns);
    PairGoes(ns, tr.states[k], tr.events[k], tr.states[k + 1]);
  }

  /**
   A primed replica that uses `bump_local` can acknowledge a peer's later bump (version 2 here, committed between its
   own commit and its acknowledging read) in a run without any callback.
   */
  lemma LocalBumpAbsorbsPeerBump(ns: Namespace)
    requires ns != API_KEY
    ensures var tr := Absorbing(ns);
            && Run(tr) && ReplicaAt(tr, 1, 0).poller.initialized && Row(tr, 1, ns) == 0 && Known(tr, 8, 0, ns) == 2
            && tr.events[5] == Event(1, 0, Bumps(Commit)) && Row(tr, 5, ns) == 1 && Row(tr, 6, ns) == 2
            && OwnRecorded(tr, 7, 0, ns, 2)
            && forall k | 0 <= k < |tr.events| :: tr.events[k].action != Polls(CallbackStarts)
  {
    var tr := Absorbing(ns);
    forall k: nat | k < |tr.events|
      ensures Leads(tr, k)
    {
      if k < 2 {
        AbsorbingStart(ns, k);
      } else if k < 4 {
        AbsorbingCommit(ns, k);
      } else if k < 6 {
        AbsorbingPeer(ns, k);
      } else {
        AbsorbingRecord(ns, k);
      }
    }
  }

  /******* Priming that runs a callback *******/

  /** One more event of a run. */
  lemma Extended(tr: Trace, e: Event, next: System) returns (more: Trace)
    requires Run(tr) && Goes(Traces.Last(tr), e, next)
    ensures Run(more) && Traces.Last(more) == next && more.events == tr.events + [e]
  {
    more := Traces.Trace(tr.states + [next], tr.events + [e]);
    forall k: nat | k < |more.events|
      ensures Leads(more, k)
    {
      if k < |tr.events| {
        assert Leads(tr, k);
      }
    }
  }

  lemma Begun(ns: Namespace) returns (tr: Trace)
    ensures Run(tr) && Traces.Last(tr) == Solo(ns, 0, map[], false, map[])
  {
    tr := Traces.Trace([Solo(ns, 0, map[], false, map[])], []);
  }

  /** A bump by task 0 of a single replica. */
  lemma BumpGoes(ns: Namespace, version: nat, known: Versions, initialized: bool, caller: Caller)
    requires ns != API_KEY && caller in {Plain(0), Local}
    ensures var start := if caller.Local? then StartLocalBump(ns) else StartBump(ns);
            var idle, bump := Solo(ns, version, known, initialized, map[]), Bumping(ns, 0, false, caller);
            var open := Solo(ns, version, known, initialized, map[0 := bump]);
            var done := Solo(ns, version + 1, known, initialized, map[0 := bump.(committed := true)]);
            && Goes(idle, Event(0, 0, Bumps(start)), open)
            && Goes(open, Event(0, 0, Bumps(Commit)), done)
            && Goes(done, Event(0, 0, Bumps(Returns(Committed))),
                    Solo(ns, version + 1, known, initialized, if caller.Local? then map[0 := ReadingOwn(ns)]
                        else map[]))
  {
    var start := if caller.Local? then StartLocalBump(ns) else StartBump(ns);
    var bump := Bumping(ns, 0, false, caller);
    var bumped := bump.(committed := true);
    SoloGoes(ns, version, known, initialized, map[], Bumps(start), version, known, initialized, map[0 := bump]);
    SoloGoes(ns, version, known, initialized, map[0 := bump], Bumps(Commit), version + 1, known, initialized,
        map[0 := bumped]);
    SoloGoes(ns, version + 1, known, initialized, map[0 := bumped], Bumps(Returns(Committed)), version + 1, known,
        initialized,
             if caller.Local? then map[0 := ReadingOwn(ns)] else map[]);
  }

  /** A poll by task 0 that finds the row of `ns` changed and starts its callback. */
  lemma PollGoes(ns: Namespace, version: nat, known: Versions, initialized: bool)
    requires ns != API_KEY && version > 0 && Changed(Poller(known, {}, initialized), ns, version)
    ensures var idle := Solo(ns, version, known, initialized, map[]);
            var flushing := Solo(ns, version, known, initialized, map[0 := Flushing({})]);
            var reading := Solo(ns, version, known, initialized, map[0 := Reading]);
            var rows := Solo(ns, version, known, initialized, map[0 := Rows(map[ns := version])]);
            var round := Solo(ns, version, known, initialized, map[0 := Round(ns, version, map[], 0, true)]);
            && Goes(idle, Event(0, 0, Bumps(StartPoll)), flushing)
            && Goes(flushing, Event(0, 0, Bumps(FlushDone)), reading)
            && Goes(reading, Event(0, 0, Polls(ReadRows)), rows)
            && Goes(rows, Event(0, 0, Polls(NextRow(ns))), round)
            && Goes(round, Event(0, 0, Polls(CallbackStarts)),
                    Solo(ns, version, known, initialized, map[0 := Callback(ns, version, map[], 0, true)]))
  {
    var rows, round := Rows(map[ns := version]), Round(ns, version, map[], 0, true);
    assert map[ns := version] - {ns} == map[];
    SoloGoes(ns, version, known, initialized, map[], Bumps(StartPoll), version, known, initialized,
        map[0 := Flushing({})]);
    SoloGoes(ns, version, known, initialized, map[0 := Flushing({})], Bumps(FlushDone), version, known, initialized,
        map[0 := Reading]);
    SoloGoes(ns, version, known, initialized, map[0 := Reading], Polls(ReadRows), version, known, initialized,
        map[0 := rows]);
    SoloGoes(ns, version, known, initialized, map[0 := rows], Polls(NextRow(ns)), version, known, initialized,
        map[0 := round]);
    SoloGoes(ns, version, known, initialized, map[0 := round], Polls(CallbackStarts), version, known, initialized,
             map[0 := Callback(ns, version, map[], 0, true)]);
  }

  lemma Bumped(tr: Trace, ns: Namespace, version: nat, known: Versions, initialized: bool, caller: Caller)
    returns (more: Trace)
    requires Run(tr) && Traces.Last(tr) == Solo(ns, version, known, initialized, map[]) && ns != API_KEY
            && caller in {Plain(0), Local}
    ensures Run(more)
    ensures Traces.Last(more) ==
            Solo(ns, version + 1, known, initialized, if caller.Local? then map[0 := ReadingOwn(ns)] else map[])
  {
    var bump := Bumping(ns, 0, false, caller);
    BumpGoes(ns, version, known, initialized, caller);
    more := Extended(tr, Event(0, 0, Bumps(if caller.Local? then StartLocalBump(ns) else StartBump(ns))),
                     Solo(ns, version, known, initialized, map[0 := bump]));
    more := Extended(more, Event(0, 0, Bumps(Commit)),
        Solo(ns, version + 1, known, initialized, map[0 := bump.(committed := true)]));
    more := Extended(more, Event(0, 0, Bumps(Returns(Committed))),
                     Solo(ns, version + 1, known, initialized, if caller.Local? then map[0 := ReadingOwn(ns)]
                         else map[]));
  }

  /** The events of one poll up to the start of a callback. */
  function PollEvents(ns: Namespace): seq<Event> {
    [Event(0, 0, Bumps(StartPoll)), Event(0, 0, Bumps(FlushDone)), Event(0, 0, Polls(ReadRows)),
        Event(0, 0, Polls(NextRow(ns))),
     Event(0, 0, Polls(CallbackStarts))]
  }

  lemma Polled(tr: Trace, ns: Namespace, version: nat, known: Versions, initialized: bool) returns (more: Trace)
    requires Run(tr) && Traces.Last(tr) == Solo(ns, version, known, initialized, map[]) && ns != API_KEY
    requires version > 0 && Changed(Poller(known, {}, initialized), ns, version)
    ensures Run(more) && more.events == tr.events + PollEvents(ns)
    ensures Traces.Last(more) == Solo(ns, version, known, initialized, map[0 := Callback(ns, version, map[], 0, true)])
  {
    PollGoes(ns, version, known, initialized);
    var es := PollEvents(ns);
    more := Extended(tr, es[0], Solo(ns, version, known, initialized, map[0 := Flushing({})]));
    more := Extended(more, es[1], Solo(ns, version, known, initialized, map[0 := Reading]));
    more := Extended(more, es[2], Solo(ns, version, known, initialized, map[0 := Rows(map[ns := version])]));
    more := Extended(more, es[3], Solo(ns, version, known, initialized, map[0 := Round(ns, version, map[], 0, true)]));
    more := Extended(more, es[4],
        Solo(ns, version, known, initialized, map[0 := Callback(ns, version, map[], 0, true)]));
  }

  /** Priming an initialized poller can invoke a callback: a run that ends with such a poll. */
  lemma PrimingInitialized(ns: Namespace) returns (tr: Trace)
    requires ns != API_KEY
    ensures Run(tr) && |tr.events| >= 5 && tr.events[|tr.events| - 5..] == PollEvents(ns)
    ensures |tr.states[0].replicas| == 1 && ReplicaAt(tr, |tr.events|, 0).poller.initialized
  {
    tr := Begun(ns);
    SoloGoes(ns, 0, map[], false, map[], Polls(Initialize), 0, map[], true, map[]);
    tr := Extended(tr, Event(0, 0, Polls(Initialize)), Solo(ns, 0, map[], true, map[]));
    tr := Bumped(tr, ns, 0, map[], true, Plain(0));
    tr := Polled(tr, ns, 1, map[], true);
    SameReplicas(tr, |tr.events|);
  }

  /** The acknowledging half of `bump_local` by task 0. */
  lemma Recorded(tr: Trace, ns: Namespace) returns (more: Trace)
    requires Run(tr) && Traces.Last(tr) == Solo(ns, 1, map[], false, map[0 := ReadingOwn(ns)]) && ns != API_KEY
    ensures Run(more) && Traces.Last(more) == Solo(ns, 1, map[ns := 1], false, map[])
  {
    SoloGoes(ns, 1, map[], false, map[0 := ReadingOwn(ns)], Polls(ReadOwn), 1, map[], false,
        map[0 := HoldingOwn(ns, 1)]);
    SoloGoes(ns, 1, map[], false, map[0 := HoldingOwn(ns, 1)], Polls(RecordOwn), 1, map[ns := 1], false, map[]);
    more := Extended(tr, Event(0, 0, Polls(ReadOwn)), Solo(ns, 1, map[], false, map[0 := HoldingOwn(ns, 1)]));
    more := Extended(more, Event(0, 0, Polls(RecordOwn)), Solo(ns, 1, map[ns := 1], false, map[]));
  }

  /** So can priming a poller that is not initialized in any state of the run, after a `bump_local`. */
  lemma PrimingUninitialized(ns: Namespace) returns (tr: Trace)
    requires ns != API_KEY
    ensures Run(tr) && |tr.events| >= 5 && tr.events[|tr.events| - 5..] == PollEvents(ns)
    ensures |tr.states[0].replicas| == 1
    ensures forall k: nat | k <= |tr.events| :: !ReplicaAt(tr, k, 0).poller.initialized
  {
    tr := Begun(ns);
    tr := Bumped(tr, ns, 0, map[], false, Local);
    tr := Recorded(tr, ns);
    tr := Bumped(tr, ns, 1, map[ns := 1], false, Plain(0));
    tr := Polled(tr, ns, 2, map[ns := 1], false);
    SameReplicas(tr, |tr.events|);
    forall k: nat | k <= |tr.events|
      ensures !ReplicaAt(tr, k, 0).poller.initialized
    {
      NeverRewinds(tr, k, |tr.events|, 0, ns);
    }
  }
}
