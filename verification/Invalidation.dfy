/**
 The cross-replica invalidation protocol of app/core/cache/invalidation.py, together with the API-key
 cache it clears and the read path that fills it.

 Replicas share one version row per namespace.  Every `await` of the source is a boundary between two
 events; any number of tasks of one replica may be in flight at once.  An event names the replica, the
 task and every outcome the source does not determine.  Fields of `History` record the past; no step
 reads them.
 */
module Invalidation {
  import Traces
  import opened Basics
  import opened ApiKeyCaching

  type Namespace = string
  type Versions = map<Namespace, nat>

  const API_KEY: Namespace := "api_key"
  const BUMP_RETRY_ATTEMPTS := 3

  function Max(a: nat, b: nat): nat { if a < b then b else a }

  /** `dict.get(namespace, 0)`; a missing row counts as version 0. */
  function V(m: Versions, ns: Namespace): nat { if ns in m then m[ns] else 0 }

  /******* The poller's own state *******/

  datatype Poller = Poller(known: Versions, pending: set<Namespace>, initialized: bool)

  /** Whether a snapshot row is a change that must run callbacks. */
  predicate Changed(p: Poller, ns: Namespace, version: nat) {
    if ns in p.known then version > p.known[ns] else p.initialized && version > 0
  }

  function Acknowledged(p: Poller, ns: Namespace, version: nat): Poller {
    p.(known := p.known[ns := Max(V(p.known, ns), version)])
  }

  /** The namespaces whose rows are changes against the state before the poll, in row order. */
  function Announced(p: Poller, rows: seq<(Namespace, nat)>): seq<Namespace> {
    if rows == [] then []
    else
      var last := rows[|rows| - 1];
      Announced(p, rows[..|rows| - 1]) + if Changed(p, last.0, last.1) then [last.0] else []
  }

  /** The rows taken in order, each against the state the earlier ones left. */
  function Reconciled(p: Poller, rows: seq<(Namespace, nat)>, succeed: Namespace -> bool): Poller {
    if rows == [] then p
    else
      var q, last := Reconciled(p, rows[..|rows| - 1], succeed), rows[|rows| - 1];
      if Changed(q, last.0, last.1) && !succeed(last.0) then q else Acknowledged(q, last.0, last.1)
  }

  /** The poller object, whose methods are the source's between one `await` and the next. */
  class CacheInvalidationPoller {
    var knownVersions: Versions
    var pendingBumps: set<Namespace>
    var pollInitialized: bool

    function State(): Poller
      reads this
    {
      Poller(knownVersions, pendingBumps, pollInitialized)
    }

    constructor ()
      ensures State() == Poller(map[], {}, false)
    {
      knownVersions, pendingBumps, pollInitialized := map[], {}, false;
    }

    method RequestBump(ns: Namespace)
      modifies this`pendingBumps
      ensures pendingBumps == old(pendingBumps) + {ns}
    {
      pendingBumps := pendingBumps + {ns};
    }

    method Acknowledge(ns: Namespace, version: nat)
      modifies this`knownVersions
      ensures State() == Acknowledged(old(State()), ns, version)
    {
      var prev := if ns in knownVersions then knownVersions[ns] else 0;
      knownVersions := knownVersions[ns := if prev < version then version else prev];
    }

    /** An uninterrupted flush; `bump` says which bumps succeed. Exactly the failed ones stay pending. */
    method FlushPendingBumps(bump: Namespace -> bool) returns (bumped: set<Namespace>)
      modifies this`pendingBumps
      ensures bumped == set ns | ns in old(pendingBumps) && bump(ns)
      ensures pendingBumps == old(pendingBumps) - bumped
    {
      var todo := pendingBumps;
      bumped := {};
      while todo != {}
        invariant todo <= old(pendingBumps)
        invariant bumped == set ns | ns in old(pendingBumps) - todo && bump(ns)
        invariant pendingBumps == old(pendingBumps) - bumped
        decreases todo
      {
        var ns :| ns in todo;
        todo := todo - {ns};
        pendingBumps := pendingBumps - {ns};
        if bump(ns) {
          bumped := bumped + {ns};
        } else {
          pendingBumps := pendingBumps + {ns};
        }
      }
    }

    /** The row loop of an uninterrupted poll; `succeed` says whose callbacks all succeed. */
    method ReconcileRows(rows: seq<(Namespace, nat)>, succeed: Namespace -> bool) returns (ran: seq<Namespace>)
      requires OneRowEach(rows)
      modifies this`knownVersions, this`pollInitialized
      ensures State() == Reconciled(old(State()), rows, succeed).(initialized := true)
      ensures ran == Announced(old(State()), rows)
    {
      ran := [];
      ghost var before := State();
      for n := 0 to |rows|
        invariant State() == Reconciled(before, rows[..n], succeed)
        invariant ran == Announced(before, rows[..n])
      {
        assert rows[..n + 1][..n] == rows[..n];
        var (ns, version) := rows[n];
        ReconciledOther(before, rows[..n], succeed, ns);
        var changed := if ns in knownVersions then version > knownVersions[ns] else pollInitialized && version > 0;
        if changed {
          ran := ran + [ns];
        }
        if !changed || succeed(ns) {
          Acknowledge(ns, version);
        }
      }
      assert rows[..|rows|] == rows;
      pollInitialized := true;
    }
  }

  predicate OneRowEach(rows: seq<(Namespace, nat)>) { forall i, j | 0 <= i < j < |rows| :: rows[i].0 != rows[j].0 }

  lemma {:induction false} ReconciledOther(p: Poller, rows: seq<(Namespace, nat)>, succeed: Namespace -> bool,
                                           ns: Namespace)
    requires forall i | 0 <= i < |rows| :: rows[i].0 != ns
    ensures var q := Reconciled(p, rows, succeed);
            (ns in q.known <==> ns in p.known) && V(q.known, ns) == V(p.known, ns) && q.initialized == p.initialized
                && q.pending == p.pending
    decreases |rows|
  {
    if rows == [] {
    } else {
      ReconciledOther(p, rows[..|rows| - 1], succeed, ns);
    }
  }

  /** Each row is acknowledged, without rewinding, unless it was a change before the poll and its callbacks failed. */
  lemma {:induction false} RowRecorded(p: Poller, rows: seq<(Namespace, nat)>, succeed: Namespace -> bool, i: nat)
    requires OneRowEach(rows) && i < |rows|
    ensures var (ns, version) := rows[i];
            V(Reconciled(p, rows, succeed).known, ns)
            == if Changed(p, ns, version) && !succeed(ns) then V(p.known, ns) else Max(V(p.known, ns), version)
    decreases |rows|
  {
    var n := |rows| - 1;
    if i < n {
      RowRecorded(p, rows[..n], succeed, i);
      assert rows[i].0 != rows[n].0;
    } else {
      ReconciledOther(p, rows[..n], succeed, rows[n].0);
    }
  }

  /** An uninterrupted poll runs no callback if and only if no row is a change against the state before it. */
  lemma {:induction false} SilentIffUnchanged(p: Poller, rows: seq<(Namespace, nat)>)
    ensures Announced(p, rows) == [] <==> forall i | 0 <= i < |rows| :: !Changed(p, rows[i].0, rows[i].1)
    decreases |rows|
  {
    if rows == [] {
    } else {
      SilentIffUnchanged(p, rows[..|rows| - 1]);
      var last := rows[|rows| - 1];
      assert forall i | 0 <= i < |rows| :: rows[i] == last || rows[i] == rows[..|rows| - 1][i];
    }
  }

  /** Before initialization a poll is silent if and only if it reads nothing newer than what is already acknowledged. */
  lemma UninitializedPoll(p: Poller, rows: seq<(Namespace, nat)>)
    requires !p.initialized
    ensures Announced(p, rows) == [] <==>
            forall i | 0 <= i < |rows| && rows[i].0 in p.known :: rows[i].1 <= p.known[rows[i].0]
  {
    SilentIffUnchanged(p, rows);
  }

  /** Priming a poller that is neither initialized nor has acknowledged anything invokes no callback. */
  lemma FreshPrimeIsSilent(p: Poller, rows: seq<(Namespace, nat)>)
    requires !p.initialized && p.known == map[]
    ensures Announced(p, rows) == []
  {
    UninitializedPoll(p, rows);
  }

  /******* Tasks and events *******/

  /** When a key read began: how far the shared row had come. */
  datatype Stamp = Stamp(shared: nat)

  /** What `bump` returns to: the flush loop, a plain caller (behind the given key mutation), `bump_local`. */
  datatype Caller = Flush(rest: set<Namespace>, since: nat) | Plain(mutation: nat) | Local

  datatype Task =
    | Flushing(todo: set<Namespace>)
    | Bumping(ns: Namespace, attempt: nat, committed: bool, caller: Caller)
    | ReadingOwn(ns: Namespace)
    | HoldingOwn(ns: Namespace, version: nat)
    | Reading
    | Rows(rows: Versions)
    | Round(ns: Namespace, version: nat, rows: Versions, next: nat, ok: bool)
    | Callback(ns: Namespace, version: nat, rows: Versions, next: nat, ok: bool)
    | Mutated(key: string, mutation: nat)
    | KeyRead(key: string, version: nat, stamp: Stamp)

  datatype BumpResult = Committed | Operational | Failed

  /** Bumps and the pending set that coalesces them. */
  datatype BumpAction =
    | StartPoll
    | TakeMarker(ns: Namespace)
    | FlushDone
    | StartBump(ns: Namespace)
    | StartLocalBump(ns: Namespace)
    | Commit
    | Returns(result: BumpResult)
    | RequestBump(ns: Namespace)

  /** Reading version rows and acknowledging them. */
  datatype PollAction =
    | Initialize
    | ReadRows
    | ReadFails
    | NextRow(ns: Namespace)
    | CallbackStarts
    | CallbackEnds(success: bool)
    | RoundDone
    | PollDone
    | ReadOwn
    | RecordOwn

  /** Key mutations, cache invalidation and the read-then-store path. */
  datatype KeyAction =
    | MutateKey(key: string)
    | InvalidateMutated
    | InvalidateKey(key: string)
    | ClearKeys
    | BeginRead(key: string)
    | StoreRead(expiresAt: real, evicted: Option<string>)
    | AbandonRead

  datatype Action = Bumps(b: BumpAction) | Polls(p: PollAction) | Keys(k: KeyAction)

  datatype Event = Event(replica: nat, task: nat, action: Action)

  /******* States *******/

  /** The shared version at the latest `request_bump`, and the api_key version at the latest clearing callback. */
  datatype History = History(requested: Versions, clearedAt: nat)

  datatype Replica = Replica(poller: Poller, cache: Cache<Stamp>, tasks: map<nat, Task>, callbacks: Versions,
      history: History)

  /** The version rows, and the number of key mutations so far. */
  datatype Shared = Shared(versions: Versions, mutations: nat)

  datatype System = System(shared: Shared, replicas: seq<Replica>)

  /** The poller registers `clear` as the first api_key callback (app/main.py:327). */
  predicate Clears(ns: Namespace, callback: nat) { ns == API_KEY && callback == 0 }

  /******* Steps *******/

  function With(r: Replica, t: nat, task: Task): Replica { r.(tasks := r.tasks[t := task]) }

  function Without(r: Replica, t: nat): Replica { r.(tasks := r.tasks - {t}) }

  predicate BumpEnabled(r: Replica, t: nat, a: BumpAction) {
    match a
    case StartPoll => t !in r.tasks
    case StartBump(_) => t !in r.tasks
    case StartLocalBump(_) => t !in r.tasks
    case RequestBump(_) => true
    case TakeMarker(ns) => t in r.tasks && r.tasks[t].Flushing? && ns in r.tasks[t].todo
    case FlushDone => t in r.tasks && r.tasks[t].Flushing? && r.tasks[t].todo == {}
    case Commit => t in r.tasks && r.tasks[t].Bumping? && !r.tasks[t].committed
    case Returns(result) => t in r.tasks && r.tasks[t].Bumping? && (result.Committed? ==> r.tasks[t].committed)
  }

  predicate PollEnabled(r: Replica, t: nat, a: PollAction) {
    if a.Initialize? then
      r.poller == Poller(map[], {}, false) && r.tasks == map[]
    else if t !in r.tasks then
      false
    else
      var task := r.tasks[t];
      match a
      case ReadRows => task.Reading?
      case ReadFails => task.Reading? || task.ReadingOwn?
      case NextRow(ns) => task.Rows? && ns in task.rows
      case CallbackStarts => task.Round? && task.next < V(r.callbacks, task.ns)
      case CallbackEnds(_) => task.Callback?
      case RoundDone => task.Round? && task.next == V(r.callbacks, task.ns)
      case PollDone => task.Rows? && task.rows == map[]
      case ReadOwn => task.ReadingOwn?
      case RecordOwn => task.HoldingOwn?
  }

  predicate KeyEnabled(r: Replica, t: nat, a: KeyAction) {
    match a
    case MutateKey(_) => t !in r.tasks
    case BeginRead(_) => t !in r.tasks
    case InvalidateKey(_) => true
    case ClearKeys => true
    case InvalidateMutated => t in r.tasks && r.tasks[t].Mutated?
    case StoreRead(_, _) => t in r.tasks && r.tasks[t].KeyRead?
    case AbandonRead => t in r.tasks && r.tasks[t].KeyRead?
  }

  predicate Enabled(r: Replica, t: nat, a: Action) {
    match a
    case Bumps(b) => BumpEnabled(r, t, b)
    case Polls(p) => PollEnabled(r, t, p)
    case Keys(k) => KeyEnabled(r, t, k)
  }

  /** Where a task goes when its `bump` gives the caller `True` or `False`. */
  function Resume(r: Replica, t: nat, ns: Namespace, caller: Caller, success: bool): Replica {
    match caller
    case Flush(rest, _) =>
      var r' := With(r, t, Flushing(rest));
      if success then r' else r'.(poller := r.poller.(pending := r.poller.pending + {ns}))
    case Plain(_) => Without(r, t)
    case Local => if success then With(r, t, ReadingOwn(ns)) else Without(r, t)
  }

  function RowTaken(r: Replica, t: nat, ns: Namespace, rows: Versions): Replica
    requires ns in rows
  {
    var rest := rows - {ns};
    if Changed(r.poller, ns, rows[ns]) then With(r, t, Round(ns, rows[ns], rest, 0, true))
    else With(r, t, Rows(rest)).(poller := Acknowledged(r.poller, ns, rows[ns]))
  }

  function RoundEnded(r: Replica, t: nat, task: Task): Replica
    requires task.Round?
  {
    var r' := With(r, t, Rows(task.rows));
    if task.ok then r'.(poller := Acknowledged(r.poller, task.ns, task.version)) else r'
  }

  /** The clearing callback takes effect when it begins, at shared version `current`. */
  function CallbackBegun(r: Replica, t: nat, task: Task, current: nat): Replica
    requires task.Round?
  {
    var r' := With(r, t, Callback(task.ns, task.version, task.rows, task.next, task.ok));
    if Clears(task.ns, task.next) then r'.(cache := Cleared(r.cache), history := r.history.(clearedAt := current))
        else r'
  }

  function CallbackEnded(r: Replica, t: nat, task: Task, success: bool): Replica
    requires task.Callback?
  {
    With(r, t, Round(task.ns, task.version, task.rows, task.next + 1, task.ok && success))
  }

  function BumpStep(r: Replica, versions: Versions, t: nat, a: BumpAction): Replica
    requires BumpEnabled(r, t, a)
  {
    match a
    case StartPoll => With(r, t, Flushing(r.poller.pending))
    case TakeMarker(ns) =>
      With(r, t, Bumping(ns, 0, false, Flush(r.tasks[t].todo - {ns}, V(versions, ns)))).(
        poller := r.poller.(pending := r.poller.pending - {ns}))
    case FlushDone => With(r, t, Reading)
    case StartBump(ns) => With(r, t, Bumping(ns, 0, false, Plain(0)))
    case StartLocalBump(ns) => With(r, t, Bumping(ns, 0, false, Local))
    case Commit => With(r, t, r.tasks[t].(committed := true))
    case Returns(result) =>
      var task := r.tasks[t];
      if result.Operational? && task.attempt < BUMP_RETRY_ATTEMPTS - 1 then
        With(r, t, Bumping(task.ns, task.attempt + 1, false, task.caller))
      else Resume(r, t, task.ns, task.caller, result.Committed?)
    case RequestBump(ns) =>
      r.(poller := r.poller.(pending := r.poller.pending + {ns}),
         history := r.history.(requested := r.history.requested[ns := V(versions, ns)]))
  }

  function PollStep(r: Replica, versions: Versions, t: nat, a: PollAction): Replica
    requires PollEnabled(r, t, a)
  {
    match a
    case Initialize => r.(poller := Poller(versions, {}, true))
    case ReadRows => With(r, t, Rows(versions))
    case ReadFails => Without(r, t)
    case NextRow(ns) => RowTaken(r, t, ns, r.tasks[t].rows)
    case CallbackStarts => CallbackBegun(r, t, r.tasks[t], V(versions, r.tasks[t].ns))
    case CallbackEnds(success) => CallbackEnded(r, t, r.tasks[t], success)
    case RoundDone => RoundEnded(r, t, r.tasks[t])
    case PollDone => Without(r, t).(poller := r.poller.(initialized := true))
    case ReadOwn =>
      var ns := r.tasks[t].ns;
      if ns in versions then With(r, t, HoldingOwn(ns, versions[ns])) else Without(r, t)
    case RecordOwn => Without(r, t).(poller := Acknowledged(r.poller, r.tasks[t].ns, r.tasks[t].version))
  }

  function KeyStep(r: Replica, sh: Shared, t: nat, a: KeyAction): Replica
    requires KeyEnabled(r, t, a)
  {
    match a
    case MutateKey(key) => With(r, t, Mutated(key, sh.mutations + 1))
    case InvalidateMutated =>
      With(r, t, Bumping(API_KEY, 0, false, Plain(r.tasks[t].mutation))).(cache := Invalidated(r.cache, r.tasks[t].key))
    case InvalidateKey(key) => r.(cache := Invalidated(r.cache, key))
    case ClearKeys => r.(cache := Cleared(r.cache))
    case BeginRead(key) => With(r, t, KeyRead(key, r.cache.version, Stamp(V(sh.versions, API_KEY))))
    case StoreRead(expiresAt, evicted) =>
      var task := r.tasks[t];
      Without(r, t).(cache := Stored(r.cache, task.key, Entry(task.stamp, expiresAt), Some(task.version), evicted))
    case AbandonRead => Without(r, t)
  }

  /** The acting replica after an event, given the shared state before it. */
  function Act(r: Replica, sh: Shared, t: nat, a: Action): Replica
    requires Enabled(r, t, a)
  {
    match a
    case Bumps(b) => BumpStep(r, sh.versions, t, b)
    case Polls(p) => PollStep(r, sh.versions, t, p)
    case Keys(k) => KeyStep(r, sh, t, k)
  }

  /** The database after an event: a commit raises one row, a mutation is counted. */
  function SharedAfter(sh: Shared, r: Replica, t: nat, a: Action): Shared
    requires Enabled(r, t, a)
  {
    match a
    case Bumps(Commit) =>
      var ns := r.tasks[t].ns;
      sh.(versions := sh.versions[ns := V(sh.versions, ns) + 1])
    case Keys(MutateKey(_)) => sh.(mutations := sh.mutations + 1)
    case _ => sh
  }

  predicate Possible(s: System, e: Event) {
    e.replica < |s.replicas| && Enabled(s.replicas[e.replica], e.task, e.action)
  }

  function Step(s: System, e: Event): (s': System)
    requires Possible(s, e)
  {
    var r := s.replicas[e.replica];
    System(SharedAfter(s.shared, r, e.task, e.action), s.replicas[e.replica := Act(r, s.shared, e.task, e.action)])
  }

  type Trace = Traces.Trace<System, Event>

  /** Event `k` was possible and led to the next state. */
  ghost predicate Leads(tr: Trace, k: nat)
    requires |tr.states| == |tr.events| + 1 && k < |tr.events|
  {
    Possible(tr.states[k], tr.events[k]) && tr.states[k + 1] == Step(tr.states[k], tr.events[k])
  }

  ghost predicate Run(tr: Trace) {
    && |tr.states| == |tr.events| + 1
    && Init(tr.states[0])
    && forall k: nat | k < |tr.events| :: Leads(tr, k)
  }

  /** A fresh deployment: rows of any age, no replica has started anything, `clear` is registered. */
  predicate Init(s: System) {
    forall i | 0 <= i < |s.replicas| ::
      && s.replicas[i].poller == Poller(map[], {}, false)
      && s.replicas[i].cache == Cache(map[], 0)
      && s.replicas[i].tasks == map[]
      && s.replicas[i].history == History(map[], 0)
      && V(s.replicas[i].callbacks, API_KEY) >= 1
  }
}
