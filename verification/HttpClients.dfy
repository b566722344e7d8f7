/**
 Leased HTTP client generations, app/core/clients/http.py.

 Clients are named by fresh numbers in creation order; building and closing real sessions is abstracted to
 "a fresh client" and "the close completes later".
 */
module HttpClients {
  import Traces
  import opened Basics

  type Id = nat

  const ROTATION_COOLDOWN: real := 1.0

  /** The identity of one of a client's two sessions. */
  datatype Session = Session(client: Id, websocket: bool)

  /** `closes` counts the close tasks ever started, `forced` remembers one started over live leases. */
  datatype Managed = Managed(leases: int, requested: bool, closeTask: bool, closed: bool, closes: nat, forced: bool)

  /** The module's globals. */
  datatype Globals = Globals(current: Option<Id>, clients: map<Id, Managed>, retired: seq<Id>, closing: seq<Id>,
      lastRotation: Option<real>)

  /** `list.remove` with a missing value suppressed. */
  function Removed(s: seq<Id>, x: Id): (r: seq<Id>)
    ensures forall y | y != x :: y in r <==> y in s
  {
    if s == [] then [] else if s[0] == x then s[1..] else [s[0]] + Removed(s[1..], x)
  }

  lemma {:induction false} RemovedOne(s: seq<Id>, x: Id)
    ensures multiset(Removed(s, x)) == multiset(s) - multiset{x}
  {
    if s == [] {
    } else {
      assert s == [s[0]] + s[1..];
      RemovedOne(s[1..], x);
    }
  }

  /******* The locked helpers *******/

  function StartClose(g: Globals, c: Id): Globals
    requires c in g.clients
  {
    var m := g.clients[c];
    if m.closeTask then g
    else g.(retired := Removed(g.retired, c), closing := g.closing + [c],
            clients := g.clients[c := m.(closeTask := true, closes := m.closes + 1, forced := m.leases > 0)])
  }

  function RequestClose(g: Globals, c: Id, force: bool): Globals
    requires c in g.clients
  {
    var g' := g.(clients := g.clients[c := g.clients[c].(requested := true)]);
    if g.clients[c].leases > 0 && !force then
      if c in g.retired then g' else g'.(retired := g.retired + [c])
    else StartClose(g', c)
  }

  /** `_release_http_client`; a count below zero is the RuntimeError. */
  function Release(g: Globals, c: Id): Result<Globals, string>
    requires c in g.clients
  {
    var m := g.clients[c].(leases := g.clients[c].leases - 1);
    var g' := g.(clients := g.clients[c := m]);
    if m.leases < 0 then Err("HTTP client lease released too many times")
    else if m.requested && m.leases == 0 then Ok(StartClose(g', c))
    else Ok(g')
  }

  function Fresh(): Managed { Managed(0, false, false, false, 0, false) }

  /** A newly built client becomes current and the previous one is asked to close. */
  function Install(g: Globals, c: Id): Globals
    requires g.current.Some? ==> g.current.value in g.clients && g.current.value != c
  {
    var g' := g.(current := Some(c), clients := g.clients[c := Fresh()]);
    if g.current.Some? then RequestClose(g', g.current.value, false) else g'
  }

  /** Forced close of each listed client, in order. */
  function ForceAll(g: Globals, ids: seq<Id>): (r: Globals)
    requires forall c | c in ids :: c in g.clients
    ensures r.clients.Keys == g.clients.Keys
    decreases |ids|
  {
    if ids == [] then g else ForceAll(RequestClose(g, ids[0], true), ids[1..])
  }

  function ShutdownList(g: Globals): seq<Id> {
    (if g.current.Some? then [g.current.value] else []) + g.retired + g.closing
  }

  function Shutdown(g: Globals): Globals
    requires forall c | c in ShutdownList(g) :: c in g.clients
  {
    ForceAll(g.(current := None, lastRotation := None), ShutdownList(g))
  }

  datatype Verdict = NotInitialized | AlreadyRotated | Coalesced | Rotate

  /** What a network-failure report leads to. */
  function Judge(g: Globals, failed: Option<Session>, now: real): Verdict {
    if g.current.None? then NotInitialized
    else if failed.Some? && failed.value.client != g.current.value then AlreadyRotated
    else if failed.None? && g.lastRotation.Some? && now - g.lastRotation.value < ROTATION_COOLDOWN then Coalesced
    else Rotate
  }

  /******* The module as an object *******/

  class HttpClientModule {
    var current: Option<Id>
    var clients: map<Id, Managed>
    var retired: seq<Id>
    var closing: seq<Id>
    var lastRotation: Option<real>

    function State(): Globals
      reads this
    {
      Globals(current, clients, retired, closing, lastRotation)
    }

    constructor ()
      ensures State() == Globals(None, map[], [], [], None)
    {
      current, clients, retired, closing, lastRotation := None, map[], [], [], None;
    }

    /** Asked to close: waiting for its leases, or with a close task. */
    predicate Retiring(c: Id)
      reads this
    {
      && c in clients && clients[c].requested
      && if clients[c].leases > 0 then c in retired || clients[c].closeTask else clients[c].closeTask
    }

    method StartClientClose(c: Id)
      requires c in clients
      modifies this
      ensures State() == StartClose(old(State()), c)
      ensures clients[c].closeTask
      ensures old(clients[c].closeTask) ==> State() == old(State())
      ensures !old(clients[c].closeTask) ==>
                closing == old(closing) + [c] && multiset(retired) == multiset(old(retired)) - multiset{c}
    {
      if clients[c].closeTask {
        return;
      }
      RemovedOne(retired, c);
      retired := Removed(retired, c);
      closing := closing + [c];
      clients := clients[c :=
          clients[c].(closeTask := true, closes := clients[c].closes + 1, forced := clients[c].leases > 0)];
    }

    method RequestClientClose(c: Id, force: bool)
      requires c in clients
      modifies this
      ensures State() == RequestClose(old(State()), c, force)
      ensures clients[c].requested
      ensures if old(clients[c].leases) > 0 && !force then c in retired
              && closing == old(closing) else clients[c].closeTask
    {
      clients := clients[c := clients[c].(requested := true)];
      if clients[c].leases > 0 && !force {
        if c !in retired {
          retired := retired + [c];
        }
        return;
      }
      StartClientClose(c);
    }

    method AcquireHttpClient() returns (lease: Option<Id>)
      requires current.Some? ==> current.value in clients
      modifies this`clients
      ensures lease == old(current)
      ensures lease.None? ==> State() == old(State())
      ensures lease.Some? ==>
              State() == old(State()).(clients :=
              old(clients)[lease.value := old(clients)[lease.value].(leases := old(clients)[lease.value].leases + 1)])
    {
      lease := current;
      if current.Some? {
        clients := clients[current.value := clients[current.value].(leases := clients[current.value].leases + 1)];
      }
    }

    method ReleaseHttpClient(c: Id) returns (raised: bool)
      requires c in clients
      modifies this
      ensures raised <==> Release(old(State()), c).Err?
      ensures !raised ==> State() == Release(old(State()), c).value
      ensures raised ==>
              State() == old(State()).(clients :=
              old(clients)[c := old(clients)[c].(leases := old(clients)[c].leases - 1)])
    {
      clients := clients[c := clients[c].(leases := clients[c].leases - 1)];
      raised := clients[c].leases < 0;
      if !raised && clients[c].requested && clients[c].leases == 0 {
        StartClientClose(c);
      }
    }

    /** `refresh_http_client`, once the replacement `c` has been built. */
    method RefreshHttpClient(c: Id)
      requires c !in clients && (current.Some? ==> current.value in clients)
      modifies this
      ensures State() == Install(old(State()), c)
      ensures current == Some(c) && c in clients && !clients[c].requested
      ensures old(current).Some? ==> Retiring(old(current).value)
    {
      var previous := current;
      current, clients := Some(c), clients[c := Fresh()];
      if previous.Some? {
        RequestClientClose(previous.value, false);
      }
    }

    method RefreshAfterNetworkFailure(failed: Option<Session>, now: real, c: Id) returns (verdict: Verdict)
      requires c !in clients && (current.Some? ==> current.value in clients)
      modifies this
      ensures verdict == Judge(old(State()), failed, now)
      ensures verdict.NotInitialized? <==> old(current).None?
      ensures verdict.AlreadyRotated? <==>
                old(current).Some? && failed.Some? && failed.value.client != old(current).value
      ensures verdict.Coalesced? <==>
                && old(current).Some? && failed.None?
                && old(lastRotation).Some? && now - old(lastRotation).value < 1.0
      ensures verdict.Rotate? <==>
                && old(current).Some?
                && match failed
                   case Some(session) => session.client == old(current).value
                   case None => old(lastRotation).None? || now - old(lastRotation).value >= 1.0
      ensures verdict.Rotate? ==> State() == Install(old(State()), c).(lastRotation := Some(now))
      ensures verdict.Rotate? ==> current == Some(c) && lastRotation == Some(now) && Retiring(old(current).value)
      ensures !verdict.Rotate? ==> State() == old(State())
    {
      if current.None? {
        return NotInitialized;
      }
      var previous := current.value;
      if failed.Some? && failed.value.client != previous {
        return AlreadyRotated;
      }
      if failed.None? && lastRotation.Some? && now - lastRotation.value < ROTATION_COOLDOWN {
        return Coalesced;
      }
      current, clients := Some(c), clients[c := Fresh()];
      lastRotation := Some(now);
      RequestClientClose(previous, false);
      verdict := Rotate;
    }

    method CloseHttpClient()
      requires forall c | c in ShutdownList(State()) :: c in clients
      modifies this
      ensures State() == Shutdown(old(State()))
    {
      var all := (if current.Some? then [current.value] else []) + retired + closing;
      current, lastRotation := None, None;
      ghost var begin := State();
      for n := 0 to |all|
        invariant clients.Keys == begin.clients.Keys
        invariant forall c | c in all[n..] :: c in clients
        invariant ForceAll(State(), all[n..]) == ForceAll(begin, all)
      {
        assert all[n..][0] == all[n] && all[n..][1..] == all[n + 1..];
        RequestClientClose(all[n], true);
      }
    }
  }

  /******* The system: globals, lease objects and the lock *******/

  datatype LeaseState = Held | Closing | Released

  datatype Lease = Lease(client: Id, state: LeaseState)

  /** What the holder of the lock will do once its client is built. */
  datatype Build = Init | Refresh | AfterFailure(failed: Option<Session>, now: real)

  datatype System = System(globals: Globals, leases: map<nat, Lease>, lock: Option<Build>, next: Id)

  datatype Event =
    | Acquire(lease: nat)
    | BeginRelease(lease: nat)
    | FinishRelease(lease: nat)
    | BeginInit
    | BeginRefresh
    | Report(failed: Option<Session>, now: real)
    | Built
    | BuildFails
    | CloseAll
    | CloseCompletes(client: Id)

  predicate Enabled(s: System, e: Event) {
    match e
    case Acquire(l) =>
        s.lock.None? && s.globals.current.Some? && s.globals.current.value in s.globals.clients && l !in s.leases
    case BeginRelease(l) => l in s.leases && s.leases[l].state.Held?
    case FinishRelease(l) =>
        s.lock.None? && l in s.leases && s.leases[l].state.Closing? && s.leases[l].client in s.globals.clients
    case BeginInit => s.lock.None?
    case BeginRefresh => s.lock.None?
    case Report(_, _) => s.lock.None?
    case Built =>
        s.lock.Some? && s.next !in s.globals.clients
        && (s.globals.current.Some? ==> s.globals.current.value in s.globals.clients)
    case BuildFails => s.lock.Some?
    case CloseAll => s.lock.None? && forall c | c in ShutdownList(s.globals) :: c in s.globals.clients
    case CloseCompletes(c) => c in s.globals.clients && s.globals.clients[c].closeTask && !s.globals.clients[c].closed
  }

  function Step(s: System, e: Event): System
    requires Enabled(s, e)
  {
    var g := s.globals;
    match e
    case Acquire(l) =>
      var c := g.current.value;
      s.(globals := g.(clients := g.clients[c := g.clients[c].(leases := g.clients[c].leases + 1)]),
          leases := s.leases[l := Lease(c, Held)])
    case BeginRelease(l) => s.(leases := s.leases[l := s.leases[l].(state := Closing)])
    case FinishRelease(l) =>
      var r := Release(g, s.leases[l].client);
      if r.Err? then s else s.(globals := r.value, leases := s.leases[l := s.leases[l].(state := Released)])
    case BeginInit => if g.current.Some? then s else s.(lock := Some(Init))
    case BeginRefresh => s.(lock := Some(Refresh))
    case Report(failed, now) => if Judge(g, failed, now).Rotate? then s.(lock := Some(AfterFailure(failed, now))) else s
    case Built =>
      var g' := Install(g, s.next);
      s.(globals := if s.lock.value.AfterFailure? then g'.(lastRotation := Some(s.lock.value.now))
          else g', lock := None, next := s.next + 1)
    case BuildFails => s.(lock := None)
    case CloseAll => s.(globals := Shutdown(g))
    case CloseCompletes(c) =>
      s.(globals := g.(closing := Removed(g.closing, c), clients := g.clients[c := g.clients[c].(closed := true)]))
  }

  predicate Start(s: System) {
    s == System(Globals(None, map[], [], [], None), map[], None, 0)
  }

  type Trace = Traces.Trace<System, Event>

  ghost predicate Leads(tr: Trace, k: nat)
    requires |tr.states| == |tr.events| + 1 && k < |tr.events|
  {
    Enabled(tr.states[k], tr.events[k]) && tr.states[k + 1] == Step(tr.states[k], tr.events[k])
  }

  ghost predicate Run(tr: Trace) {
    && |tr.states| == |tr.events| + 1
    && Start(tr.states[0])
    && forall k: nat | k < |tr.events| :: Leads(tr, k)
  }
}
