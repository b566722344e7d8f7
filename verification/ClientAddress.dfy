/** Which address a proxied request comes from: the trusted-hop walk and the two ways of reading the proxy headers. */
module ClientAddress {
  import opened Basics
  import opened Text
  import opened Forwarded

  /** A network, as the set of addresses in it. */
  type Network = Ip -> bool

  predicate IsTrusted(ip: IpLibrary, networks: seq<Network>, host: string) {
    |networks| != 0 && ip(host).Some? && exists i :: 0 <= i < |networks| && networks[i](ip(host).value)
  }

  /** Networks are alternatives: a host is trusted by a list exactly if it is an address in one of them. */
  lemma TrustedExactly(ip: IpLibrary, network: Network, networks: seq<Network>, host: string)
    ensures !IsTrusted(ip, [], host)
    ensures IsTrusted(ip, [network] + networks, host) <==>
              (ip(host).Some? && network(ip(host).value)) || IsTrusted(ip, networks, host)
  {
    var all := [network] + networks;
    if ip(host).Some? && network(ip(host).value) {
      assert all[0](ip(host).value);
    } else if IsTrusted(ip, networks, host) {
      var i :| 0 <= i < |networks| && networks[i](ip(host).value);
      assert all[i + 1](ip(host).value);
    }
    if i :| 1 <= i < |all| && ip(host).Some? && all[i](ip(host).value) {
      assert networks[i - 1] == all[i];
    }
  }

  /******* The hop walk *******/

  /** The walk over a chain of addresses, nearest last. */
  function Walk(ip: IpLibrary, networks: seq<Network>, chain: seq<string>): string
    requires chain != []
  {
    var last := |chain| - 1;
    if last == 0 || !IsTrusted(ip, networks, chain[last]) then chain[last] else Walk(ip, networks, chain[..last])
  }

  /** Position `k` is the rightmost untrusted one, or the leftmost if there is none. */
  predicate IsClient(ip: IpLibrary, networks: seq<Network>, chain: seq<string>, k: nat) {
    && k < |chain|
    && (forall j | k < j < |chain| :: IsTrusted(ip, networks, chain[j]))
    && (k == 0 || !IsTrusted(ip, networks, chain[k]))
  }

  method ResolveClientIpFromHops(ip: IpLibrary, networks: seq<Network>, socketIp: string, hops: seq<string>)
    returns (resolved: string)
    ensures exists k: nat :: IsClient(ip, networks, hops + [socketIp], k) && resolved == (hops + [socketIp])[k]
    ensures resolved == Walk(ip, networks, hops + [socketIp])
  {
    resolved := socketIp;
    ghost var chain := hops + [socketIp];
    ghost var k := |hops|;
    var n := |hops|;
    while n > 0
      invariant 0 <= n == k <= |hops| && resolved == chain[k]
      invariant forall j | k < j < |chain| :: IsTrusted(ip, networks, chain[j])
    {
      if !IsTrusted(ip, networks, resolved) {
        break;
      }
      n := n - 1;
      resolved, k := hops[n], k - 1;
    }
    assert IsClient(ip, networks, chain, k);
    WalkFinds(ip, networks, chain, k);
  }

  /** The walk returns the rightmost untrusted address, or the leftmost one. */
  lemma {:induction false} WalkFinds(ip: IpLibrary, networks: seq<Network>, chain: seq<string>, k: nat)
    requires IsClient(ip, networks, chain, k)
    ensures Walk(ip, networks, chain) == chain[k]
    decreases |chain|
  {
    if k >= |chain| - 1 {
    } else {
      WalkFinds(ip, networks, chain[..|chain| - 1], k);
    }
  }

  lemma {:induction false} ClientExists(ip: IpLibrary, networks: seq<Network>, chain: seq<string>) returns (k: nat)
    requires chain != []
    ensures IsClient(ip, networks, chain, k) && Walk(ip, networks, chain) == chain[k]
    decreases |chain|
  {
    k := |chain| - 1;
    if k > 0 && IsTrusted(ip, networks, chain[k]) {
      k := ClientExists(ip, networks, chain[..|chain| - 1]);
    }
  }

  /** Whatever stands left of an untrusted hop has no influence. */
  lemma LeftOfUntrustedIsIrrelevant(ip: IpLibrary, networks: seq<Network>, forged: seq<string>, honest: seq<string>,
                                    untrusted: string, rest: seq<string>)
    requires !IsTrusted(ip, networks, untrusted)
    ensures Walk(ip, networks, forged + [untrusted] + rest) == Walk(ip, networks, honest + [untrusted] + rest)
    ensures Walk(ip, networks, forged + [untrusted] + rest) in [untrusted] + rest
  {
    var tail := [untrusted] + rest;
    var k := ClientExists(ip, networks, tail);
    Shifted(ip, networks, forged, untrusted, rest, k);
    Shifted(ip, networks, honest, untrusted, rest, k);
  }

  lemma Shifted(ip: IpLibrary, networks: seq<Network>, left: seq<string>, untrusted: string, rest: seq<string>, k: nat)
    requires !IsTrusted(ip, networks, untrusted) && IsClient(ip, networks, [untrusted] + rest, k)
    ensures Walk(ip, networks, left + [untrusted] + rest) == ([untrusted] + rest)[k]
  {
    var tail, chain := [untrusted] + rest, left + [untrusted] + rest;
    assert forall j | 0 <= j < |tail| :: chain[|left| + j] == tail[j];
    forall j | |left| + k < j < |chain|
      ensures IsTrusted(ip, networks, chain[j])
    {
      assert chain[j] == tail[j - |left|];
    }
    WalkFinds(ip, networks, chain, |left| + k);
  }

  /******* Headers *******/

  /** Starlette's headers keep repeated values; a plain mapping holds one value a name. */
  datatype Headers = Multi(lists: map<string, seq<string>>) | Plain(values: map<string, string>)
  {
    /** `getlist`. */
    function List(name: string): seq<string> {
      match this
      case Multi(lists) => if name in lists then lists[name] else []
      case Plain(values) => if name in values then [values[name]] else []
    }

    /** `get`: the first value. */
    function Get(name: string): Option<string> {
      if List(name) == [] then None else Some(List(name)[0])
    }
  }

  const XFF := "x-forwarded-for"
  const FORWARDED := "forwarded"
  const SINGLETONS: seq<string> := ["x-real-ip", "true-client-ip", "cf-connecting-ip"]
  const ORDER: seq<string> := [XFF] + SINGLETONS + [FORWARDED]

  function CombinedChainHeader(headers: Headers, name: string): Option<string> {
    if headers.List(name) == [] then None else Some(Join(headers.List(name), ','))
  }

  predicate HasNonEmptyHeaderValue(headers: Headers, name: string) {
    exists i :: 0 <= i < |headers.List(name)| && Strip(headers.List(name)[i]) != []
  }

  /** The text a header is read from. */
  function HeaderText(headers: Headers, name: string): Option<string> {
    if name == XFF || name == FORWARDED then CombinedChainHeader(headers, name) else headers.Get(name)
  }

  /** `text.split(",")`, where `current` is the entry read so far. */
  function Entries(current: string, text: string): (r: seq<string>)
    ensures r != []
    decreases |text|
  {
    if text == [] then [current]
    else if text[0] == ',' then [current] + Entries([], text[1..])
    else Entries(current + [text[0]], text[1..])
  }

  /** The hops of an X-Forwarded-For value; None is the ValueError. */
  function XffHops(ip: IpLibrary, text: string): Parsed<seq<string>> {
    var entries := Entries([], text);
    var hops := seq(|entries|, i requires 0 <= i < |entries| => Strip(entries[i]));
    if exists i :: 0 <= i < |hops| && ip(hops[i]).None? then None else Some(hops)
  }

  function WalkFrom(ip: IpLibrary, networks: seq<Network>, socketIp: string,
                    hops: Parsed<seq<string>>): Parsed<string> {
    if hops.None? then None else Some(Walk(ip, networks, hops.value + [socketIp]))
  }

  /** What one header says; None is a malformed header. */
  function Resolve(ip: IpLibrary, networks: seq<Network>, socketIp: string, name: string,
                   text: string): Parsed<string> {
    if name == XFF then WalkFrom(ip, networks, socketIp, XffHops(ip, text))
    else if name == FORWARDED then WalkFrom(ip, networks, socketIp, ParseChain(ip, text))
    else if ip(Strip(text)).None? then None
    else Some(Strip(text))
  }

  /******* Consensus *******/

  datatype Request = Request(headers: Headers, socketIp: string, networks: seq<Network>, allowed: set<string>)

  predicate Repeated(req: Request, name: string) {
    req.headers.Multi? && name in req.allowed && |req.headers.List(name)| > 1
  }

  /** An allowed header with a value that is not blank. */
  predicate Speaks(req: Request, name: string) {
    name in req.allowed && HasNonEmptyHeaderValue(req.headers, name)
  }

  function Says(ip: IpLibrary, req: Request, name: string): Parsed<string> {
    var text := HeaderText(req.headers, name);
    if text.None? then None else Resolve(ip, req.networks, req.socketIp, name, text.value)
  }

  /** What the headers that speak say, in order; None if one of them is malformed. */
  function Evidence(ip: IpLibrary, req: Request, names: seq<string>): Parsed<seq<string>>
    decreases |names|
  {
    if names == [] then Some([])
    else if !Speaks(req, names[0]) then Evidence(ip, req, names[1..])
    else if Says(ip, req, names[0]).None? then None
    else Joined([Says(ip, req, names[0]).value], Evidence(ip, req, names[1..]))
  }

  predicate Ambiguous(req: Request, names: seq<string>) {
    exists i :: 0 <= i < |names| && Repeated(req, names[i]) && Speaks(req, names[i])
  }

  predicate Agree(ip: IpLibrary, resolved: seq<string>) {
    forall i | 1 <= i < |resolved| :: ip(resolved[i]) == ip(resolved[0])
  }

  function Consensus(ip: IpLibrary, req: Request): Option<string> {
    if Ambiguous(req, SINGLETONS) then None
    else
      var evidence := Evidence(ip, req, ORDER);
      if evidence.None? || evidence.value == [] || !Agree(ip, evidence.value) then None else Some(evidence.value[0])
  }

  lemma SpeaksHasText(req: Request, name: string)
    requires Speaks(req, name)
    ensures HeaderText(req.headers, name).Some?
  {
  }

  /** One header of the evidence. */
  lemma EvidenceStep(ip: IpLibrary, req: Request, resolved: seq<string>, names: seq<string>, name: string,
                     rest: seq<string>)
    requires names == [name] + rest
    ensures !Speaks(req, name) ==>
            Joined(resolved, Evidence(ip, req, names)) == Joined(resolved, Evidence(ip, req, rest))
    ensures Speaks(req, name) && Says(ip, req, name).None? ==> Evidence(ip, req, names).None?
    ensures Speaks(req, name) && Says(ip, req, name).Some? ==>
              Joined(resolved, Evidence(ip, req, names)) ==
                  Joined(resolved + [Says(ip, req, name).value], Evidence(ip, req, rest))
  {
    assert names[0] == name && names[1..] == rest;
    if Speaks(req, name) && Says(ip, req, name).Some? {
      JoinedMore(resolved, Says(ip, req, name).value, Evidence(ip, req, rest));
    }
  }

  method ResolveChain(ip: IpLibrary, req: Request, name: string, text: string) returns (r: Parsed<string>)
    requires name == XFF || name == FORWARDED
    ensures r == Resolve(ip, req.networks, req.socketIp, name, text)
  {
    var hops: Parsed<seq<string>> := None;
    if name == XFF {
      hops := XffHops(ip, text);
    } else {
      hops := ParseForwardedForChain(ip, text);
    }
    if hops.None? {
      return None;
    }
    var client := ResolveClientIpFromHops(ip, req.networks, req.socketIp, hops.value);
    r := Some(client);
  }

  method ResolveProxyHeaderConsensus(ip: IpLibrary, req: Request) returns (client: Option<string>)
    ensures client == Consensus(ip, req)
  {
    for n := 0 to |SINGLETONS|
      invariant !Ambiguous(req, SINGLETONS[..n])
    {
      if Repeated(req, SINGLETONS[n]) && HasNonEmptyHeaderValue(req.headers, SINGLETONS[n]) {
        assert Repeated(req, SINGLETONS[n]) && Speaks(req, SINGLETONS[n]);
        return None;
      }
      assert SINGLETONS[..n + 1] == SINGLETONS[..n] + [SINGLETONS[n]];
    }
    assert SINGLETONS[..|SINGLETONS|] == SINGLETONS;
    var resolved: seq<string> := [];
    JoinedNothing(Evidence(ip, req, ORDER));
    EvidenceStep(ip, req, resolved, ORDER, XFF, SINGLETONS + [FORWARDED]);
    if Speaks(req, XFF) {
      SpeaksHasText(req, XFF);
      var said := ResolveChain(ip, req, XFF, CombinedChainHeader(req.headers, XFF).value);
      if said.None? {
        return None;
      }
      resolved := resolved + [said.value];
    }
    for n := 0 to |SINGLETONS|
      invariant Evidence(ip, req, ORDER) == Joined(resolved, Evidence(ip, req, SINGLETONS[n..] + [FORWARDED]))
    {
      var name := SINGLETONS[n];
      EvidenceStep(ip, req, resolved, SINGLETONS[n..] + [FORWARDED], name, SINGLETONS[n + 1..] + [FORWARDED]);
      if Speaks(req, name) {
        SpeaksHasText(req, name);
        var candidate := Strip(req.headers.Get(name).value);
        if ip(candidate).None? {
          return None;
        }
        resolved := resolved + [candidate];
      }
    }
    assert SINGLETONS[|SINGLETONS|..] + [FORWARDED] == [FORWARDED];
    EvidenceStep(ip, req, resolved, [FORWARDED], FORWARDED, []);
    if Speaks(req, FORWARDED) {
      SpeaksHasText(req, FORWARDED);
      var said := ResolveChain(ip, req, FORWARDED, CombinedChainHeader(req.headers, FORWARDED).value);
      if said.None? {
        return None;
      }
      resolved := resolved + [said.value];
    }
    JoinedEnd(resolved);
    if resolved == [] {
      return None;
    }
    if !Agree(ip, resolved) {
      return None;
    }
    client := Some(resolved[0]);
  }

  /******* Precedence *******/

  /** An allowed header whose text is not empty. */
  predicate Present(req: Request, name: string) {
    name in req.allowed && HeaderText(req.headers, name).Some? && HeaderText(req.headers, name).value != []
  }

  /** What the first present header says. */
  function First(ip: IpLibrary, req: Request, names: seq<string>): Option<string>
    decreases |names|
  {
    if names == [] then None
    else if Present(req, names[0]) then Says(ip, req, names[0])
    else First(ip, req, names[1..])
  }

  predicate AnyRepeated(req: Request, names: seq<string>) {
    exists i :: 0 <= i < |names| && Repeated(req, names[i])
  }

  function Precedence(ip: IpLibrary, req: Request): Option<string> {
    if AnyRepeated(req, SINGLETONS) then None else First(ip, req, ORDER)
  }

  method ResolveByPrecedence(ip: IpLibrary, req: Request) returns (client: Option<string>)
    ensures client == Precedence(ip, req)
  {
    for n := 0 to |SINGLETONS|
      invariant !AnyRepeated(req, SINGLETONS[..n])
    {
      if Repeated(req, SINGLETONS[n]) {
        return None;
      }
      assert SINGLETONS[..n + 1] == SINGLETONS[..n] + [SINGLETONS[n]];
    }
    assert SINGLETONS[..|SINGLETONS|] == SINGLETONS;
    assert ORDER[0] == XFF && ORDER[1..] == SINGLETONS + [FORWARDED];
    if Present(req, XFF) {
      client := ResolveChain(ip, req, XFF, CombinedChainHeader(req.headers, XFF).value);
      return;
    }
    for n := 0 to |SINGLETONS|
      invariant First(ip, req, ORDER) == First(ip, req, SINGLETONS[n..] + [FORWARDED])
    {
      var name, names := SINGLETONS[n], SINGLETONS[n..] + [FORWARDED];
      assert names[0] == name && names[1..] == SINGLETONS[n + 1..] + [FORWARDED];
      if Present(req, name) {
        var candidate := Strip(req.headers.Get(name).value);
        if ip(candidate).None? {
          return None;
        }
        return Some(candidate);
      }
    }
    assert SINGLETONS[|SINGLETONS|..] + [FORWARDED] == [FORWARDED] && [FORWARDED][1..] == [];
    if Present(req, FORWARDED) {
      client := ResolveChain(ip, req, FORWARDED, CombinedChainHeader(req.headers, FORWARDED).value);
      return;
    }
    client := None;
  }

  /******* The entry point *******/

  /** The address of a connection; proxy headers count only behind a trusted socket peer. */
  method ResolveConnectionClientIp(ip: IpLibrary, headers: Headers, socketIp: Option<string>, trustProxyHeaders: bool,
                                   networks: seq<Network>, allowed: Option<set<string>>, requireConsensus: bool)
    returns (client: Option<string>)
    ensures !(trustProxyHeaders && socketIp.Some? && IsTrusted(ip, networks, socketIp.value)) ==> client == socketIp
    ensures socketIp == Some([]) ==> client == socketIp
    ensures trustProxyHeaders && socketIp.Some? && socketIp.value != [] && IsTrusted(ip, networks, socketIp.value) ==>
              var names := if allowed.None? then {XFF, FORWARDED} + (set name | name in SINGLETONS) else allowed.value;
              var req := Request(headers, socketIp.value, networks, names);
              client == if requireConsensus then Consensus(ip, req) else Precedence(ip, req)
  {
    if trustProxyHeaders && socketIp.Some? && socketIp.value != [] && IsTrusted(ip, networks, socketIp.value) {
      var names := if allowed.None? then {XFF, FORWARDED} + (set name | name in SINGLETONS) else allowed.value;
      var req := Request(headers, socketIp.value, networks, names);
      if requireConsensus {
        client := ResolveProxyHeaderConsensus(ip, req);
      } else {
        client := ResolveByPrecedence(ip, req);
      }
    } else {
      client := socketIp;
    }
  }
}
