/** Consensus and precedence never name two different clients, and exactly when precedence is silent. */
module ClientAgreement {
  import opened Basics
  import opened Text
  import opened Forwarded
  import opened ClientAddress

  /** Going down the list, a header with an empty-looking but present value is met before one that speaks. */
  predicate Blocked(req: Request, names: seq<string>)
    decreases |names|
  {
    names != [] && !Speaks(req, names[0]) && (Present(req, names[0]) || Blocked(req, names[1..]))
  }

  lemma BlankText(s: string)
    requires Strip(s) == []
    ensures Blank(s)
  {
    var left, right := StripSpec(s);
    assert left + [] + right == s;
  }

  lemma {:induction false} CommaJoinHead(values: seq<string>) returns (rest: string)
    requires values != []
    ensures Join(values, ',') == values[0] + rest && (rest == [] || rest[0] == ',')
  {
    if |values| == 1 {
      rest := [];
      assert values[0] + rest == values[0];
    } else {
      rest := [','] + Join(values[1..], ',');
    }
  }

  lemma {:induction false} CommaJoinNonEmpty(values: seq<string>, i: nat)
    requires i < |values| && values[i] != []
    ensures Join(values, ',') != []
    decreases |values|
  {
    if |values| > 1 && i > 0 {
      CommaJoinNonEmpty(values[1..], i - 1);
    }
  }

  lemma {:induction false} EntriesHead(current: string, head: string, rest: string)
    requires ',' !in head && (rest == [] || rest[0] == ',')
    ensures Entries(current, head + rest)[0] == current + head
    decreases |head|
  {
    if head == [] {
      assert head + rest == rest && current + head == current;
    } else {
      assert (head + rest)[1..] == head[1..] + rest;
      assert current + [head[0]] + head[1..] == current + head;
      EntriesHead(current + [head[0]], head[1..], rest);
    }
  }

  lemma {:induction false} SplitHead(current: string, head: string, rest: string)
    requires Blank(current) && Blank(head) && (rest == [] || rest[0] == ',')
    ensures SplitFrom(current, CLEAN, head + rest, ',').None?
    decreases |head|
  {
    if head == [] {
      assert head + rest == rest;
      StripBlank(current);
    } else {
      assert (head + rest)[1..] == head[1..] + rest;
      assert Next(CLEAN, head[0]) == CLEAN;
      SplitHead(current + [head[0]], head[1..], rest);
    }
  }

  lemma StripBlank(s: string)
    requires Blank(s)
    ensures Strip(s) == []
  {
    var left, right := StripSpec(s);
    assert forall i | 0 <= i < |Strip(s)| :: s[|left| + i] == Strip(s)[i];
  }

  /** A present header that only holds white space is malformed. */
  lemma BlankIsMalformed(ip: IpLibrary, req: Request, name: string)
    requires ip([]).None? && Present(req, name) && !Speaks(req, name)
    ensures Says(ip, req, name).None?
  {
    var values := req.headers.List(name);
    assert Strip(values[0]) == [];
    BlankText(values[0]);
    var rest := CommaJoinHead(values);
    if name == XFF {
      EntriesHead([], values[0], rest);
      assert [] + values[0] == values[0];
      var entries := Entries([], Join(values, ','));
      assert ip(Strip(entries[0])).None?;
      assert seq(|entries|, i requires 0 <= i < |entries| => Strip(entries[i]))[0] == [];
    } else if name == FORWARDED {
      SplitHead([], values[0], rest);
    }
  }

  /** A header that speaks is present, unless a repeated singleton starts with an empty value. */
  lemma SpeakingIsPresent(req: Request, name: string)
    requires Speaks(req, name) && (name == XFF || name == FORWARDED || !Repeated(req, name))
    ensures Present(req, name)
  {
    var values := req.headers.List(name);
    var i :| 0 <= i < |values| && Strip(values[i]) != [];
    if name == XFF || name == FORWARDED {
      CommaJoinNonEmpty(values, i);
    }
  }

  lemma {:induction false} FirstIsFirstEvidence(ip: IpLibrary, req: Request, names: seq<string>)
    requires ip([]).None?
    requires forall i | 0 <= i < |names| :: names[i] == XFF || names[i] == FORWARDED || !Repeated(req, names[i])
    requires Evidence(ip, req, names).Some? && Evidence(ip, req, names).value != []
    ensures First(ip, req, names) == if Blocked(req, names) then None else Some(Evidence(ip, req, names).value[0])
    decreases |names|
  {
    if Speaks(req, names[0]) {
      SpeakingIsPresent(req, names[0]);
    } else if Present(req, names[0]) {
      BlankIsMalformed(ip, req, names[0]);
    } else {
      FirstIsFirstEvidence(ip, req, names[1..]);
    }
  }

  /**
   When consensus names a client, precedence names the same one, unless a singleton is repeated or a blank header
   blocks it.
   */
  lemma PrecedenceGivenConsensus(ip: IpLibrary, req: Request)
    requires ip([]).None? && Consensus(ip, req).Some?
    ensures Precedence(ip, req) == if AnyRepeated(req, SINGLETONS) || Blocked(req, ORDER) then None
            else Consensus(ip, req)
  {
    if !AnyRepeated(req, SINGLETONS) {
      forall i | 0 <= i < |ORDER|
        ensures ORDER[i] == XFF || ORDER[i] == FORWARDED || !Repeated(req, ORDER[i])
      {
        if 0 < i < 4 {
          assert ORDER[i] == SINGLETONS[i - 1];
        }
      }
      FirstIsFirstEvidence(ip, req, ORDER);
    }
  }

  /** The two modes never disagree. */
  lemma ModesAgree(ip: IpLibrary, req: Request)
    requires ip([]).None? && Consensus(ip, req).Some? && Precedence(ip, req).Some?
    ensures Consensus(ip, req) == Precedence(ip, req)
  {
    PrecedenceGivenConsensus(ip, req);
  }

  lemma {:induction false} Silence(ip: IpLibrary, req: Request, names: seq<string>)
    requires forall i | 0 <= i < |names| :: !Speaks(req, names[i])
    ensures Evidence(ip, req, names) == Some([])
    decreases |names|
  {
    if names == [] {
    } else {
      Silence(ip, req, names[1..]);
    }
  }

  /** Only `name` speaks, and it holds the one value `client`. */
  lemma OnlyOneSpeaks(ip: IpLibrary, req: Request, name: string, client: string, names: seq<string>, i: nat)
    requires ip(client).Some? && client != [] && Trimmed(client) && i < |names| && names[i] == name
            && name in SINGLETONS
    requires name in req.allowed && req.headers.List(name) == [client]
    requires forall j | 0 <= j < |names| && j != i :: !Speaks(req, names[j])
    ensures Speaks(req, name) && Evidence(ip, req, names) == Some([client])
    decreases i
  {
    StripTrimmed(client);
    assert Strip(req.headers.List(name)[0]) != [];
    if i == 0 {
      Silence(ip, req, names[1..]);
      JoinedEnd([client]);
    } else {
      OnlyOneSpeaks(ip, req, name, client, names[1..], i - 1);
    }
  }

  lemma BlankIsSilent(req: Request, name: string)
    requires forall i | 0 <= i < |req.headers.List(name)| :: Blank(req.headers.List(name)[i])
    ensures !Speaks(req, name)
  {
    forall i | 0 <= i < |req.headers.List(name)|
      ensures Strip(req.headers.List(name)[i]) == []
    {
      StripBlank(req.headers.List(name)[i]);
    }
  }

  /** A blank X-Forwarded-For silences precedence but not consensus. */
  lemma BlankHeaderSilencesPrecedence(ip: IpLibrary, socketIp: string, networks: seq<Network>, client: string)
    requires ip([]).None? && ip(client).Some? && client != [] && Trimmed(client)
    ensures var headers := Plain(map["x-forwarded-for" := " ", "x-real-ip" := client]);
            var req := Request(headers, socketIp, networks, {"x-forwarded-for", "x-real-ip"});
            Consensus(ip, req) == Some(client) && Precedence(ip, req) == None
  {
    var headers := Plain(map["x-forwarded-for" := " ", "x-real-ip" := client]);
    var req := Request(headers, socketIp, networks, {"x-forwarded-for", "x-real-ip"});
    BlankIsSilent(req, XFF);
    OnlyOneSpeaks(ip, req, "x-real-ip", client, ORDER, 1);
    PrecedenceGivenConsensus(ip, req);
  }

  /** So does a singleton header repeated with blank values. */
  lemma RepeatedBlankSilencesPrecedence(ip: IpLibrary, socketIp: string, networks: seq<Network>, client: string)
    requires ip([]).None? && ip(client).Some? && client != [] && Trimmed(client)
    ensures var headers := Multi(map["x-real-ip" := ["", ""], "true-client-ip" := [client]]);
            var req := Request(headers, socketIp, networks, {"x-real-ip", "true-client-ip"});
            Consensus(ip, req) == Some(client) && Precedence(ip, req) == None
  {
    var headers := Multi(map["x-real-ip" := ["", ""], "true-client-ip" := [client]]);
    var req := Request(headers, socketIp, networks, {"x-real-ip", "true-client-ip"});
    BlankIsSilent(req, "x-real-ip");
    OnlyOneSpeaks(ip, req, "true-client-ip", client, ORDER, 2);
    assert Repeated(req, SINGLETONS[0]);
    PrecedenceGivenConsensus(ip, req);
  }

  /******* What consensus means *******/

  ghost predicate SaidBy(ip: IpLibrary, req: Request, names: seq<string>, client: string) {
    exists i :: 0 <= i < |names| && Speaks(req, names[i]) && Says(ip, req, names[i]) == Some(client)
  }

  /** Every header that speaks is well-formed. */
  ghost predicate AllWellFormed(ip: IpLibrary, req: Request, names: seq<string>) {
    forall i | 0 <= i < |names| :: Speaks(req, names[i]) ==> Says(ip, req, names[i]).Some?
  }

  lemma SaidByMore(ip: IpLibrary, req: Request, names: seq<string>, client: string)
    requires names != []
    ensures SaidBy(ip, req, names, client) <==>
              (Speaks(req, names[0]) && Says(ip, req, names[0]) == Some(client)) || SaidBy(ip, req, names[1..], client)
  {
    var rest := names[1..];
    if i :| 0 <= i < |rest| && Speaks(req, rest[i]) && Says(ip, req, rest[i]) == Some(client) {
      assert names[i + 1] == rest[i];
    }
    if i :| 1 <= i < |names| && Speaks(req, names[i]) && Says(ip, req, names[i]) == Some(client) {
      assert rest[i - 1] == names[i];
    }
  }

  lemma WellFormedMore(ip: IpLibrary, req: Request, names: seq<string>)
    requires names != []
    ensures AllWellFormed(ip, req, names) <==>
              (Speaks(req, names[0]) ==> Says(ip, req, names[0]).Some?) && AllWellFormed(ip, req, names[1..])
  {
    assert names == [names[0]] + names[1..];
  }

  lemma {:induction false} EvidenceMembers(ip: IpLibrary, req: Request, names: seq<string>, client: string)
    ensures Evidence(ip, req, names).Some? <==> AllWellFormed(ip, req, names)
    ensures Evidence(ip, req, names).Some? ==>
            (client in Evidence(ip, req, names).value <==> SaidBy(ip, req, names, client))
    decreases |names|
  {
    if names == [] {
    } else {
      EvidenceMembers(ip, req, names[1..], client);
      SaidByMore(ip, req, names, client);
      WellFormedMore(ip, req, names);
    }
  }

  lemma EvidenceSays(ip: IpLibrary, req: Request, names: seq<string>)
    requires Evidence(ip, req, names).Some?
    ensures AllWellFormed(ip, req, names)
    ensures forall client :: client in Evidence(ip, req, names).value <==> SaidBy(ip, req, names, client)
  {
    EvidenceMembers(ip, req, names, []);
    forall client
      ensures client in Evidence(ip, req, names).value <==> SaidBy(ip, req, names, client)
    {
      EvidenceMembers(ip, req, names, client);
    }
  }

  /** Consensus names a client only if some header says it and every header that speaks says the same address. */
  lemma ConsensusIsUnanimous(ip: IpLibrary, req: Request, client: string)
    requires Consensus(ip, req) == Some(client)
    ensures SaidBy(ip, req, ORDER, client) && AllWellFormed(ip, req, ORDER)
    ensures forall other | SaidBy(ip, req, ORDER, other) :: ip(other) == ip(client)
  {
    var said := Evidence(ip, req, ORDER).value;
    EvidenceSays(ip, req, ORDER);
    assert client in said;
    forall other | SaidBy(ip, req, ORDER, other)
      ensures ip(other) == ip(client)
    {
      var i :| 0 <= i < |said| && said[i] == other;
    }
  }

  /** An allowed header with several values, not all of them blank. */
  predicate SpeaksTwice(req: Request, name: string) {
    && req.headers.Multi? && name in req.allowed && name in req.headers.lists && |req.headers.lists[name]| > 1
    && HasNonEmptyHeaderValue(req.headers, name)
  }

  /** A singleton header that speaks twice leaves both modes without a client. */
  lemma RepeatedSingletonIsNobody(ip: IpLibrary, req: Request, name: string)
    requires name in {"x-real-ip", "true-client-ip", "cf-connecting-ip"} && SpeaksTwice(req, name)
    ensures Consensus(ip, req) == None && Precedence(ip, req) == None
  {
    var i := if name == "x-real-ip" then 0 else if name == "true-client-ip" then 1 else 2;
    assert SINGLETONS[i] == name && Repeated(req, SINGLETONS[i]) && Speaks(req, SINGLETONS[i]);
  }

  lemma NobodySpeaksTwice(req: Request)
    requires forall name | name in {"x-real-ip", "true-client-ip", "cf-connecting-ip"} :: !SpeaksTwice(req, name)
    ensures !Ambiguous(req, SINGLETONS)
  {
    forall i | 0 <= i < |SINGLETONS|
      ensures !(Repeated(req, SINGLETONS[i]) && Speaks(req, SINGLETONS[i]))
    {
      assert SINGLETONS[i] in {"x-real-ip", "true-client-ip", "cf-connecting-ip"};
      assert !SpeaksTwice(req, SINGLETONS[i]);
    }
  }

  /** And it names one whenever that is so and no speaking singleton is repeated. */
  lemma UnanimityIsConsensus(ip: IpLibrary, req: Request, client: string)
    requires forall name | name in {"x-real-ip", "true-client-ip", "cf-connecting-ip"} :: !SpeaksTwice(req, name)
    requires SaidBy(ip, req, ORDER, client) && AllWellFormed(ip, req, ORDER)
    requires forall other | SaidBy(ip, req, ORDER, other) :: ip(other) == ip(client)
    ensures Consensus(ip, req).Some? && ip(Consensus(ip, req).value) == ip(client)
  {
    NobodySpeaksTwice(req);
    EvidenceMembers(ip, req, ORDER, client);
    EvidenceSays(ip, req, ORDER);
    var said := Evidence(ip, req, ORDER).value;
    forall i | 0 <= i < |said|
      ensures ip(said[i]) == ip(client)
    {
      assert said[i] in said;
    }
  }

  /** The entries of an X-Forwarded-For value are what stands between its commas. */
  lemma {:induction false} EntriesJoin(current: string, text: string)
    requires ',' !in current
    ensures Join(Entries(current, text), ',') == current + text
    ensures forall i | 0 <= i < |Entries(current, text)| :: ',' !in Entries(current, text)[i]
    decreases |text|
  {
    if text == [] {
      assert current + text == current;
    } else if text[0] == ',' {
      EntriesJoin([], text[1..]);
      var entries := Entries(current, text);
      assert entries[1..] == Entries([], text[1..]) && [] + text[1..] == text[1..];
      assert current + [','] + text[1..] == current + text;
    } else {
      EntriesJoin(current + [text[0]], text[1..]);
      assert current + [text[0]] + text[1..] == current + text;
    }
  }

  /******* What one header says *******/

  lemma {:induction false} EntriesOfJoin(current: string, first: string, others: seq<string>)
    requires ',' !in first && forall i | 0 <= i < |others| :: ',' !in others[i]
    ensures Entries(current, Join([first] + others, ',')) == [current + first] + others
    decreases |others|, |first|
  {
    var pieces := [first] + others;
    assert pieces[1..] == others;
    if first != [] {
      var text, rest := Join(pieces, ','), Join([first[1..]] + others, ',');
      assert ([first[1..]] + others)[1..] == others;
      assert text[0] == first[0] && text[1..] == rest;
      EntriesOfJoin(current + [first[0]], first[1..], others);
      assert current + [first[0]] + first[1..] == current + first;
    } else if others != [] {
      var text := Join(pieces, ',');
      assert text[0] == ',' && text[1..] == Join(others, ',');
      EntriesOfJoin([], others[0], others[1..]);
      assert [others[0]] + others[1..] == others && [] + others[0] == others[0] && current + first == current;
    } else {
      assert current + first == current;
    }
  }

  /** `hops` are the stripped texts between the commas, and all of them are addresses. */
  ghost predicate Lists(ip: IpLibrary, entries: seq<string>, hops: seq<string>) {
    && |entries| == |hops| > 0
    && forall i | 0 <= i < |entries| :: ',' !in entries[i] && hops[i] == Strip(entries[i]) && ip(hops[i]).Some?
  }

  /** An X-Forwarded-For value is accepted exactly if it lists addresses, and yields exactly them. */
  lemma XffExactly(ip: IpLibrary, text: string, hops: seq<string>)
    ensures XffHops(ip, text) == Some(hops) <==>
            exists entries :: Join(entries, ',') == text && Lists(ip, entries, hops)
  {
    var entries := Entries([], text);
    EntriesJoin([], text);
    assert [] + text == text;
    if XffHops(ip, text) == Some(hops) {
      assert Lists(ip, entries, hops);
    }
    forall listed | Join(listed, ',') == text && Lists(ip, listed, hops)
      ensures listed == entries
    {
      EntriesOfJoin([], listed[0], listed[1..]);
      assert [listed[0]] + listed[1..] == listed && [] + listed[0] == listed[0];
    }
    if listed :| Join(listed, ',') == text && Lists(ip, listed, hops) {
      assert hops == seq(|entries|, i requires 0 <= i < |entries| => Strip(entries[i]));
    }
  }

  /** A singleton header says the address it holds, whatever white space surrounds it, and nothing else. */
  lemma SingletonMeaning(ip: IpLibrary, req: Request, name: string, left: string, client: string, right: string)
    requires name in SINGLETONS && req.headers.List(name) == [left + client + right]
    requires Blank(left) && Blank(right) && client != [] && Trimmed(client)
    ensures Says(ip, req, name) == if ip(client).Some? then Some(client) else None
  {
    StripPadded(left, client, right);
  }

  /** The headers are consulted in this order. */
  lemma PrecedenceOrder(ip: IpLibrary, req: Request, i: nat)
    requires i < 5 && !AnyRepeated(req, SINGLETONS)
    requires var names := ["x-forwarded-for", "x-real-ip", "true-client-ip", "cf-connecting-ip", "forwarded"];
             Present(req, names[i]) && forall j | 0 <= j < i :: !Present(req, names[j])
    ensures var names := ["x-forwarded-for", "x-real-ip", "true-client-ip", "cf-connecting-ip", "forwarded"];
            Precedence(ip, req) == Says(ip, req, names[i])
  {
    var names := ["x-forwarded-for", "x-real-ip", "true-client-ip", "cf-connecting-ip", "forwarded"];
    assert ORDER == names;
    FirstPresent(ip, req, names, i);
  }

  lemma {:induction false} FirstPresent(ip: IpLibrary, req: Request, names: seq<string>, i: nat)
    requires i < |names| && Present(req, names[i]) && forall j | 0 <= j < i :: !Present(req, names[j])
    ensures First(ip, req, names) == Says(ip, req, names[i])
    decreases i
  {
    if i == 0 {
    } else {
      FirstPresent(ip, req, names[1..], i - 1);
    }
  }

  /** A present header has a non-empty value; the values of a chain header are joined by commas. */
  lemma PresentExactly(req: Request, name: string)
    ensures var values := req.headers.List(name);
            Present(req, name) <==>
              && name in req.allowed && values != []
              && if name == "x-forwarded-for" || name == "forwarded" then values != [""] else values[0] != []
  {
    var values := req.headers.List(name);
    if |values| > 1 {
      var rest := CommaJoinHead(values);
      assert Join(values, ',') != [];
    }
  }
}
