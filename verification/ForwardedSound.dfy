/** The converse of the round trip: whatever the parser accepts is the text of a well-formed header. */
module ForwardedSound {
  import opened Basics
  import opened Text
  import opened Forwarded
  import opened ForwardedProofs

  /******* Splitting *******/

  lemma {:induction false} SplitFromSound(current: string, st: Scan, rest: string, delimiter: char, parts: seq<string>)
    returns (pieces: seq<string>)
    requires SplitFrom(current, st, rest, delimiter) == Some(parts)
    ensures pieces != [] && Join(pieces, delimiter) == current + rest && Stripped(pieces) == parts
    decreases |rest|
  {
    if rest == [] {
      pieces := [current];
      assert current + rest == current;
    } else if st == CLEAN && rest[0] == delimiter {
      var others := SplitFromSound([], CLEAN, rest[1..], delimiter, parts[1..]);
      pieces := [current] + others;
      assert pieces[1..] == others;
      assert [] + rest[1..] == rest[1..];
      assert current + [delimiter] + rest[1..] == current + rest;
      assert Stripped(pieces) == [Strip(current)] + Stripped(others);
    } else {
      pieces := SplitFromSound(current + [rest[0]], Next(st, rest[0]), rest[1..], delimiter, parts);
      assert current + [rest[0]] + rest[1..] == current + rest;
    }
  }

  lemma SplitSound(s: string, delimiter: char, parts: seq<string>) returns (pieces: seq<string>)
    requires Split(s, delimiter) == Some(parts)
    ensures pieces != [] && Join(pieces, delimiter) == s && Stripped(pieces) == parts
  {
    pieces := SplitFromSound([], CLEAN, s, delimiter, parts);
    assert [] + s == s;
  }

  /******* Pairs *******/

  lemma {:induction false} UnescapeSound(body: string, text: string) returns (chars: seq<QuotedChar>)
    requires Unescape(body, false) == Some(text)
    ensures forall i | 0 <= i < |chars| :: CharOk(chars[i])
    ensures PrintChars(chars) == body && Chars(chars) == text
    decreases |body|
  {
    if body == [] {
      chars := [];
    } else {
      var escaped := body[0] == '\\';
      var n := if escaped then 2 else 1;
      if escaped {
        assert body[1..] != [] && body[1..][0] == body[1] && body[1..][1..] == body[2..];
      }
      var others := UnescapeSound(body[n..], text[1..]);
      var q := QuotedChar(body[n - 1], escaped);
      chars := [q] + others;
      assert chars[1..] == others && PrintChar(q) == body[..n];
      assert body[..n] + body[n..] == body;
      assert Chars(chars) == [q.c] + Chars(others);
    }
  }

  lemma UnquoteSound(raw: string, text: string) returns (v: Value)
    requires raw == Strip(raw) && Unquote(raw) == Some(text)
    ensures v.Quoted? && ValueOk(v) && PrintValue(v) == raw && Meaning(v) == text
  {
    var body := raw[1..|raw| - 1];
    var chars := UnescapeSound(body, text);
    v := Quoted(chars);
    assert raw == ['"'] + body + ['"'];
  }

  /** What a parsed pair says of the text on either side of its equals sign. */
  lemma PairParts(s: string, pair: ParsedPair) returns (name: string, raw: string)
    requires ParsePair(s) == Some(pair)
    ensures s == name + ['='] + raw && IsToken(Lower(name)) && pair.name == Lower(name)
    ensures raw != [] && raw == Strip(raw) && pair.quoted == (raw[0] == '"')
    ensures if pair.quoted then Unquote(raw) == Some(pair.value) else IsToken(raw) && pair.value == raw
  {
    var eq := Find(s, '=');
    name, raw := s[..eq], s[eq + 1..];
  }

  lemma PairSound(s: string, pair: ParsedPair) returns (p: Param)
    requires ParsePair(s) == Some(pair)
    ensures ParamOk(p) && p.left == p.right == [] && PrintPair(p) == s
    ensures pair == ParsedPair(Lower(p.name), Meaning(p.value), p.value.Quoted?)
  {
    var name, raw := PairParts(s, pair);
    var v := Token(raw);
    if pair.quoted {
      v := UnquoteSound(raw, pair.value);
    }
    p := Param([], name, v, []);
  }

  /******* Nodes *******/

  lemma NodeSound(ip: IpLibrary, value: string, quoted: bool, hop: string) returns (n: Node)
    requires Versioned(ip) && ParseNode(ip, value, quoted) == Some(hop)
    ensures NodeOk(ip, n) && NodeText(n) == value && Canonical(ip, n) == hop
    ensures !quoted ==> n.V4? && n.port.None?
  {
    if value != [] && value[0] == '[' {
      n := BracketedSound(ip, value, hop);
    } else if ip(value).Some? {
      n := V4(value, None);
    } else {
      n := PortedSound(ip, value, hop);
    }
  }

  lemma Cut(value: string, closing: nat, port: Option<string>)
    requires 0 < closing < |value| && value[0] == '[' && value[closing] == ']' && PortText(port) == value[closing + 1..]
    ensures NodeText(V6(value[1..closing], port)) == value
  {
    assert value == ['['] + value[1..closing] + [']'] + value[closing + 1..];
  }

  function PortOf(suffix: string): (port: Option<string>)
    requires suffix == [] || suffix[0] == ':'
    ensures PortText(port) == suffix
  {
    if suffix == [] then None else assert suffix == [':'] + suffix[1..]; Some(suffix[1..])
  }

  lemma BracketedSound(ip: IpLibrary, value: string, hop: string) returns (n: Node)
    requires value != [] && value[0] == '[' && ParseBracketed(ip, value) == Some(hop)
    ensures n.V6? && NodeOk(ip, n) && NodeText(n) == value && Canonical(ip, n) == hop
  {
    var closing := Find(value, ']');
    var port := PortOf(value[closing + 1..]);
    Cut(value, closing, port);
    n := V6(value[1..closing], port);
  }

  lemma PortedSound(ip: IpLibrary, value: string, hop: string) returns (n: Node)
    requires Versioned(ip) && ParsePorted(ip, value) == Some(hop)
    ensures n.V4? && NodeOk(ip, n) && NodeText(n) == value && Canonical(ip, n) == hop
  {
    var colon := FindLast(value, ':');
    var address, port := value[..colon], value[colon + 1..];
    n := V4(address, Some(port));
    assert value == address + ([':'] + port);
  }

  /******* Elements *******/

  function NamesOf(pairs: PairReader, parameters: seq<string>): (r: seq<Option<string>>)
    ensures |r| == |parameters|
    ensures forall i | 0 <= i < |parameters| ::
            r[i] == if pairs(parameters[i]).None? then None else Some(pairs(parameters[i]).value.name)
  {
    seq(|parameters|, i requires 0 <= i < |parameters| =>
        if pairs(parameters[i]).None? then None else Some(pairs(parameters[i]).value.name))
  }

  predicate NewNames(names: seq<Option<string>>, seen: set<string>) {
    && (forall i | 0 <= i < |names| :: names[i].Some? && names[i].value !in seen)
    && (forall i, j | 0 <= i < j < |names| :: names[i] != names[j])
  }

  lemma NewNamesMore(name: string, names: seq<Option<string>>, seen: set<string>)
    requires name !in seen && NewNames(names, seen + {name})
    ensures NewNames([Some(name)] + names, seen)
  {
  }

  predicate NamesHop(pairs: PairReader, nodes: NodeReader, parameter: string, hop: string) {
    var pair := pairs(parameter);
    pair.Some? && pair.value.name == "for" && nodes(pair.value.value, pair.value.quoted) == Some(hop)
  }

  /** Accepted parameters have distinct names, and one of them is the `for` that yields the hop. */
  lemma {:induction false} ParametersSound(pairs: PairReader, nodes: NodeReader, parameters: seq<string>,
                                           seen: set<string>, found: Option<string>, hop: string)
    requires ReadParameters(pairs, nodes, parameters, seen, found) == Some(hop)
    requires found.Some? ==> "for" in seen
    ensures NewNames(NamesOf(pairs, parameters), seen)
    ensures found == Some(hop) || exists i :: 0 <= i < |parameters| && NamesHop(pairs, nodes, parameters[i], hop)
    decreases |parameters|
  {
    if parameters == [] {
    } else {
      var head, tail := parameters[0], parameters[1..];
      var pair := pairs(head).value;
      assert NamesOf(pairs, parameters) == [Some(pair.name)] + NamesOf(pairs, tail);
      var found' := if pair.name == "for" then nodes(pair.value, pair.quoted) else found;
      ParametersSound(pairs, nodes, tail, seen + {pair.name}, found', hop);
      NewNamesMore(pair.name, NamesOf(pairs, tail), seen);
      if i :| 0 <= i < |tail| && NamesHop(pairs, nodes, tail[i], hop) {
        assert NamesHop(pairs, nodes, parameters[i + 1], hop);
      } else if pair.name == "for" {
        assert NamesHop(pairs, nodes, parameters[0], hop);
      }
    }
  }

  /** One parameter with its white space, from the piece the inner split found it in. */
  lemma ParamSound(piece: string) returns (p: Param)
    requires ParsePair(Strip(piece)).Some?
    ensures ParamOk(p) && PrintParam(p) == piece && PrintPair(p) == Strip(piece)
    ensures ParsePair(Strip(piece)).value == ParsedPair(Lower(p.name), Meaning(p.value), p.value.Quoted?)
  {
    var bare := PairSound(Strip(piece), ParsePair(Strip(piece)).value);
    var left, right := StripSpec(piece);
    p := bare.(left := left, right := right);
    assert PrintPair(p) == PrintPair(bare);
  }

  /** `p` is the parameter a piece was printed from. */
  predicate From(p: Param, piece: string) {
    && ParamOk(p) && PrintParam(p) == piece
    && ParsePair(Strip(piece)) == Some(ParsedPair(Lower(p.name), Meaning(p.value), p.value.Quoted?))
  }

  predicate AllFrom(params: seq<Param>, pieces: seq<string>) {
    |params| == |pieces| && forall i | 0 <= i < |pieces| :: From(params[i], pieces[i])
  }

  ghost function Readout(piece: string): (p: Param)
    requires exists p :: From(p, piece)
    ensures From(p, piece)
  {
    var p :| From(p, piece);
    p
  }

  lemma ParamsSound(pieces: seq<string>) returns (params: seq<Param>)
    requires forall i | 0 <= i < |pieces| :: NamesOf(ParsePair, Stripped(pieces))[i].Some?
    ensures AllFrom(params, pieces)
  {
    forall i | 0 <= i < |pieces|
      ensures exists p :: From(p, pieces[i])
    {
      assert NamesOf(ParsePair, Stripped(pieces))[i].Some?;
      var p := ParamSound(pieces[i]);
      assert From(p, pieces[i]);
    }
    params := seq(|pieces|, i requires 0 <= i < |pieces| => Readout(pieces[i]));
  }

  lemma ElementSound(ip: IpLibrary, text: string, hop: string) returns (e: Element)
    requires Versioned(ip) && ParseElement(ip, text) == Some(hop)
    ensures ElementOk(ip, e) && PrintElement(e) == text && Canonical(ip, e.node) == hop
  {
    var parts := Split(text, ';').value;
    var pieces := SplitSound(text, ';', parts);
    ParametersSound(ParsePair, NodesOf(ip), parts, {}, None, hop);
    var which :| 0 <= which < |parts| && NamesHop(ParsePair, NodesOf(ip), parts[which], hop);
    e := Assembled(ip, pieces, which, hop);
  }

  lemma Assembled(ip: IpLibrary, pieces: seq<string>, which: nat, hop: string) returns (e: Element)
    requires Versioned(ip) && which < |pieces|
    requires NewNames(NamesOf(ParsePair, Stripped(pieces)), {})
            && NamesHop(ParsePair, NodesOf(ip), Strip(pieces[which]), hop)
    ensures ElementOk(ip, e) && PrintElement(e) == Join(pieces, ';') && Canonical(ip, e.node) == hop
  {
    var params := ParamsSound(pieces);
    AllFromPrints(params, pieces);
    NamesRead(params, pieces);
    var value := params[which].value;
    assert From(params[which], pieces[which]);
    var node := NodeSound(ip, Meaning(value), value.Quoted?, hop);
    e := Element(params, which, node);
  }

  lemma AllFromPrints(params: seq<Param>, pieces: seq<string>)
    requires AllFrom(params, pieces)
    ensures PrintParams(params) == pieces
    ensures forall i | 0 <= i < |params| :: ParamOk(params[i])
  {
    forall i | 0 <= i < |params|
      ensures ParamOk(params[i]) && PrintParam(params[i]) == pieces[i]
    {
      assert From(params[i], pieces[i]);
    }
  }

  lemma NamesRead(params: seq<Param>, pieces: seq<string>)
    requires AllFrom(params, pieces) && NewNames(NamesOf(ParsePair, Stripped(pieces)), {})
    ensures forall i, j | 0 <= i < j < |params| :: Lower(params[i].name) != Lower(params[j].name)
  {
    var names := NamesOf(ParsePair, Stripped(pieces));
    forall i | 0 <= i < |params|
      ensures names[i] == Some(Lower(params[i].name))
    {
      assert From(params[i], pieces[i]);
    }
    forall i, j | 0 <= i < j < |params|
      ensures Lower(params[i].name) != Lower(params[j].name)
    {
      assert names[i] != names[j];
    }
  }

  /******* The header *******/

  /** The element with more white space around it. */
  function Padded(e: Element, left: string, right: string): Element
    requires e.params != []
  {
    var padded := e.params[0 := e.params[0].(left := left + e.params[0].left)];
    var last := |padded| - 1;
    e.(params := padded[last := padded[last].(right := padded[last].right + right)])
  }

  lemma PaddedOk(ip: IpLibrary, e: Element, left: string, right: string)
    requires ElementOk(ip, e) && Blank(left) && Blank(right)
    ensures ElementOk(ip, Padded(e, left, right)) && Padded(e, left, right).node == e.node
  {
    var padded := Padded(e, left, right);
    forall i | 0 <= i < |e.params|
      ensures ParamOk(padded.params[i]) && padded.params[i].name == e.params[i].name
              && padded.params[i].value == e.params[i].value
    {
      assert ParamOk(e.params[i]);
    }
  }

  lemma PaddedPrint(e: Element, left: string, right: string)
    requires e.params != []
    ensures PrintElement(Padded(e, left, right)) == left + PrintElement(e) + right
  {
    PrintPadLeft(e.params, left);
    PrintPadRight(e.params[0 := e.params[0].(left := left + e.params[0].left)], right);
  }

  lemma PrintPadLeft(params: seq<Param>, left: string)
    requires params != []
    ensures Join(PrintParams(params[0 := params[0].(left := left + params[0].left)]), ';') ==
            left + Join(PrintParams(params), ';')
  {
    var p, more := params[0], params[0 := params[0].(left := left + params[0].left)];
    var tail := PrintParams(params)[1..];
    assert PrintParam(more[0]) == left + PrintParam(p);
    assert PrintParams(params) == [PrintParam(p)] + tail;
    assert PrintParams(more) == [left + PrintParam(p)] + tail;
    JoinPadFirst(left, PrintParam(p), tail, ';');
  }

  lemma PrintPadRight(params: seq<Param>, right: string)
    requires params != []
    ensures Join(PrintParams(params[|params| - 1 :=
            params[|params| - 1].(right := params[|params| - 1].right + right)]), ';') ==
            Join(PrintParams(params), ';') + right
  {
    var last := |params| - 1;
    var p, more := params[last], params[last := params[last].(right := params[last].right + right)];
    var front := PrintParams(params)[..last];
    assert PrintParam(more[last]) == PrintParam(p) + right;
    assert PrintParams(params) == front + [PrintParam(p)];
    assert PrintParams(more) == front + [PrintParam(p) + right];
    JoinPadLast(front, PrintParam(p), right, ';');
  }

  lemma PieceSound(ip: IpLibrary, piece: string, hop: string) returns (e: Element)
    requires Versioned(ip) && ParseElement(ip, Strip(piece)) == Some(hop)
    ensures ElementOk(ip, e) && PrintElement(e) == piece && Canonical(ip, e.node) == hop
  {
    var bare := ElementSound(ip, Strip(piece), hop);
    var left, right := StripSpec(piece);
    PaddedOk(ip, bare, left, right);
    PaddedPrint(bare, left, right);
    e := Padded(bare, left, right);
  }

  lemma {:induction false} AllRead(read: string -> Parsed<string>, elements: seq<string>, hops: seq<string>)
    requires ReadAll(read, elements) == Some(hops)
    ensures |hops| == |elements| && forall i | 0 <= i < |elements| :: read(elements[i]) == Some(hops[i])
    decreases |elements|
  {
    if elements == [] {
    } else {
      AllRead(read, elements[1..], hops[1..]);
      assert elements == [elements[0]] + elements[1..];
    }
  }

  /** `e` is the element a piece was printed from. */
  ghost predicate Shows(ip: IpLibrary, e: Element, piece: string, hop: string) {
    ElementOk(ip, e) && PrintElement(e) == piece && Canonical(ip, e.node) == hop
  }

  ghost function Shown(ip: IpLibrary, piece: string, hop: string): (e: Element)
    requires exists e :: Shows(ip, e, piece, hop)
    ensures Shows(ip, e, piece, hop)
  {
    var e :| Shows(ip, e, piece, hop);
    e
  }

  lemma ElementsSound(ip: IpLibrary, pieces: seq<string>, hops: seq<string>) returns (es: seq<Element>)
    requires Versioned(ip) && ReadAll(ElementsOf(ip), Stripped(pieces)) == Some(hops)
    ensures |es| == |pieces| == |hops| && forall i | 0 <= i < |es| :: Shows(ip, es[i], pieces[i], hops[i])
  {
    AllRead(ElementsOf(ip), Stripped(pieces), hops);
    forall i | 0 <= i < |pieces|
      ensures exists e :: Shows(ip, e, pieces[i], hops[i])
    {
      assert ElementsOf(ip)(Stripped(pieces)[i]) == Some(hops[i]);
      var e := PieceSound(ip, pieces[i], hops[i]);
      assert Shows(ip, e, pieces[i], hops[i]);
    }
    es := seq(|pieces|, i requires 0 <= i < |pieces| => Shown(ip, pieces[i], hops[i]));
  }

  /** An accepted text is the print of a well-formed header with the returned addresses. */
  lemma ParseSound(ip: IpLibrary, s: string, hops: seq<string>) returns (es: seq<Element>)
    requires Versioned(ip) && ParseChain(ip, s) == Some(hops)
    ensures HeaderOk(ip, es) && Print(es) == s && Addresses(ip, es) == hops
  {
    var pieces := SplitSound(s, ',', Split(s, ',').value);
    es := ElementsSound(ip, pieces, hops);
    forall i | 0 <= i < |es|
      ensures ElementOk(ip, es[i]) && PrintElement(es[i]) == pieces[i] && Canonical(ip, es[i].node) == hops[i]
    {
      assert Shows(ip, es[i], pieces[i], hops[i]);
    }
    assert PrintElements(es) == pieces && Addresses(ip, es) == hops;
  }

  /** The parser accepts exactly the printed headers, and returns exactly their addresses. */
  lemma ParserExact(ip: IpLibrary, s: string, hops: seq<string>)
    requires Plausible(ip)
    ensures ParseChain(ip, s) == Some(hops) <==>
            exists es :: HeaderOk(ip, es) && Print(es) == s && Addresses(ip, es) == hops
  {
    if ParseChain(ip, s) == Some(hops) {
      var _ := ParseSound(ip, s, hops);
    }
    forall es | HeaderOk(ip, es) && Print(es) == s
      ensures ParseChain(ip, s) == Some(Addresses(ip, es))
    {
      RoundTrip(ip, es);
    }
  }
}
