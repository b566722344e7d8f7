/** The Forwarded header parser of app/core/request_locality.py, against the grammar of sections 4 and 6 of RFC 7239. */
module Forwarded {
  import opened Basics
  import opened Text

  /** A parse; None is the ValueError every malformed header raises. */
  type Parsed<T> = Option<T>

  /** An address as `ipaddress` reads it: its version and its canonical text. */
  datatype Ip = Ip(version: nat, text: string)

  /** `ip_address`; None is the ValueError. */
  type IpLibrary = string -> Option<Ip>

  function Joined<T>(front: seq<T>, back: Parsed<seq<T>>): Parsed<seq<T>> {
    if back.None? then None else Some(front + back.value)
  }

  lemma JoinedNothing<T>(back: Parsed<seq<T>>)
    ensures Joined([], back) == back
  {
    assert back.Some? ==> [] + back.value == back.value;
  }

  lemma JoinedEnd<T>(front: seq<T>)
    ensures Joined(front, Some([])) == Some(front)
  {
    assert front + [] == front;
  }

  lemma JoinedMore<T>(front: seq<T>, x: T, back: Parsed<seq<T>>)
    ensures Joined(front, Joined([x], back)) == Joined(front + [x], back)
  {
    assert back.Some? ==> front + ([x] + back.value) == front + [x] + back.value;
  }

  /******* Quote-aware splitting *******/

  /** Whether the scan is inside a quoted string, and right after a backslash in it. */
  datatype Scan = Scan(quoted: bool, escaped: bool)

  const CLEAN := Scan(false, false)

  function Next(st: Scan, c: char): Scan {
    if st.escaped then st.(escaped := false)
    else if st.quoted && c == '\\' then st.(escaped := true)
    else if c == '"' then st.(quoted := !st.quoted)
    else st
  }

  /** The parts from here on, where `current` is the part read so far. */
  function SplitFrom(current: string, st: Scan, rest: string, delimiter: char): Parsed<seq<string>>
    decreases |rest|
  {
    if rest == [] then
      if st != CLEAN then None
      else if Strip(current) == [] then None
      else Some([Strip(current)])
    else if st == CLEAN && rest[0] == delimiter then
      if Strip(current) == [] then None else Joined([Strip(current)], SplitFrom([], CLEAN, rest[1..], delimiter))
    else SplitFrom(current + [rest[0]], Next(st, rest[0]), rest[1..], delimiter)
  }

  function Split(value: string, delimiter: char): Parsed<seq<string>> { SplitFrom([], CLEAN, value, delimiter) }

  method SplitForwardedValue(value: string, delimiter: char) returns (r: Parsed<seq<string>>)
    requires delimiter != '"' && delimiter != '\\'
    ensures r == Split(value, delimiter)
  {
    var parts: seq<string>, start, inQuotes, escaped := [], 0, false, false;
    assert value[0..0] == [] && value[0..] == value;
    JoinedNothing(Split(value, delimiter));
    for index := 0 to |value|
      invariant 0 <= start <= index && (escaped ==> inQuotes)
      invariant Split(value, delimiter) ==
                Joined(parts, SplitFrom(value[start..index], Scan(inQuotes, escaped), value[index..], delimiter))
    {
      var c := value[index];
      assert value[index..][0] == c && value[index..][1..] == value[index + 1..];
      assert value[start..index] + [c] == value[start..index + 1];
      if escaped {
        escaped := false;
      } else if inQuotes && c == '\\' {
        escaped := true;
      } else if c == '"' {
        inQuotes := !inQuotes;
      } else if c == delimiter && !inQuotes {
        var part := Strip(value[start..index]);
        if part == [] {
          return None;
        }
        JoinedMore(parts, part, SplitFrom([], CLEAN, value[index + 1..], delimiter));
        parts := parts + [part];
        start := index + 1;
        assert value[start..start] == [];
      }
    }
    assert value[|value|..] == [] && value[start..|value|] == value[start..];
    if inQuotes || escaped {
      return None;
    }
    var part := Strip(value[start..]);
    if part == [] {
      return None;
    }
    r := Some(parts + [part]);
  }

  /******* Characters *******/

  predicate IsTokenChar(c: char) {
    || '0' <= c <= '9' || 'A' <= c <= 'Z' || 'a' <= c <= 'z'
    || c == '!' || ('#' <= c <= '\'') || c == '*' || c == '+' || c == '-' || c == '.' || c == '^' || c == '_'
        || c == '`' || c == '|' || c == '~'
  }

  predicate IsToken(s: string) {
    s != [] && forall i | 0 <= i < |s| :: IsTokenChar(s[i])
  }

  predicate IsQuotedChar(c: char, escaped: bool) {
    var u := c as int;
    if escaped then u == 0x09 || u == 0x20 || 0x21 <= u <= 0x7E || 0x80 <= u <= 0xFF
    else u == 0x09 || u == 0x20 || u == 0x21 || 0x23 <= u <= 0x5B || 0x5D <= u <= 0x7E || 0x80 <= u <= 0xFF
  }

  /** `str.lower()` as far as it can yield an ASCII character: A-Z, and the Kelvin sign. */
  function LowerChar(c: char): char {
    if 'A' <= c <= 'Z' then (c as int + 32) as char
    else if c as int == 0x212A then 'k'
    else c
  }

  function Lower(s: string): (r: string)
    ensures |r| == |s| && forall i | 0 <= i < |s| :: r[i] == LowerChar(s[i])
  {
    seq(|s|, i requires 0 <= i < |s| => LowerChar(s[i]))
  }

  /******* Quoted strings *******/

  function Unescape(body: string, escaped: bool): Parsed<string>
    decreases |body|
  {
    if body == [] then
      if escaped then None else Some([])
    else if !escaped && body[0] == '\\' then Unescape(body[1..], true)
    else if !IsQuotedChar(body[0], escaped) || (!escaped && body[0] == '"') then None
    else Joined([body[0]], Unescape(body[1..], false))
  }

  function Unquote(raw: string): Parsed<string> {
    var value := Strip(raw);
    if |value| < 2 || value[0] != '"' || value[|value| - 1] != '"' then None
    else Unescape(value[1..|value| - 1], false)
  }

  method UnquoteForwardedValue(raw: string) returns (r: Parsed<string>)
    ensures r == Unquote(raw)
  {
    var value := Strip(raw);
    if |value| < 2 || !(value[0] == '"' && value[|value| - 1] == '"') {
      return None;
    }
    var body := value[1..|value| - 1];
    var unescaped: string, escaped := [], false;
    assert body[0..] == body;
    JoinedNothing(Unescape(body, false));
    for n := 0 to |body|
      invariant Unescape(body, false) == Joined(unescaped, Unescape(body[n..], escaped))
    {
      var c := body[n];
      assert body[n..][0] == c && body[n..][1..] == body[n + 1..];
      JoinedMore(unescaped, c, Unescape(body[n + 1..], false));
      if escaped {
        if !IsQuotedChar(c, true) {
          return None;
        }
        unescaped, escaped := unescaped + [c], false;
      } else if c == '\\' {
        escaped := true;
      } else if c == '"' || !IsQuotedChar(c, false) {
        return None;
      } else {
        unescaped := unescaped + [c];
      }
    }
    assert body[|body|..] == [];
    JoinedEnd(unescaped);
    if escaped {
      return None;
    }
    r := Some(unescaped);
  }

  /******* Nodes *******/

  function Digits(port: string): nat
    requires forall i | 0 <= i < |port| :: '0' <= port[i] <= '9'
  {
    if port == [] then 0 else Digits(port[..|port| - 1]) * 10 + (port[|port| - 1] as int - '0' as int)
  }

  predicate ValidPort(port: string) {
    1 <= |port| <= 5 && (forall i | 0 <= i < |port| :: '0' <= port[i] <= '9') && Digits(port) <= 65535
  }

  /** `str.find`, or the length when absent. */
  function Find(s: string, c: char): (n: nat)
    ensures n <= |s| && (n < |s| ==> s[n] == c) && forall i | 0 <= i < n :: s[i] != c
  {
    if s == [] || s[0] == c then 0 else 1 + Find(s[1..], c)
  }

  /** The index of the last occurrence, or -1. */
  function FindLast(s: string, c: char): (n: int)
    ensures -1 <= n < |s| && (n >= 0 ==> s[n] == c) && forall i | n < i < |s| :: s[i] != c
  {
    if s == [] then -1 else if s[|s| - 1] == c then |s| - 1 else FindLast(s[..|s| - 1], c)
  }

  function Addressed(ip: IpLibrary, candidate: string, expectsV6: bool): Parsed<string> {
    match ip(candidate)
    case None => None
    case Some(parsed) => if (parsed.version == 6) != expectsV6 then None else Some(parsed.text)
  }

  /** An IPv6 address in brackets, with an optional port. */
  function ParseBracketed(ip: IpLibrary, value: string): Parsed<string>
    requires value != [] && value[0] == '['
  {
    var closing := Find(value, ']');
    if closing == |value| then None
    else
      var candidate, suffix := value[1..closing], value[closing + 1..];
      if '%' in candidate then None
      else if suffix != [] && (suffix[0] != ':' || !ValidPort(suffix[1..])) then None
      else Addressed(ip, candidate, true)
  }

  /** An IPv4 address with a port after its only colon. */
  function ParsePorted(ip: IpLibrary, value: string): Parsed<string> {
    var colon := FindLast(value, ':');
    if colon < 0 || ':' in value[..colon] || !ValidPort(value[colon + 1..]) then None
    else Addressed(ip, value[..colon], false)
  }

  function ParseNode(ip: IpLibrary, value: string, quoted: bool): Parsed<string> {
    if Lower(value) == "unknown" || (value != [] && value[0] == '_') then None
    else if value != [] && value[0] == '[' then
      if !quoted then None else ParseBracketed(ip, value)
    else
      match ip(value)
      case Some(parsed) => if parsed.version != 4 then None else Some(parsed.text)
      case None => if !quoted then None else ParsePorted(ip, value)
  }

  /******* Pairs, elements and the chain *******/

  datatype ParsedPair = ParsedPair(name: string, value: string, quoted: bool)

  function ParsePair(parameter: string): Parsed<ParsedPair> {
    var eq := Find(parameter, '=');
    if eq == |parameter| then None
    else
      var name, raw := parameter[..eq], parameter[eq + 1..];
      if name != Strip(name) || raw != Strip(raw) || !IsToken(Lower(name)) || raw == [] then None
      else if raw[0] == '"' then
        var text := Unquote(raw);
        if text.None? then None else Some(ParsedPair(Lower(name), text.value, true))
      else if !IsToken(raw) then None
      else Some(ParsedPair(Lower(name), raw, false))
  }

  type PairReader = string -> Parsed<ParsedPair>

  type NodeReader = (string, bool) -> Parsed<string>

  /** The parameters of one element, given the names and the node found so far. */
  function ReadParameters(pairs: PairReader, nodes: NodeReader, parameters: seq<string>, seen: set<string>,
                          found: Option<string>): Parsed<string>
    decreases |parameters|
  {
    if parameters == [] then
      if found.None? then None else Some(found.value)
    else
      var pair := pairs(parameters[0]);
      if pair.None? then None
      else if pair.value.name in seen then None
      else if pair.value.name == "for" then
        var node := nodes(pair.value.value, pair.value.quoted);
        if node.None? then node else ReadParameters(pairs, nodes, parameters[1..], seen + {"for"}, Some(node.value))
      else ReadParameters(pairs, nodes, parameters[1..], seen + {pair.value.name}, found)
  }

  function NodesOf(ip: IpLibrary): NodeReader { (value, quoted) => ParseNode(ip, value, quoted) }

  function ParseElement(ip: IpLibrary, element: string): Parsed<string> {
    var parameters := Split(element, ';');
    if parameters.None? then None else ReadParameters(ParsePair, NodesOf(ip), parameters.value, {}, None)
  }

  /** Every element read, or None if one is malformed. */
  function ReadAll(read: string -> Parsed<string>, elements: seq<string>): Parsed<seq<string>>
    decreases |elements|
  {
    if elements == [] then Some([])
    else
      var hop := read(elements[0]);
      if hop.None? then None else Joined([hop.value], ReadAll(read, elements[1..]))
  }

  function ElementsOf(ip: IpLibrary): string -> Parsed<string> { element => ParseElement(ip, element) }

  function ParseChain(ip: IpLibrary, forwarded: string): Parsed<seq<string>> {
    var elements := Split(forwarded, ',');
    if elements.None? then elements else ReadAll(ElementsOf(ip), elements.value)
  }

  /** The loop over the parameters of one element. */
  method ParseForwardedElement(ip: IpLibrary, element: string) returns (hop: Parsed<string>)
    ensures hop == ParseElement(ip, element)
  {
    var parameters := SplitForwardedValue(element, ';');
    if parameters.None? {
      return None;
    }
    var found: Option<string>, seen: set<string> := None, {};
    var all := parameters.value;
    for n := 0 to |all|
      invariant ReadParameters(ParsePair, NodesOf(ip), all, {}, None) ==
                ReadParameters(ParsePair, NodesOf(ip), all[n..], seen, found)
    {
      assert all[n..][0] == all[n] && all[n..][1..] == all[n + 1..];
      var pair := ParsePair(all[n]);
      if pair.None? {
        return None;
      }
      if pair.value.name in seen {
        return None;
      }
      seen := seen + {pair.value.name};
      if pair.value.name == "for" {
        var node := ParseNode(ip, pair.value.value, pair.value.quoted);
        if node.None? {
          return None;
        }
        found := Some(node.value);
      }
    }
    assert all[|all|..] == [];
    if found.None? {
      return None;
    }
    hop := Some(found.value);
  }

  method ParseForwardedForChain(ip: IpLibrary, forwarded: string) returns (hops: Parsed<seq<string>>)
    ensures hops == ParseChain(ip, forwarded)
  {
    var elements := SplitForwardedValue(forwarded, ',');
    if elements.None? {
      return elements;
    }
    var all := elements.value;
    var found: seq<string> := [];
    assert all[0..] == all;
    JoinedNothing(ReadAll(ElementsOf(ip), all));
    for n := 0 to |all|
      invariant ReadAll(ElementsOf(ip), all) == Joined(found, ReadAll(ElementsOf(ip), all[n..]))
    {
      assert all[n..][0] == all[n] && all[n..][1..] == all[n + 1..];
      var hop := ParseForwardedElement(ip, all[n]);
      if hop.None? {
        return None;
      }
      JoinedMore(found, hop.value, ReadAll(ElementsOf(ip), all[n + 1..]));
      found := found + [hop.value];
    }
    assert all[|all|..] == [];
    JoinedEnd(found);
    hops := Some(found);
  }
}
