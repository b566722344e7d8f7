/** A printer for the Forwarded grammar, and the proof that parsing undoes it. */
module ForwardedProofs {
  import opened Basics
  import opened Text
  import opened Forwarded

  /******* Syntax trees and their text *******/

  /** A character of a quoted string, written after a backslash or not. */
  datatype QuotedChar = QuotedChar(c: char, escaped: bool)

  datatype Value = Token(text: string) | Quoted(chars: seq<QuotedChar>)

  /** A parameter with the white space around it. */
  datatype Param = Param(left: string, name: string, value: Value, right: string)

  /** An address with an optional port, section 6 of RFC 7239. */
  datatype Node = V4(address: string, port: Option<string>) | V6(address: string, port: Option<string>)

  /** An element; parameter `which` is its `for`, naming `node`. */
  datatype Element = Element(params: seq<Param>, which: nat, node: Node)

  function PrintChar(q: QuotedChar): string { if q.escaped then ['\\', q.c] else [q.c] }

  function PrintChars(chars: seq<QuotedChar>): string {
    if chars == [] then [] else PrintChar(chars[0]) + PrintChars(chars[1..])
  }

  function PrintValue(v: Value): string {
    match v
    case Token(text) => text
    case Quoted(chars) => ['"'] + PrintChars(chars) + ['"']
  }

  function PrintPair(p: Param): string { p.name + ['='] + PrintValue(p.value) }

  function PrintParam(p: Param): string { p.left + PrintPair(p) + p.right }

  function PrintParams(params: seq<Param>): (r: seq<string>)
    ensures |r| == |params| && forall i | 0 <= i < |params| :: r[i] == PrintParam(params[i])
  {
    seq(|params|, i requires 0 <= i < |params| => PrintParam(params[i]))
  }

  function PrintElement(e: Element): string { Join(PrintParams(e.params), ';') }

  function PrintElements(es: seq<Element>): (r: seq<string>)
    ensures |r| == |es| && forall i | 0 <= i < |es| :: r[i] == PrintElement(es[i])
  {
    seq(|es|, i requires 0 <= i < |es| => PrintElement(es[i]))
  }

  function Print(es: seq<Element>): string { Join(PrintElements(es), ',') }

  function Chars(chars: seq<QuotedChar>): (r: string)
    ensures |r| == |chars| && forall i | 0 <= i < |chars| :: r[i] == chars[i].c
  {
    seq(|chars|, i requires 0 <= i < |chars| => chars[i].c)
  }

  /** The text a value stands for. */
  function Meaning(v: Value): string {
    match v
    case Token(text) => text
    case Quoted(chars) => Chars(chars)
  }

  function PortText(port: Option<string>): string { if port.None? then [] else [':'] + port.value }

  function NodeText(n: Node): string {
    match n
    case V4(address, port) => address + PortText(port)
    case V6(address, port) => ['['] + address + [']'] + PortText(port)
  }

  /******* Well-formedness *******/

  predicate CharOk(q: QuotedChar) {
    IsQuotedChar(q.c, q.escaped) && (q.escaped || (q.c != '"' && q.c != '\\'))
  }

  predicate ValueOk(v: Value) {
    match v
    case Token(text) => IsToken(text)
    case Quoted(chars) => forall i | 0 <= i < |chars| :: CharOk(chars[i])
  }

  /** Section 4 of RFC 7239: a token, an equals sign, a token or quoted string; white space may surround the pair. */
  predicate ParamOk(p: Param) {
    Blank(p.left) && Blank(p.right) && IsToken(Lower(p.name)) && ValueOk(p.value)
  }

  predicate HexOrMark(c: char) { '0' <= c <= '9' || 'a' <= c <= 'f' || 'A' <= c <= 'F' || c == ':' || c == '.' }

  ghost predicate Versioned(ip: IpLibrary) {
    forall s :: ip(s).Some? ==> ip(s).value.version in {4, 6}
  }

  /** What the proofs rely on of `ipaddress`: its versions, and which characters addresses are made of. */
  ghost predicate Plausible(ip: IpLibrary) {
    && Versioned(ip)
    && (forall s :: ip(s).Some? && ip(s).value.version == 4 ==>
        s != [] && forall i | 0 <= i < |s| :: '0' <= s[i] <= '9' || s[i] == '.')
    && (forall s :: ip(s).Some? && ip(s).value.version == 6 ==>
        FindLast(s, ':') > 0 && ':' in s[..FindLast(s, ':')]
        && ('%' in s || forall i | 0 <= i < |s| :: HexOrMark(s[i])))
  }

  predicate NodeOk(ip: IpLibrary, n: Node) {
    && ip(n.address).Some? && ip(n.address).value.version == (if n.V4? then 4 else 6)
    && (n.V6? ==> '%' !in n.address)
    && (n.port.Some? ==> ValidPort(n.port.value))
  }

  function Canonical(ip: IpLibrary, n: Node): string {
    match ip(n.address)
    case None => []
    case Some(address) => address.text
  }

  predicate ElementOk(ip: IpLibrary, e: Element) {
    && e.which < |e.params|
    && (forall i | 0 <= i < |e.params| :: ParamOk(e.params[i]))
    && (forall i, j | 0 <= i < j < |e.params| :: Lower(e.params[i].name) != Lower(e.params[j].name))
    && Lower(e.params[e.which].name) == "for"
    && NodeOk(ip, e.node) && Meaning(e.params[e.which].value) == NodeText(e.node)
    && (e.params[e.which].value.Token? ==> e.node.V4? && e.node.port.None?)
  }

  predicate HeaderOk(ip: IpLibrary, es: seq<Element>) {
    es != [] && forall i | 0 <= i < |es| :: ElementOk(ip, es[i])
  }

  function Addresses(ip: IpLibrary, es: seq<Element>): (r: seq<string>)
    ensures |r| == |es| && forall i | 0 <= i < |es| :: r[i] == Canonical(ip, es[i].node)
  {
    seq(|es|, i requires 0 <= i < |es| => Canonical(ip, es[i].node))
  }

  /******* Scanning *******/

  function Scanned(st: Scan, text: string): Scan
    decreases |text|
  {
    if text == [] then st else Scanned(Next(st, text[0]), text[1..])
  }

  /** No delimiter of `text` lies outside its quoted strings. */
  predicate NoTop(st: Scan, text: string, delimiter: char)
    decreases |text|
  {
    text == [] || (!(st == CLEAN && text[0] == delimiter) && NoTop(Next(st, text[0]), text[1..], delimiter))
  }

  /** Quotes are balanced in `text` and it holds no top-level delimiter. */
  predicate Whole(text: string, delimiter: char) {
    Scanned(CLEAN, text) == CLEAN && NoTop(CLEAN, text, delimiter)
  }

  lemma {:induction false} ScanConcat(st: Scan, a: string, b: string, delimiter: char)
    ensures Scanned(st, a + b) == Scanned(Scanned(st, a), b)
    ensures NoTop(st, a + b, delimiter) <==> NoTop(st, a, delimiter) && NoTop(Scanned(st, a), b, delimiter)
    decreases |a|
  {
    if a == [] {
      assert a + b == b;
    } else {
      assert (a + b)[1..] == a[1..] + b;
      ScanConcat(Next(st, a[0]), a[1..], b, delimiter);
    }
  }

  /** Text without quotes and without the delimiter is whole. */
  lemma {:induction false} PlainWhole(text: string, delimiter: char)
    requires forall i | 0 <= i < |text| :: text[i] != '"' && text[i] != delimiter
    ensures Whole(text, delimiter)
    decreases |text|
  {
    if text == [] {
    } else {
      PlainWhole(text[1..], delimiter);
    }
  }

  lemma WholeConcat(a: string, b: string, delimiter: char)
    requires Whole(a, delimiter) && Whole(b, delimiter)
    ensures Whole(a + b, delimiter)
  {
    ScanConcat(CLEAN, a, b, delimiter);
  }

  lemma {:induction false} BodyScan(chars: seq<QuotedChar>, delimiter: char)
    requires forall i | 0 <= i < |chars| :: CharOk(chars[i])
    ensures Scanned(Scan(true, false), PrintChars(chars)) == Scan(true, false)
            && NoTop(Scan(true, false), PrintChars(chars), delimiter)
    decreases |chars|
  {
    if chars == [] {
    } else {
      BodyScan(chars[1..], delimiter);
      var c, rest := PrintChar(chars[0]), PrintChars(chars[1..]);
      assert c[1..] == if chars[0].escaped then [chars[0].c] else [];
      if chars[0].escaped {
        assert Next(Scan(true, false), '\\') == Scan(true, true);
        assert Scanned(Scan(true, true), [chars[0].c]) == Scan(true, false)
            && NoTop(Scan(true, true), [chars[0].c], delimiter);
      }
      ScanConcat(Scan(true, false), c, rest, delimiter);
    }
  }

  /** A name the parser accepts has no character of the surrounding grammar. */
  lemma NameChars(name: string)
    requires IsToken(Lower(name))
    ensures name != []
    ensures forall i | 0 <= i < |name| :: !IsSpace(name[i]) && name[i] !in {'"', '=', ',', ';', '\\'}
  {
    forall i | 0 <= i < |name|
      ensures !IsSpace(name[i]) && name[i] !in {'"', '=', ',', ';', '\\'}
    {
      assert IsTokenChar(Lower(name)[i]);
    }
  }

  lemma ValueWhole(v: Value, delimiter: char)
    requires ValueOk(v) && delimiter in {',', ';'}
    ensures Whole(PrintValue(v), delimiter)
  {
    match v
    case Token(text) => PlainWhole(text, delimiter);
    case Quoted(chars) =>
      BodyScan(chars, delimiter);
      var body := PrintChars(chars);
      ScanConcat(CLEAN, ['"'], body + ['"'], delimiter);
      ScanConcat(Scan(true, false), body, ['"'], delimiter);
      assert ['"'] + (body + ['"']) == PrintValue(v);
  }

  lemma ParamWhole(p: Param, delimiter: char)
    requires ParamOk(p) && delimiter in {',', ';'}
    ensures Whole(PrintParam(p), delimiter)
  {
    PlainWhole(p.left, delimiter);
    PlainWhole(p.right, delimiter);
    NameChars(p.name);
    PlainWhole(p.name + ['='], delimiter);
    ValueWhole(p.value, delimiter);
    WholeConcat(p.name + ['='], PrintValue(p.value), delimiter);
    WholeConcat(p.left, PrintPair(p), delimiter);
    WholeConcat(p.left + PrintPair(p), p.right, delimiter);
  }

  /** Text joined by semicolons stays whole for the comma split. */
  lemma {:induction false} JoinWhole(pieces: seq<string>, inner: char, outer: char)
    requires pieces != [] && inner != '"' && inner != outer && forall i | 0 <= i < |pieces| :: Whole(pieces[i], outer)
    ensures Whole(Join(pieces, inner), outer)
    decreases |pieces|
  {
    if |pieces| <= 1 {
    } else {
      JoinWhole(pieces[1..], inner, outer);
      PlainWhole([inner], outer);
      WholeConcat(pieces[0], [inner], outer);
      WholeConcat(pieces[0] + [inner], Join(pieces[1..], inner), outer);
    }
  }

  /******* Splitting undoes joining *******/

  lemma {:induction false} SplitPiece(current: string, st: Scan, piece: string, rest: string, delimiter: char)
    requires NoTop(st, piece, delimiter)
    ensures SplitFrom(current, st, piece + rest, delimiter) ==
            SplitFrom(current + piece, Scanned(st, piece), rest, delimiter)
    decreases |piece|
  {
    if piece == [] {
      assert piece + rest == rest && current + piece == current;
    } else {
      assert (piece + rest)[1..] == piece[1..] + rest;
      assert current + [piece[0]] + piece[1..] == current + piece;
      SplitPiece(current + [piece[0]], Next(st, piece[0]), piece[1..], rest, delimiter);
    }
  }

  function Stripped(pieces: seq<string>): (r: seq<string>)
    ensures |r| == |pieces| && forall i | 0 <= i < |pieces| :: r[i] == Strip(pieces[i])
  {
    seq(|pieces|, i requires 0 <= i < |pieces| => Strip(pieces[i]))
  }

  /** The first piece is split off at the first delimiter outside quotes. */
  lemma SplitFirst(piece: string, others: string, delimiter: char)
    requires Whole(piece, delimiter) && Strip(piece) != []
    ensures Split(piece + [delimiter] + others, delimiter) == Joined([Strip(piece)], Split(others, delimiter))
  {
    SplitPiece([], CLEAN, piece, [delimiter] + others, delimiter);
    assert piece + ([delimiter] + others) == piece + [delimiter] + others;
    assert [] + piece == piece && ([delimiter] + others)[1..] == others;
  }

  lemma SplitOnly(piece: string, delimiter: char)
    requires Whole(piece, delimiter) && Strip(piece) != []
    ensures Split(piece, delimiter) == Some([Strip(piece)])
  {
    SplitPiece([], CLEAN, piece, [], delimiter);
    assert [] + piece == piece && piece + [] == piece;
  }

  /** The outer and the inner split both undo a join of whole, non-blank pieces. */
  lemma {:induction false} SplitJoin(pieces: seq<string>, delimiter: char)
    requires pieces != [] && forall i | 0 <= i < |pieces| :: Whole(pieces[i], delimiter) && Strip(pieces[i]) != []
    ensures Split(Join(pieces, delimiter), delimiter) == Some(Stripped(pieces))
    decreases |pieces|
  {
    if |pieces| == 1 {
      SplitOnly(pieces[0], delimiter);
      assert Stripped(pieces) == [Strip(pieces[0])];
    } else {
      SplitJoin(pieces[1..], delimiter);
      SplitFirst(pieces[0], Join(pieces[1..], delimiter), delimiter);
      assert Stripped(pieces) == [Strip(pieces[0])] + Stripped(pieces[1..]);
    }
  }

  /******* Stripping a joined element *******/

  lemma {:induction false} JoinEnds(pieces: seq<string>, delimiter: char)
    requires pieces != [] && forall i | 0 <= i < |pieces| :: pieces[i] != []
    ensures Join(pieces, delimiter) != []
    ensures Join(pieces, delimiter)[0] == pieces[0][0]
    ensures Last(Join(pieces, delimiter)) == Last(pieces[|pieces| - 1])
    decreases |pieces|
  {
    if |pieces| <= 1 {
    } else {
      JoinEnds(pieces[1..], delimiter);
    }
  }

  function Last(s: string): char
    requires s != []
  {
    s[|s| - 1]
  }

  lemma {:induction false} JoinPadLast(pieces: seq<string>, bare: string, right: string, delimiter: char)
    ensures Join(pieces + [bare + right], delimiter) == Join(pieces + [bare], delimiter) + right
    decreases |pieces|
  {
    if pieces == [] {
      assert pieces + [bare + right] == [bare + right] && pieces + [bare] == [bare];
    } else {
      JoinPadLast(pieces[1..], bare, right, delimiter);
      var padded, plain := pieces + [bare + right], pieces + [bare];
      assert padded[1..] == pieces[1..] + [bare + right] && plain[1..] == pieces[1..] + [bare];
      var head := pieces[0] + [delimiter];
      assert head + (Join(plain[1..], delimiter) + right) == head + Join(plain[1..], delimiter) + right;
    }
  }

  lemma JoinPadFirst(left: string, bare: string, pieces: seq<string>, delimiter: char)
    ensures Join([left + bare] + pieces, delimiter) == left + Join([bare] + pieces, delimiter)
  {
    var padded, plain := [left + bare] + pieces, [bare] + pieces;
    assert padded[1..] == pieces && plain[1..] == pieces;
    if pieces != [] {
      assert left + bare + [delimiter] + Join(pieces, delimiter) ==
          left + (bare + [delimiter] + Join(pieces, delimiter));
    }
  }

  /** The parameters without the white space before the first. */
  function DropLeft(params: seq<Param>): seq<Param>
    requires params != []
  {
    params[0 := params[0].(left := [])]
  }

  /** The parameters without the white space after the last. */
  function DropRight(params: seq<Param>): seq<Param>
    requires params != []
  {
    params[|params| - 1 := params[|params| - 1].(right := [])]
  }

  lemma DropLeftPrint(params: seq<Param>)
    requires params != []
    ensures Join(PrintParams(params), ';') == params[0].left + Join(PrintParams(DropLeft(params)), ';')
  {
    var bare := PrintPair(params[0]) + params[0].right;
    var tail := PrintParams(params)[1..];
    assert PrintParam(params[0]) == params[0].left + bare;
    assert PrintParams(params) == [params[0].left + bare] + tail;
    assert PrintParam(DropLeft(params)[0]) == bare;
    assert PrintParams(DropLeft(params)) == [bare] + tail;
    JoinPadFirst(params[0].left, bare, tail, ';');
  }

  lemma DropRightPrint(params: seq<Param>)
    requires params != []
    ensures Join(PrintParams(params), ';') == Join(PrintParams(DropRight(params)), ';') + params[|params| - 1].right
  {
    var p := params[|params| - 1];
    var bare := p.left + PrintPair(p);
    var front := PrintParams(params)[..|params| - 1];
    assert PrintParams(params) == front + [bare + p.right];
    assert PrintParam(p.(right := [])) == bare;
    assert PrintParams(DropRight(params)) == front + [bare];
    JoinPadLast(front, bare, p.right, ';');
  }

  /** A pair has no white space at its ends. */
  lemma PairTrimmed(p: Param)
    requires ParamOk(p)
    ensures PrintPair(p) != [] && Trimmed(PrintPair(p)) && Strip(PrintParam(p)) == PrintPair(p)
  {
    NameChars(p.name);
    var s := PrintPair(p);
    assert s[0] == p.name[0];
    match p.value {
      case Token(text) => assert Last(s) == Last(text) && IsTokenChar(Last(text));
      case Quoted(chars) => assert Last(s) == '"';
    }
    StripPadded(p.left, s, p.right);
  }

  predicate ParamsOk(params: seq<Param>) {
    params != [] && forall i | 0 <= i < |params| :: ParamOk(params[i])
  }

  lemma ParamEnds(p: Param)
    requires ParamOk(p)
    ensures PrintParam(p) != []
    ensures p.left == [] ==> !IsSpace(PrintParam(p)[0])
    ensures p.right == [] ==> !IsSpace(Last(PrintParam(p)))
  {
    PairTrimmed(p);
    if p.left == [] {
      assert PrintParam(p)[0] == PrintPair(p)[0];
    }
    if p.right == [] {
      assert Last(PrintParam(p)) == Last(PrintPair(p));
    }
  }

  lemma BareTrimmed(params: seq<Param>)
    requires ParamsOk(params) && params[0].left == [] && params[|params| - 1].right == []
    ensures Join(PrintParams(params), ';') != [] && Trimmed(Join(PrintParams(params), ';'))
  {
    var pieces := PrintParams(params);
    forall i | 0 <= i < |params|
      ensures pieces[i] != []
    {
      ParamEnds(params[i]);
    }
    JoinEnds(pieces, ';');
    ParamEnds(params[0]);
    ParamEnds(params[|params| - 1]);
  }

  lemma DropOk(params: seq<Param>)
    requires ParamsOk(params)
    ensures ParamsOk(DropRight(DropLeft(params)))
    ensures Pairs(DropRight(DropLeft(params))) == Pairs(params)
  {
    var tidy := DropRight(DropLeft(params));
    forall i | 0 <= i < |params|
      ensures ParamOk(tidy[i]) && PrintPair(tidy[i]) == PrintPair(params[i])
    {
      assert ParamOk(params[i]);
    }
  }

  lemma StripBoth(text: string, left: string, core: string, right: string)
    requires text == left + (core + right) && Blank(left) && Blank(right) && core != [] && Trimmed(core)
    ensures Strip(text) == core
  {
    assert text == left + core + right;
    StripPadded(left, core, right);
  }

  /** Stripping an element takes the white space off its first and last parameter. */
  lemma StripElement(params: seq<Param>)
    requires ParamsOk(params)
    ensures Strip(Join(PrintParams(params), ';')) == Join(PrintParams(DropRight(DropLeft(params))), ';') != []
  {
    var tidy := DropRight(DropLeft(params));
    DropLeftPrint(params);
    DropRightPrint(DropLeft(params));
    DropOk(params);
    BareTrimmed(tidy);
    var left, core, right := params[0].left, Join(PrintParams(tidy), ';'), params[|params| - 1].right;
    StripBoth(Join(PrintParams(params), ';'), left, core, right);
  }

  function Pairs(params: seq<Param>): (r: seq<string>)
    ensures |r| == |params| && forall i | 0 <= i < |params| :: r[i] == PrintPair(params[i])
  {
    seq(|params|, i requires 0 <= i < |params| => PrintPair(params[i]))
  }

  lemma SplitParams(params: seq<Param>)
    requires ParamsOk(params)
    ensures Split(Join(PrintParams(params), ';'), ';') == Some(Pairs(params))
  {
    var pieces := PrintParams(params);
    forall i | 0 <= i < |pieces|
      ensures Whole(pieces[i], ';') && Strip(pieces[i]) == PrintPair(params[i]) != []
    {
      ParamWhole(params[i], ';');
      PairTrimmed(params[i]);
    }
    SplitJoin(pieces, ';');
    assert Stripped(pieces) == Pairs(params);
  }

  /** The inner split of an element the outer split has stripped yields its bare pairs. */
  lemma SplitStrippedElement(params: seq<Param>)
    requires ParamsOk(params)
    ensures Split(Strip(Join(PrintParams(params), ';')), ';') == Some(Pairs(params))
  {
    StripElement(params);
    var tidy := DropRight(DropLeft(params));
    DropOk(params);
    SplitParams(tidy);
  }

  /******* Unquoting undoes quoting *******/

  /** Section 3.2.6 of RFC 7230: unescaping yields what was quoted, whichever characters were escaped. */
  lemma {:induction false} UnescapeUndoes(chars: seq<QuotedChar>)
    requires forall i | 0 <= i < |chars| :: CharOk(chars[i])
    ensures Unescape(PrintChars(chars), false) == Some(Chars(chars))
    decreases |chars|
  {
    if chars == [] {
    } else {
      UnescapeUndoes(chars[1..]);
      var q, text := chars[0], PrintChars(chars);
      assert Chars(chars) == [q.c] + Chars(chars[1..]);
      if q.escaped {
        assert text[0] == '\\' && text[1] == q.c && text[1..][1..] == PrintChars(chars[1..]);
      } else {
        assert text[0] == q.c && text[1..] == PrintChars(chars[1..]);
      }
    }
  }

  lemma UnquoteUndoes(v: Value)
    requires v.Quoted? && ValueOk(v)
    ensures Unquote(PrintValue(v)) == Some(Meaning(v))
  {
    var s := PrintValue(v);
    StripTrimmed(s);
    assert s[1..|s| - 1] == PrintChars(v.chars);
    UnescapeUndoes(v.chars);
  }

  lemma FindAt(s: string, c: char, n: nat)
    requires n < |s| && s[n] == c && forall i | 0 <= i < n :: s[i] != c
    ensures Find(s, c) == n
  {
  }

  lemma ValueUndoes(v: Value)
    requires ValueOk(v)
    ensures PrintValue(v) != [] && Strip(PrintValue(v)) == PrintValue(v)
    ensures PrintValue(v)[0] == '"' <==> v.Quoted?
  {
    match v
    case Token(text) =>
      assert IsTokenChar(text[0]) && IsTokenChar(Last(text));
      StripTrimmed(text);
    case Quoted(chars) =>
      StripTrimmed(PrintValue(v));
  }

  /** Parsing a printed pair returns its lower-case name and the text its value stands for. */
  lemma PairUndoes(p: Param)
    requires ParamOk(p)
    ensures ParsePair(PrintPair(p)) == Some(ParsedPair(Lower(p.name), Meaning(p.value), p.value.Quoted?))
  {
    NameChars(p.name);
    var s := PrintPair(p);
    FindAt(s, '=', |p.name|);
    assert s[..|p.name|] == p.name && s[|p.name| + 1..] == PrintValue(p.value);
    StripTrimmed(p.name);
    ValueUndoes(p.value);
    if p.value.Quoted? {
      UnquoteUndoes(p.value);
    }
  }

  /******* Nodes *******/

  lemma FindLastAt(s: string, c: char, n: nat)
    requires n < |s| && s[n] == c && forall i | n < i < |s| :: s[i] != c
    ensures FindLast(s, c) == n
  {
  }

  lemma LastColon(t: string, n: nat, port: string)
    requires n < |t| && t[n] == ':' && t[n + 1..] == port && ':' !in port
    ensures FindLast(t, ':') == n
  {
    forall i | n < i < |t|
      ensures t[i] != ':'
    {
      assert t[i] == port[i - n - 1];
    }
    FindLastAt(t, ':', n);
  }

  lemma NotUnknown(text: string)
    requires text != [] && (text[0] == '[' || '0' <= text[0] <= '9' || text[0] == '.')
    ensures Lower(text) != "unknown"
  {
    assert Lower(text)[0] == text[0];
  }

  lemma V4Plain(ip: IpLibrary, n: Node, quoted: bool)
    requires Plausible(ip) && NodeOk(ip, n) && n.V4? && n.port.None?
    ensures ParseNode(ip, NodeText(n), quoted) == Some(Canonical(ip, n))
  {
    assert NodeText(n) == n.address;
    NotUnknown(n.address);
  }

  lemma PortedUndoes(ip: IpLibrary, address: string, port: string, text: string)
    requires ':' !in address && ValidPort(port) && text == address + [':'] + port
    ensures ParsePorted(ip, text) == Addressed(ip, address, false)
    ensures FindLast(text, ':') == |address| && text[..|address|] == address
  {
    assert text[..|address|] == address && text[|address|] == ':' && text[|address| + 1..] == port;
    LastColon(text, |address|, port);
  }

  /** An address and a port with one colon between them is no address. */
  lemma PortedIsNoAddress(ip: IpLibrary, text: string)
    requires Plausible(ip) && FindLast(text, ':') >= 0 && ':' !in text[..FindLast(text, ':')]
    ensures ip(text).None?
  {
    assert text[FindLast(text, ':')] == ':';
  }

  lemma PortedNode(ip: IpLibrary, text: string)
    requires text != [] && ('0' <= text[0] <= '9' || text[0] == '.') && ip(text).None?
    ensures ParseNode(ip, text, true) == ParsePorted(ip, text)
  {
    NotUnknown(text);
  }

  lemma V4Port(ip: IpLibrary, n: Node)
    requires Plausible(ip) && NodeOk(ip, n) && n.V4? && n.port.Some?
    ensures ParseNode(ip, NodeText(n), true) == Some(Canonical(ip, n))
  {
    var text := NodeText(n);
    assert text == n.address + [':'] + n.port.value;
    assert text[0] == n.address[0];
    PortedUndoes(ip, n.address, n.port.value, text);
    PortedIsNoAddress(ip, text);
    PortedNode(ip, text);
  }

  /** The first closing bracket of a printed IPv6 node is the one after the address. */
  lemma V6Text(address: string, port: Option<string>, text: string)
    requires ']' !in address && text == ['['] + address + [']'] + PortText(port)
    ensures Find(text, ']') == |address| + 1 && text[1..|address| + 1] == address
            && text[|address| + 2..] == PortText(port)
  {
    forall i | 0 <= i < |address| + 1
      ensures text[i] != ']'
    {
      if i > 0 {
        assert text[i] == address[i - 1];
      }
    }
    FindAt(text, ']', |address| + 1);
  }

  lemma V6Undoes(ip: IpLibrary, n: Node)
    requires NodeOk(ip, n) && n.V6? && ']' !in n.address
    ensures ParseNode(ip, NodeText(n), true) == Some(Canonical(ip, n))
  {
    var text := NodeText(n);
    V6Text(n.address, n.port, text);
    if n.port.Some? {
      assert PortText(n.port)[1..] == n.port.value;
    }
    assert text[0] == '[';
    NotUnknown(text);
  }

  lemma V6NoBracket(ip: IpLibrary, address: string)
    requires Plausible(ip) && ip(address).Some? && ip(address).value.version == 6 && '%' !in address
    ensures ']' !in address
  {
    assert forall i | 0 <= i < |address| :: HexOrMark(address[i]);
  }

  /******* Elements and the whole header *******/

  lemma NodeUndoes(ip: IpLibrary, e: Element)
    requires Plausible(ip) && ElementOk(ip, e)
    ensures ParseNode(ip, Meaning(e.params[e.which].value), e.params[e.which].value.Quoted?) ==
            Some(Canonical(ip, e.node))
  {
    if e.node.V4? {
      if e.node.port.None? {
        V4Plain(ip, e.node, e.params[e.which].value.Quoted?);
      } else {
        V4Port(ip, e.node);
      }
    } else {
      V6NoBracket(ip, e.node.address);
      V6Undoes(ip, e.node);
    }
  }

  /** Reading well-formed parameters one by one: distinct names, exactly one of them `for`. */
  ghost predicate Reads(pairs: PairReader, nodes: NodeReader, texts: seq<string>, names: seq<string>, which: nat,
                        hop: string) {
    && which < |names| == |texts| && names[which] == "for"
    && (forall i, j | 0 <= i < j < |names| :: names[i] != names[j])
    && (forall i | 0 <= i < |texts| :: pairs(texts[i]).Some? && pairs(texts[i]).value.name == names[i])
    && nodes(pairs(texts[which]).value.value, pairs(texts[which]).value.quoted) == Some(hop)
  }

  function First(names: seq<string>, n: nat): set<string>
    requires n <= |names|
  {
    set i | 0 <= i < n :: names[i]
  }

  lemma {:induction false} ParamsUndo(pairs: PairReader, nodes: NodeReader, texts: seq<string>, names: seq<string>,
                                      which: nat, hop: string, n: nat)
    requires Reads(pairs, nodes, texts, names, which, hop) && n <= |texts|
    ensures ReadParameters(pairs, nodes, texts[n..], First(names, n), if n <= which then None else Some(hop)) ==
            Some(hop)
    decreases |texts| - n
  {
    if n >= |texts| {
    } else {
      ParamsUndo(pairs, nodes, texts, names, which, hop, n + 1);
      assert texts[n..][0] == texts[n] && texts[n..][1..] == texts[n + 1..];
      assert First(names, n + 1) == First(names, n) + {names[n]};
      assert names[n] !in First(names, n);
      assert names[n] == "for" <==> n == which;
    }
  }

  function Names(params: seq<Param>): (r: seq<string>)
    ensures |r| == |params| && forall i | 0 <= i < |params| :: r[i] == Lower(params[i].name)
  {
    seq(|params|, i requires 0 <= i < |params| => Lower(params[i].name))
  }

  lemma ElementReads(ip: IpLibrary, e: Element)
    requires Plausible(ip) && ElementOk(ip, e)
    ensures Reads(ParsePair, NodesOf(ip), Pairs(e.params), Names(e.params), e.which, Canonical(ip, e.node))
  {
    forall i | 0 <= i < |e.params|
      ensures ParsePair(Pairs(e.params)[i]).Some? && ParsePair(Pairs(e.params)[i]).value.name == Names(e.params)[i]
    {
      PairUndoes(e.params[i]);
    }
    PairUndoes(e.params[e.which]);
    NodeUndoes(ip, e);
  }

  lemma ElementUndoes(ip: IpLibrary, e: Element)
    requires Plausible(ip) && ElementOk(ip, e)
    ensures ParseElement(ip, Strip(PrintElement(e))) == Some(Canonical(ip, e.node))
  {
    assert ParamsOk(e.params);
    SplitStrippedElement(e.params);
    ElementReads(ip, e);
    ParamsUndo(ParsePair, NodesOf(ip), Pairs(e.params), Names(e.params), e.which, Canonical(ip, e.node), 0);
    assert Pairs(e.params)[0..] == Pairs(e.params) && First(Names(e.params), 0) == {};
  }

  lemma ElementPiece(ip: IpLibrary, e: Element)
    requires ElementOk(ip, e)
    ensures Whole(PrintElement(e), ',') && Strip(PrintElement(e)) != []
  {
    assert ParamsOk(e.params);
    StripElement(e.params);
    var pieces := PrintParams(e.params);
    forall i | 0 <= i < |pieces|
      ensures Whole(pieces[i], ',')
    {
      ParamWhole(e.params[i], ',');
    }
    JoinWhole(pieces, ';', ',');
  }

  lemma {:induction false} ElementsUndo(read: string -> Parsed<string>, elements: seq<string>, hops: seq<string>)
    requires |elements| == |hops| && forall i | 0 <= i < |elements| :: read(elements[i]) == Some(hops[i])
    ensures ReadAll(read, elements) == Some(hops)
    decreases |elements|
  {
    if elements == [] {
    } else {
      ElementsUndo(read, elements[1..], hops[1..]);
      assert hops == [hops[0]] + hops[1..];
    }
  }

  /** Parsing undoes printing: every well-formed header yields exactly its addresses, in order. */
  lemma RoundTrip(ip: IpLibrary, es: seq<Element>)
    requires Plausible(ip) && HeaderOk(ip, es)
    ensures ParseChain(ip, Print(es)) == Some(Addresses(ip, es))
  {
    var pieces := PrintElements(es);
    forall i | 0 <= i < |pieces|
      ensures Whole(pieces[i], ',') && Strip(pieces[i]) != []
    {
      ElementPiece(ip, es[i]);
    }
    SplitJoin(pieces, ',');
    forall i | 0 <= i < |es|
      ensures ElementsOf(ip)(Stripped(pieces)[i]) == Some(Addresses(ip, es)[i])
    {
      ElementUndoes(ip, es[i]);
    }
    ElementsUndo(ElementsOf(ip), Stripped(pieces), Addresses(ip, es));
  }
}
