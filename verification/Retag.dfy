/** Provider retagging of Codex session files, app/codex_sessions_retag.py. */
module Retag {
  import opened Basics
  import opened Text

  /** A decoded JSON value; numbers, booleans, null and lists are only told apart by a tag. */
  datatype Json = Str(text: string) | Obj(fields: map<string, Json>) | Other(tag: int)

  type Fields = map<string, Json>

  /** A line of a session file and what `json.loads` makes of it; blank and malformed lines decode to nothing. */
  datatype Line = Line(text: string, json: Option<Json>)

  /**
   A state database: no threads table, one without the provider column, or one value per row (None if not a string).
   */
  datatype Db = NoThreads | NoColumn | Threads(rows: seq<Option<string>>)

  function Get(fields: Fields, key: string): Json { if key in fields then fields[key] else Other(0) }

  /** The payload object a session_meta record carries. */
  function Meta(fields: Fields): Option<Fields> {
    var payload := Get(fields, "payload");
    if Get(fields, "type") == Str("session_meta") && payload.Obj? then Some(payload.fields) else None
  }

  /******* The reader's and the writer's rules *******/

  /** `_jsonl_record_provider`: a top-level string wins, whatever the payload says. */
  function Provider(fields: Fields): Option<string> {
    var top := Get(fields, "model_provider");
    if top.Str? then Some(top.text)
    else
      var meta := Meta(fields);
      if meta.None? then None
      else
        var inner := Get(meta.value, "model_provider");
        if inner.Str? then Some(inner.text) else None
  }

  predicate TopTagged(fields: Fields, source: string) { Get(fields, "model_provider") == Str(source) }

  predicate PayloadTagged(fields: Fields, source: string) {
    Meta(fields).Some? && Get(Meta(fields).value, "model_provider") == Str(source)
  }

  /** `_retag_jsonl_record_provider`: the top-level tag if it matches, otherwise the payload's if that matches. */
  function Rewritten(fields: Fields, source: string, target: string): Fields {
    if TopTagged(fields, source) then fields["model_provider" := Str(target)]
    else if PayloadTagged(fields, source)
        then fields["payload" := Obj(Meta(fields).value["model_provider" := Str(target)])]
    else fields
  }

  predicate Matches(fields: Fields, source: string) { TopTagged(fields, source) || PayloadTagged(fields, source) }

  /** Although the writer looks at tags the reader ignores, it moves exactly the records the reader counts as source. */
  lemma RewriteMovesProvider(fields: Fields, source: string, target: string)
    ensures Provider(Rewritten(fields, source, target)) == if Provider(fields) == Some(source) then Some(target)
            else Provider(fields)
    ensures Provider(fields) == Some(source) ==> Matches(fields, source)
  {
    var r := Rewritten(fields, source, target);
    assert "model_provider" != "payload" && "model_provider" != "type" && "payload" != "type" by {
      assert |"model_provider"| != |"payload"| && |"payload"| != |"type"|;
    }
    assert Meta(r) == if TopTagged(fields, source) then Meta(fields)
                      else if PayloadTagged(fields, source)
                          then Some(Meta(fields).value["model_provider" := Str(target)])
                      else Meta(fields);
  }

  /**
   The writer touches a record the reader does not count exactly when a different top-level string hides a payload tag.
   */
  lemma HiddenMatch(fields: Fields, source: string)
    ensures Matches(fields, source) && Provider(fields) != Some(source) <==>
            Get(fields, "model_provider").Str? && !TopTagged(fields, source) && PayloadTagged(fields, source)
  {
  }

  /** `fields` maps `key` to the string `text`. */
  predicate Says(fields: Fields, key: string, text: string) { key in fields && fields[key] == Str(text) }

  /** The record is a session_meta whose payload object maps "model_provider" to the string `text`. */
  predicate PayloadSays(fields: Fields, text: string) {
    && Says(fields, "type", "session_meta")
    && "payload" in fields && fields["payload"].Obj? && Says(fields["payload"].fields, "model_provider", text)
  }

  /** Which provider the reader sees: a top-level string, or else the payload's of a session_meta record only. */
  lemma ProviderExactly(fields: Fields, p: string)
    ensures Provider(fields) == Some(p) <==>
              || Says(fields, "model_provider", p)
              || (!("model_provider" in fields && fields["model_provider"].Str?) && PayloadSays(fields, p))
  {
  }

  /**
   Which key the writer changes and to what: the top-level tag, or else the payload's of a session_meta record only.
   */
  lemma RewrittenExactly(fields: Fields, source: string, target: string)
    ensures var r := Rewritten(fields, source, target);
            && r.Keys == fields.Keys
            && (forall k | k in fields && k != "model_provider" && k != "payload" :: r[k] == fields[k])
            && ("model_provider" in fields ==>
                  r["model_provider"] == if Says(fields, "model_provider", source) then Str(target)
                      else fields["model_provider"])
            && ("payload" in fields ==>
                  r["payload"] ==
                    if !Says(fields, "model_provider", source) && PayloadSays(fields, source)
                    then Obj(fields["payload"].fields["model_provider" := Str(target)])
                    else fields["payload"])
  {
    assert |"model_provider"| == 14 && |"payload"| == 7 && |"type"| == 4;
  }

  /** A record that is no session_meta and has no top-level source tag is returned as it is. */
  lemma OtherRecordsUntouched(fields: Fields, source: string, target: string)
    requires !Says(fields, "model_provider", source) && !Says(fields, "type", "session_meta")
    ensures Rewritten(fields, source, target) == fields
  {
  }

  /** Rewriting twice differs from rewriting once exactly when both tags name the source. */
  lemma RewriteTwice(fields: Fields, source: string, target: string)
    requires source != target
    ensures Rewritten(Rewritten(fields, source, target), source, target) != Rewritten(fields, source, target) <==>
            TopTagged(fields, source) && PayloadTagged(fields, source)
  {
    var once := Rewritten(fields, source, target);
    assert |"model_provider"| == 14 && |"payload"| == 7 && |"type"| == 4;
    if TopTagged(fields, source) {
      assert Meta(once) == Meta(fields);
      assert PayloadTagged(fields, source) ==>
          Get(Get(Rewritten(once, source, target), "payload").fields, "model_provider") == Str(target);
    } else if PayloadTagged(fields, source) {
      assert Meta(once) == Some(Meta(fields).value["model_provider" := Str(target)]);
    }
  }

  /** Such a record: the first rewrite takes the top-level tag, the second the payload's. */
  lemma TwoTagsNeedTwoRewrites()
    ensures var tag := Str("openai");
            var record: Fields :=
                map["type" := Str("session_meta"), "model_provider" := tag,
                "payload" := Obj(map["model_provider" := tag])];
            var once := Rewritten(record, "openai", "openhub");
            Rewritten(once, "openai", "openhub") != once
  {
    assert |"model_provider"| == 14 && |"payload"| == 7 && |"type"| == 4;
    assert "openai" != "openhub" by {
      assert |"openai"| == 6 && |"openhub"| == 7;
    }
    var tag := Str("openai");
    RewriteTwice(map["type" := Str("session_meta"), "model_provider" := tag,
        "payload" := Obj(map["model_provider" := tag])], "openai", "openhub");
  }

  /******* Files and databases *******/

  function LineProvider(line: Line): Option<string> {
    if line.json.Some? && line.json.value.Obj? then Provider(line.json.value.fields) else None
  }

  predicate LineMatches(line: Line, source: string) {
    line.json.Some? && line.json.value.Obj? && Matches(line.json.value.fields, source)
  }

  function RetagLine(line: Line, source: string, target: string, dumps: Fields -> string): Line {
    if LineMatches(line, source) then
      var fields := Rewritten(line.json.value.fields, source, target);
      Line(dumps(fields) + "\n", Some(Obj(fields)))
    else line
  }

  function RetagLines(lines: seq<Line>, source: string, target: string, dumps: Fields -> string): (r: seq<Line>)
    ensures |r| == |lines|
    ensures forall i | 0 <= i < |lines| :: r[i] == RetagLine(lines[i], source, target, dumps)
  {
    if lines == [] then []
    else
      var last := |lines| - 1;
      RetagLines(lines[..last], source, target, dumps) + [RetagLine(lines[last], source, target, dumps)]
  }

  /** How often a provider occurs among the values a reader sees. */
  function Occurrences(values: seq<Option<string>>, p: string): nat {
    if values == [] then 0
    else Occurrences(values[..|values| - 1], p) + if values[|values| - 1] == Some(p) then 1 else 0
  }

  function LineProviders(lines: seq<Line>): (r: seq<Option<string>>)
    ensures |r| == |lines| && forall i | 0 <= i < |lines| :: r[i] == LineProvider(lines[i])
  {
    seq(|lines|, i requires 0 <= i < |lines| => LineProvider(lines[i]))
  }

  function DbProviders(db: Db): seq<Option<string>> { if db.Threads? then db.rows else [] }

  /** A column of provider values with the source renamed to the target. */
  function Moved(values: seq<Option<string>>, source: string, target: string): (r: seq<Option<string>>)
    ensures |r| == |values|
    ensures forall i | 0 <= i < |values| :: r[i] == if values[i] == Some(source) then Some(target) else values[i]
  {
    seq(|values|, i requires 0 <= i < |values| => if values[i] == Some(source) then Some(target) else values[i])
  }

  function RetagDb(db: Db, source: string, target: string): Db {
    if db.Threads? then Threads(Moved(db.rows, source, target)) else db
  }

  /** Only a file in which the reader finds the source is rewritten. */
  function RetagFile(lines: seq<Line>, source: string, target: string, dumps: Fields -> string): seq<Line> {
    if Some(source) in LineProviders(lines) then RetagLines(lines, source, target, dumps) else lines
  }

  lemma {:induction false} OccurrencesMoved(values: seq<Option<string>>, source: string, target: string, p: string)
    requires source != target
    ensures Occurrences(Moved(values, source, target), p) ==
            if p == source then 0
            else if p == target then Occurrences(values, target) + Occurrences(values, source)
            else Occurrences(values, p)
    decreases |values|
  {
    if values == [] {
    } else {
      var front := values[..|values| - 1];
      OccurrencesMoved(front, source, target, p);
      assert Moved(values, source, target)[..|values| - 1] == Moved(front, source, target);
    }
  }

  lemma {:induction false} OccurrencesZero(values: seq<Option<string>>, p: string)
    ensures Occurrences(values, p) == 0 <==> Some(p) !in values
    decreases |values|
  {
    if values == [] {
    } else {
      OccurrencesZero(values[..|values| - 1], p);
      assert values == values[..|values| - 1] + [values[|values| - 1]];
    }
  }

  /** The providers the reader sees after a file was handled are the old ones with the source renamed. */
  lemma FileMoves(lines: seq<Line>, source: string, target: string, dumps: Fields -> string)
    ensures LineProviders(RetagFile(lines, source, target, dumps)) == Moved(LineProviders(lines), source, target)
  {
    var lines' := RetagFile(lines, source, target, dumps);
    forall i | 0 <= i < |lines| ensures LineProvider(lines'[i]) == Moved(LineProviders(lines), source, target)[i] {
      assert LineProviders(lines)[i] == LineProvider(lines[i]);
      if lines[i].json.Some? && lines[i].json.value.Obj? {
        RewriteMovesProvider(lines[i].json.value.fields, source, target);
      }
    }
  }

  /******* A whole Codex home *******/

  function RetagFiles(files: seq<seq<Line>>, source: string, target: string,
                      dumps: Fields -> string): (r: seq<seq<Line>>)
    ensures |r| == |files| && forall i | 0 <= i < |files| :: r[i] == RetagFile(files[i], source, target, dumps)
  {
    seq(|files|, i requires 0 <= i < |files| => RetagFile(files[i], source, target, dumps))
  }

  function RetagDbs(dbs: seq<Db>, source: string, target: string): (r: seq<Db>)
    ensures |r| == |dbs| && forall i | 0 <= i < |dbs| :: r[i] == RetagDb(dbs[i], source, target)
  {
    seq(|dbs|, i requires 0 <= i < |dbs| => RetagDb(dbs[i], source, target))
  }

  function FilesColumn(files: seq<seq<Line>>): seq<Option<string>> {
    if files == [] then [] else FilesColumn(files[..|files| - 1]) + LineProviders(files[|files| - 1])
  }

  function DbsColumn(dbs: seq<Db>): seq<Option<string>> {
    if dbs == [] then [] else DbsColumn(dbs[..|dbs| - 1]) + DbProviders(dbs[|dbs| - 1])
  }

  /** Every provider value the reader sees, files first. */
  function Column(files: seq<seq<Line>>, dbs: seq<Db>): seq<Option<string>> { FilesColumn(files) + DbsColumn(dbs) }

  lemma MovedConcat(a: seq<Option<string>>, b: seq<Option<string>>, source: string, target: string)
    ensures Moved(a + b, source, target) == Moved(a, source, target) + Moved(b, source, target)
  {
  }

  lemma {:induction false} FilesColumnMoves(files: seq<seq<Line>>, source: string, target: string,
                                            dumps: Fields -> string)
    ensures FilesColumn(RetagFiles(files, source, target, dumps)) == Moved(FilesColumn(files), source, target)
    decreases |files|
  {
    if files == [] {
    } else {
      var front, last := files[..|files| - 1], files[|files| - 1];
      FilesColumnMoves(front, source, target, dumps);
      FileMoves(last, source, target, dumps);
      MovedConcat(FilesColumn(front), LineProviders(last), source, target);
      assert RetagFiles(files, source, target, dumps)[..|files| - 1] == RetagFiles(front, source, target, dumps);
    }
  }

  lemma {:induction false} DbsColumnMoves(dbs: seq<Db>, source: string, target: string)
    ensures DbsColumn(RetagDbs(dbs, source, target)) == Moved(DbsColumn(dbs), source, target)
    decreases |dbs|
  {
    if dbs == [] {
    } else {
      var front, last := dbs[..|dbs| - 1], dbs[|dbs| - 1];
      DbsColumnMoves(front, source, target);
      MovedConcat(DbsColumn(front), DbProviders(last), source, target);
      assert RetagDbs(dbs, source, target)[..|dbs| - 1] == RetagDbs(front, source, target);
      assert DbProviders(RetagDb(last, source, target)) == Moved(DbProviders(last), source, target);
    }
  }

  /** Retagging moves counts exactly: the source drops to zero, the target gains it, every other count stays. */
  lemma RetagMovesCounts(files: seq<seq<Line>>, dbs: seq<Db>, source: string, target: string, dumps: Fields -> string,
                         p: string)
    requires source != target
    ensures var before, after := Column(files, dbs),
            Column(RetagFiles(files, source, target, dumps), RetagDbs(dbs, source, target));
            Occurrences(after, p) ==
            if p == source then 0
            else if p == target then Occurrences(before, target) + Occurrences(before, source)
            else Occurrences(before, p)
  {
    FilesColumnMoves(files, source, target, dumps);
    DbsColumnMoves(dbs, source, target);
    MovedConcat(FilesColumn(files), DbsColumn(dbs), source, target);
    OccurrencesMoved(Column(files, dbs), source, target, p);
  }

  /** A line is left exactly as it was unless its file holds the source and the writer's own rule matches the line. */
  lemma OtherLinesUntouched(lines: seq<Line>, source: string, target: string, dumps: Fields -> string, i: nat)
    requires i < |lines| && (Some(source) !in LineProviders(lines) || !LineMatches(lines[i], source))
    ensures RetagFile(lines, source, target, dumps)[i] == lines[i]
  {
  }

  /** A second whole run changes nothing, because the reader finds no source any more. */
  lemma SecondRunChangesNothing(files: seq<seq<Line>>, dbs: seq<Db>, source: string, target: string,
                                dumps: Fields -> string)
    requires source != target
    ensures var files', dbs' := RetagFiles(files, source, target, dumps), RetagDbs(dbs, source, target);
            RetagFiles(files', source, target, dumps) == files' && RetagDbs(dbs', source, target) == dbs'
  {
    var files', dbs' := RetagFiles(files, source, target, dumps), RetagDbs(dbs, source, target);
    forall i | 0 <= i < |files'| ensures RetagFile(files'[i], source, target, dumps) == files'[i] {
      FileMoves(files[i], source, target, dumps);
      assert Some(source) !in Moved(LineProviders(files[i]), source, target);
    }
    forall i | 0 <= i < |dbs'| ensures RetagDb(dbs'[i], source, target) == dbs'[i] {
      if dbs'[i].Threads? {
        assert Moved(dbs'[i].rows, source, target) == dbs'[i].rows;
      }
    }
  }

  /******* The command *******/

  class CodexHome {
    var files: seq<seq<Line>>
    var dbs: seq<Db>

    constructor (files: seq<seq<Line>>, dbs: seq<Db>)
      ensures this.files == files && this.dbs == dbs
    {
      this.files, this.dbs := files, dbs;
    }
  }

  ghost predicate Tallies(counts: map<string, nat>, column: seq<Option<string>>) {
    forall p :: (p in counts <==> Some(p) in column) && (p in counts ==> counts[p] == Occurrences(column, p))
  }

  /** The counts after one more value. */
  function Counted(counts: map<string, nat>, value: Option<string>): map<string, nat> {
    match value
    case None => counts
    case Some(p) => counts[p := (if p in counts then counts[p] else 0) + 1]
  }

  lemma TallyOne(counts: map<string, nat>, seen: seq<Option<string>>, value: Option<string>)
    requires Tallies(counts, seen)
    ensures Tallies(Counted(counts, value), seen + [value])
  {
    assert (seen + [value])[..|seen|] == seen;
    if value.Some? {
      OccurrencesZero(seen, value.value);
    }
  }

  method Tally(counts: map<string, nat>, values: seq<Option<string>>, ghost column: seq<Option<string>>)
    returns (counts': map<string, nat>)
    requires Tallies(counts, column)
    ensures Tallies(counts', column + values)
  {
    counts' := counts;
    assert column + values[..0] == column;
    for n := 0 to |values|
      invariant Tallies(counts', column + values[..n])
    {
      assert column + values[..n + 1] == column + values[..n] + [values[n]];
      TallyOne(counts', column + values[..n], values[n]);
      counts' := Counted(counts', values[n]);
    }
    assert values[..|values|] == values;
  }

  method ProviderCounts(home: CodexHome) returns (counts: map<string, nat>)
    ensures Tallies(counts, Column(home.files, home.dbs))
  {
    counts := map[];
    for n := 0 to |home.files|
      invariant Tallies(counts, FilesColumn(home.files[..n]))
    {
      assert home.files[..n + 1][..n] == home.files[..n];
      counts := Tally(counts, LineProviders(home.files[n]), FilesColumn(home.files[..n]));
    }
    assert home.files[..|home.files|] == home.files;
    ghost var fromFiles := FilesColumn(home.files);
    assert fromFiles + DbsColumn(home.dbs[..0]) == fromFiles;
    for n := 0 to |home.dbs|
      invariant Tallies(counts, fromFiles + DbsColumn(home.dbs[..n]))
    {
      assert home.dbs[..n + 1][..n] == home.dbs[..n];
      ghost var before := DbsColumn(home.dbs[..n]);
      counts := Tally(counts, DbProviders(home.dbs[n]), fromFiles + before);
      assert fromFiles + before + DbProviders(home.dbs[n]) == fromFiles + (before + DbProviders(home.dbs[n]));
    }
    assert home.dbs[..|home.dbs|] == home.dbs;
  }

  /** `_retag_jsonl_file`: the file is replaced exactly when the writer matched some line. */
  method RetagJsonlFile(lines: seq<Line>, source: string, target: string, dumps: Fields -> string)
    returns (output: seq<Line>, changed: bool)
    ensures output == RetagLines(lines, source, target, dumps)
    ensures changed <==> exists i :: 0 <= i < |lines| && LineMatches(lines[i], source)
  {
    output, changed := [], false;
    for n := 0 to |lines|
      invariant output == RetagLines(lines[..n], source, target, dumps)
      invariant changed <==> exists i :: 0 <= i < n && LineMatches(lines[i], source)
    {
      assert lines[..n + 1][..n] == lines[..n];
      var line := lines[n];
      if line.json.Some? && line.json.value.Obj? && Matches(line.json.value.fields, source) {
        changed := true;
        var fields := Rewritten(line.json.value.fields, source, target);
        output := output + [Line(dumps(fields) + "\n", Some(Obj(fields)))];
      } else {
        output := output + [line];
      }
    }
    assert lines[..|lines|] == lines;
  }

  /** A file in which the reader finds the source always has a line the writer matches. */
  lemma ReaderImpliesWriter(lines: seq<Line>, source: string)
    requires Some(source) in LineProviders(lines)
    ensures exists i :: 0 <= i < |lines| && LineMatches(lines[i], source)
  {
    var i :| 0 <= i < |lines| && LineProviders(lines)[i] == Some(source);
    RewriteMovesProvider(lines[i].json.value.fields, source, source);
  }

  datatype Report = Report(filesMatched: nat, filesUpdated: nat, rowsMatched: nat, rowsUpdated: nat,
                           before: map<string, nat>, after: map<string, nat>)

  predicate Accepted(source: string, target: string) {
    source != target && source in {"openai", "openhub"} && target in {"openai", "openhub"}
  }

  /** The number of files in which the reader finds the source. */
  function MatchedFiles(files: seq<seq<Line>>, source: string): nat {
    if files == [] then 0
    else MatchedFiles(files[..|files| - 1], source) + if Some(source) in LineProviders(files[|files| - 1]) then 1 else 0
  }

  function MatchedIndices(files: seq<seq<Line>>, source: string): set<int> {
    set i | 0 <= i < |files| && Some(source) in LineProviders(files[i])
  }

  lemma IndicesFront(files: seq<seq<Line>>, source: string, n: nat)
    requires |files| == n + 1
    ensures MatchedIndices(files, source) - {n} == MatchedIndices(files[..n], source)
  {
    assert forall i | 0 <= i < n :: files[..n][i] == files[i];
  }

  /** It is the size of the set of those files. */
  lemma {:induction false} MatchedFilesCount(files: seq<seq<Line>>, source: string)
    ensures MatchedFiles(files, source) == |MatchedIndices(files, source)|
    decreases |files|
  {
    if files == [] {
    } else {
      var n := |files| - 1;
      MatchedFilesCount(files[..n], source);
      IndicesFront(files, source, n);
      var all := MatchedIndices(files, source);
      assert n in all <==> Some(source) in LineProviders(files[n]);
      assert |all| == |all - {n}| + if n in all then 1 else 0;
    }
  }

  lemma {:induction false} OccurrencesConcat(a: seq<Option<string>>, b: seq<Option<string>>, p: string)
    ensures Occurrences(a + b, p) == Occurrences(a, p) + Occurrences(b, p)
    decreases |b|
  {
    if b == [] {
      assert a + b == a;
    } else {
      OccurrencesConcat(a, b[..|b| - 1], p);
      assert (a + b)[..|a + b| - 1] == a + b[..|b| - 1];
    }
  }

  /** Rewrites the matched files; each of them does change. */
  method UpdateFiles(home: CodexHome, source: string, target: string, dumps: Fields -> string) returns (updated: nat)
    modifies home`files
    ensures home.files == RetagFiles(old(home.files), source, target, dumps)
    ensures updated == MatchedFiles(old(home.files), source)
  {
    updated := 0;
    ghost var before := home.files;
    for n := 0 to |home.files|
      invariant |home.files| == |before| && updated == MatchedFiles(before[..n], source)
      invariant forall i | 0 <= i < n :: home.files[i] == RetagFile(before[i], source, target, dumps)
      invariant forall i | n <= i < |before| :: home.files[i] == before[i]
    {
      assert before[..n + 1][..n] == before[..n];
      if Some(source) in LineProviders(home.files[n]) {
        ReaderImpliesWriter(home.files[n], source);
        var output, changed := RetagJsonlFile(home.files[n], source, target, dumps);
        if changed {
          home.files := home.files[n := output];
          updated := updated + 1;
        }
      }
    }
    assert before[..|before|] == before;
  }

  method UpdateDb(db: Db, source: string, target: string) returns (db': Db, count: nat)
    ensures db' == RetagDb(db, source, target)
    ensures count == Occurrences(DbProviders(db), source)
  {
    db', count := db, Occurrences(DbProviders(db), source);
    OccurrencesZero(DbProviders(db), source);
    if count > 0 {
      db' := Threads(Moved(db.rows, source, target));
    } else if db.Threads? {
      assert Moved(db.rows, source, target) == db.rows;
    }
  }

  lemma DbsMore(dbs: seq<Db>, n: nat, source: string)
    requires n < |dbs|
    ensures Occurrences(DbsColumn(dbs[..n + 1]), source) ==
              Occurrences(DbsColumn(dbs[..n]), source) + Occurrences(DbProviders(dbs[n]), source)
  {
    assert dbs[..n + 1][..n] == dbs[..n];
    OccurrencesConcat(DbsColumn(dbs[..n]), DbProviders(dbs[n]), source);
  }

  method UpdateDbs(home: CodexHome, source: string, target: string) returns (updated: nat)
    modifies home`dbs
    ensures home.dbs == RetagDbs(old(home.dbs), source, target)
    ensures updated == Occurrences(DbsColumn(old(home.dbs)), source)
  {
    updated := 0;
    ghost var before := home.dbs;
    for n := 0 to |home.dbs|
      invariant |home.dbs| == |before| && updated == Occurrences(DbsColumn(before[..n]), source)
      invariant forall i | 0 <= i < n :: home.dbs[i] == RetagDb(before[i], source, target)
      invariant forall i | n <= i < |before| :: home.dbs[i] == before[i]
    {
      DbsMore(before, n, source);
      var db, count := UpdateDb(home.dbs[n], source, target);
      home.dbs := home.dbs[n := db];
      updated := updated + count;
    }
    assert before[..|before|] == before;
  }

  /** The whole command; a dry run and a refusal leave the home as it was, a real run updates all it matched. */
  method RetagCodexSessions(home: CodexHome, source: string, target: string, dryRun: bool, dumps: Fields -> string)
    returns (result: Result<Report, string>)
    modifies home
    ensures result.Ok? <==> Accepted(Strip(source), Strip(target))
    ensures result.Err? || dryRun ==> home.files == old(home.files) && home.dbs == old(home.dbs)
    ensures result.Ok? && !dryRun ==>
              && home.files == RetagFiles(old(home.files), Strip(source), Strip(target), dumps)
              && home.dbs == RetagDbs(old(home.dbs), Strip(source), Strip(target))
    ensures result.Ok? ==>
              && result.value.filesMatched == MatchedFiles(old(home.files), Strip(source))
              && result.value.rowsMatched == Occurrences(DbsColumn(old(home.dbs)), Strip(source))
              && result.value.filesUpdated == (if dryRun then 0 else result.value.filesMatched)
              && result.value.rowsUpdated == (if dryRun then 0 else result.value.rowsMatched)
    ensures result.Ok? ==>
            Tallies(result.value.before, old(Column(home.files, home.dbs)))
            && Tallies(result.value.after, Column(home.files, home.dbs))
  {
    var source', target' := Strip(source), Strip(target);
    if source' == target' {
      return Err("--from and --to must be different providers");
    }
    if !(source' in {"openai", "openhub"} && target' in {"openai", "openhub"}) {
      return Err("unsupported provider");
    }
    var before := ProviderCounts(home);
    var filesMatched, rowsMatched := MatchedFiles(home.files, source'), Occurrences(DbsColumn(home.dbs), source');
    if dryRun {
      return Ok(Report(filesMatched, 0, rowsMatched, 0, before, before));
    }
    var filesUpdated := UpdateFiles(home, source', target', dumps);
    var rowsUpdated := UpdateDbs(home, source', target');
    var after := ProviderCounts(home);
    result := Ok(Report(filesMatched, filesUpdated, rowsMatched, rowsUpdated, before, after));
  }

  /** What the report of an accepted real run says: the counts moved, nothing else did. */
  lemma ReportMovesCounts(files: seq<seq<Line>>, dbs: seq<Db>, source: string, target: string, dumps: Fields -> string,
                          before: map<string, nat>, after: map<string, nat>)
    requires source != target
    requires Tallies(before, Column(files, dbs))
    requires Tallies(after, Column(RetagFiles(files, source, target, dumps), RetagDbs(dbs, source, target)))
    ensures source !in after
    ensures forall p | p != source && p != target ::
            (p in after <==> p in before) && (p in after ==> after[p] == before[p])
    ensures (if target in after then after[target] else 0) ==
            (if target in before then before[target] else 0) + (if source in before then before[source] else 0)
  {
    var column, column' := Column(files, dbs),
        Column(RetagFiles(files, source, target, dumps), RetagDbs(dbs, source, target));
    forall p ensures (p in after <==> Occurrences(column', p) > 0) && (p in before <==> Occurrences(column, p) > 0) {
      OccurrencesZero(column', p);
      OccurrencesZero(column, p);
    }
    forall p {
      RetagMovesCounts(files, dbs, source, target, dumps, p);
    }
  }
}
