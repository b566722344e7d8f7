/**
 The migration-chain validator of scripts/rewrite_alembic_revisions.py, after the text of each file has been matched.
 */
module RevisionChain {
  import opened Basics
  import opened Listings

  /** What the two patterns found in a file: a revision id, and a `down_revision` that may be the literal None. */
  datatype MigrationFile = MigrationFile(name: string, revision: Option<string>, down: Option<Option<string>>)

  datatype Error =
    | MissingRevision(name: string)
    | MissingDown(name: string)
    | DuplicateRevision(revision: string)
    | FilenameMismatch(revision: string, name: string)
    | MissingTarget(target: string, revision: string)
    | RootCount(count: nat)
    | HeadCount(count: nat)
    | CycleAt(revision: string)
    | Unreachable(missing: set<string>)

  type Revisions = map<string, Option<string>>

  /******* What the validator promises *******/

  /** Both assignments were found, the file is named after its revision, and no earlier file has that revision. */
  predicate FileOk(f: MigrationFile, earlier: Revisions) {
    f.revision.Some? && f.down.Some? && f.revision.value !in earlier && f.name == f.revision.value + ".py"
  }

  /** The dictionary after reading the files in order; unusable files and repeated ids are skipped. */
  function Collected(files: seq<MigrationFile>): Revisions {
    if files == [] then map[]
    else
      var m, f := Collected(files[..|files| - 1]), files[|files| - 1];
      if f.revision.Some? && f.down.Some? && f.revision.value !in m then m[f.revision.value := f.down.value] else m
  }

  predicate FileAtOk(files: seq<MigrationFile>, i: nat)
    requires i < |files|
  {
    FileOk(files[i], Collected(files[..i]))
  }

  ghost predicate FilesOk(files: seq<MigrationFile>) {
    forall i: nat | i < |files| :: FileAtOk(files, i)
  }

  /** `chain` lists every revision once, from the root up, each one on top of the previous. */
  ghost predicate LinearChain(m: Revisions, chain: seq<string>) {
    && 0 < |chain|
    && (forall i, j | 0 <= i < j < |chain| :: chain[i] != chain[j])
    && (forall r :: r in m <==> r in chain)
    && m[chain[0]] == None
    && forall i | 0 < i < |chain| :: m[chain[i]] == Some(chain[i - 1])
  }

  ghost predicate Linear(m: Revisions) {
    exists chain :: LinearChain(m, chain)
  }

  /******* Walking down *******/

  /** The walk from `r` ends (at a root or at a missing revision) within `n` steps. */
  ghost predicate Ends(m: Revisions, r: string, n: nat)
    decreases n
  {
    r !in m || m[r].None? || (n > 0 && Ends(m, m[r].value, n - 1))
  }

  ghost predicate Grounded(m: Revisions, r: string) {
    exists n :: Ends(m, r, n)
  }

  ghost predicate Closed(m: Revisions, s: set<string>) {
    forall x | x in s :: x in m && m[x].Some? && m[x].value in s
  }

  lemma {:induction false} ClosedNeverEnds(m: Revisions, s: set<string>, x: string, n: nat)
    requires Closed(m, s) && x in s
    ensures !Ends(m, x, n)
    decreases n
  {
    if n == 0 {
    } else {
      ClosedNeverEnds(m, s, m[x].value, n - 1);
    }
  }

  lemma {:induction false} PathEnds(m: Revisions, path: seq<string>, i: nat)
    requires i < |path| && forall j | 0 <= j < |path| - 1 :: path[j] in m && m[path[j]] == Some(path[j + 1])
    requires path[|path| - 1] !in m || m[path[|path| - 1]].None?
    ensures Ends(m, path[i], |path| - 1 - i)
    decreases |path| - i
  {
    if i >= |path| - 1 {
    } else {
      PathEnds(m, path, i + 1);
    }
  }

  /**
   One walk; it terminates because the revisions not yet seen shrink. A cycle is reported iff the walk would not end.
   */
  method Walk(m: Revisions, start: string) returns (seen: set<string>, cycle: Option<string>)
    ensures start in seen
    ensures cycle.None? <==> Grounded(m, start)
    ensures forall x | x in seen :: x in m || x == start || exists r :: r in m && m[r] == Some(x)
    ensures start in m && m[start].Some? ==> m[start].value in seen
  {
    seen := {};
    var current := start;
    ghost var path: seq<string> := [];
    while true
      invariant forall x :: x in seen <==> x in path
      invariant forall j | 0 <= j < |path| :: path[j] in m && m[path[j]].Some?
      invariant forall j | 0 <= j < |path| - 1 :: m[path[j]].value == path[j + 1]
      invariant path != [] ==> m[path[|path| - 1]].value == current
      invariant if path == [] then current == start else path[0] == start
      decreases m.Keys - seen
    {
      if current in seen {
        forall x | x in seen ensures x in m && m[x].Some? && m[x].value in seen {
          var j :| 0 <= j < |path| && path[j] == x;
          assert j < |path| - 1 ==> path[j + 1] in seen;
        }
        forall n: nat ensures !Ends(m, start, n) {
          ClosedNeverEnds(m, seen, start, n);
        }
        return seen, Some(current);
      }
      seen := seen + {current};
      path := path + [current];
      assert |path| > 1 ==> path[1] in seen && m[start] == Some(path[1]);
      if current !in m || m[current].None? {
        PathEnds(m, path, 0);
        return seen, None;
      }
      current := m[current].value;
    }
  }

  /******* From the checks to a chain *******/

  /** No revision is built on `r`. */
  ghost predicate IsHead(m: Revisions, r: string) {
    forall c | c in m :: m[c] != Some(r)
  }

  /** Links lead to revisions, and `root` is the only one without a link. */
  ghost predicate Rooted(m: Revisions, root: string) {
    && (forall r | r in m && m[r].Some? :: m[r].value in m)
    && (forall r | r in m :: m[r].None? <==> r == root)
  }

  /** What the link, root, head and cycle checks establish together. */
  ghost predicate ChecksPass(m: Revisions, root: string, head: string) {
    && Rooted(m, root) && root in m && head in m
    && (forall r | r in m :: r == head <==> IsHead(m, r))
    && forall r | r in m :: Grounded(m, r)
  }

  /** A path from the root upwards. */
  ghost predicate Path(m: Revisions, root: string, d: seq<string>) {
    && 0 < |d| && d[0] == root
    && (forall i | 0 <= i < |d| :: d[i] in m)
    && forall i | 0 < i < |d| :: m[d[i]] == Some(d[i - 1])
  }

  /** The revisions below and including `r`, root first. */
  ghost function Down(m: Revisions, r: string, n: nat): seq<string>
    requires Ends(m, r, n)
    decreases n
  {
    if r !in m then [] else if m[r].None? then [r] else Down(m, m[r].value, n - 1) + [r]
  }

  lemma {:induction false} DownIsPath(m: Revisions, root: string, r: string, n: nat)
    requires Rooted(m, root) && r in m && Ends(m, r, n)
    ensures Path(m, root, Down(m, r, n)) && Down(m, r, n)[|Down(m, r, n)| - 1] == r
    decreases n
  {
    if m[r].Some? {
      DownIsPath(m, root, m[r].value, n - 1);
    }
  }

  /** A path repeats nothing: equal entries would have equal heights above the root. */
  lemma {:induction false} PathDistinct(m: Revisions, root: string, d: seq<string>, i: nat, j: nat)
    requires Rooted(m, root) && Path(m, root, d) && i < j < |d|
    ensures d[i] != d[j]
  {
    assert m[d[j]] == Some(d[j - 1]);
    if i == 0 {
    } else {
      PathDistinct(m, root, d, i - 1, j - 1);
      assert m[d[i]] == Some(d[i - 1]);
    }
  }

  lemma {:induction false} DistinctWithin(d: seq<string>, keys: set<string>)
    requires forall i | 0 <= i < |d| :: d[i] in keys
    requires forall i, j | 0 <= i < j < |d| :: d[i] != d[j]
    ensures |d| <= |keys|
  {
    if d == [] {
    } else {
      DistinctWithin(d[..|d| - 1], keys - {d[|d| - 1]});
    }
  }

  lemma PathBounded(m: Revisions, root: string, d: seq<string>)
    requires Rooted(m, root) && Path(m, root, d)
    ensures |d| <= |m|
  {
    forall i, j | 0 <= i < j < |d| ensures d[i] != d[j] {
      PathDistinct(m, root, d, i, j);
    }
    DistinctWithin(d, m.Keys);
  }

  /** Whatever is built on a revision off the path to the head is off that path too. */
  lemma ChildOffPath(m: Revisions, root: string, chain: seq<string>, x: string, child: string)
    requires Path(m, root, chain) && Rooted(m, root) && child in m && m[child] == Some(x) && x !in chain
    ensures child !in chain
  {
    forall i | 0 <= i < |chain| ensures chain[i] != child {
      if i > 0 {
        assert m[chain[i]] == Some(chain[i - 1]);
      }
    }
  }

  /** A revision off the head's path has a child off it, one step higher; heights are bounded, so there is none. */
  lemma {:induction false} NothingOffPath(m: Revisions, root: string, head: string, chain: seq<string>, x: string,
                                          n: nat)
    requires ChecksPass(m, root, head) && Path(m, root, chain) && chain[|chain| - 1] == head
    requires x in m && x !in chain && Ends(m, x, n)
    ensures false
    decreases |m| - |Down(m, x, n)|
  {
    assert !IsHead(m, x);
    var child :| child in m && m[child] == Some(x);
    ChildOffPath(m, root, chain, x, child);
    DownIsPath(m, root, child, n + 1);
    PathBounded(m, root, Down(m, child, n + 1));
    NothingOffPath(m, root, head, chain, child, n + 1);
  }

  lemma ChecksGiveChain(m: Revisions, root: string, head: string)
    requires ChecksPass(m, root, head)
    ensures Linear(m)
  {
    var n :| Ends(m, head, n);
    var chain := Down(m, head, n);
    DownIsPath(m, root, head, n);
    forall i, j | 0 <= i < j < |chain| ensures chain[i] != chain[j] {
      PathDistinct(m, root, chain, i, j);
    }
    forall x | x in m ensures x in chain {
      if x !in chain {
        var k :| Ends(m, x, k);
        NothingOffPath(m, root, head, chain, x, k);
      }
    }
    assert LinearChain(m, chain);
  }

  /******* From a chain to the checks *******/

  lemma {:induction false} ChainEnds(m: Revisions, chain: seq<string>, i: nat)
    requires LinearChain(m, chain) && i < |chain|
    ensures Ends(m, chain[i], i)
  {
    if i == 0 {
    } else {
      ChainEnds(m, chain, i - 1);
    }
  }

  lemma ChainGivesChecks(m: Revisions, chain: seq<string>)
    requires LinearChain(m, chain)
    ensures ChecksPass(m, chain[0], chain[|chain| - 1])
  {
    forall r | r in m ensures Grounded(m, r) && (m[r].Some? ==> m[r].value in m) && (m[r].None? <==> r == chain[0]) {
      var i :| 0 <= i < |chain| && chain[i] == r;
      ChainEnds(m, chain, i);
      assert i > 0 ==> m[r] == Some(chain[i - 1]) && chain[i - 1] in m;
    }
    forall r | r in m ensures r == chain[|chain| - 1] <==> IsHead(m, r) {
      var i :| 0 <= i < |chain| && chain[i] == r;
      if i < |chain| - 1 {
        assert chain[i + 1] in m && m[chain[i + 1]] == Some(r);
      } else {
        forall c | c in m ensures m[c] != Some(r) {
          var j :| 0 <= j < |chain| && chain[j] == c;
          assert j > 0 ==> m[c] == Some(chain[j - 1]);
        }
      }
    }
  }

  lemma ChecksIffLinear(m: Revisions)
    ensures Linear(m) <==> exists root, head :: ChecksPass(m, root, head)
  {
    if root, head :| ChecksPass(m, root, head) {
      ChecksGiveChain(m, root, head);
    }
    if chain :| LinearChain(m, chain) {
      ChainGivesChecks(m, chain);
    }
  }

  /******* The validator *******/

  ghost predicate Targets(m: Revisions, targets: set<string>) {
    forall x :: x in targets <==> exists r :: r in m && m[r] == Some(x)
  }

  lemma TargetsGrow(m: Revisions, targets: set<string>, revision: string, down: Option<string>)
    requires Targets(m, targets) && revision !in m
    ensures Targets(m[revision := down], if down.Some? then targets + {down.value} else targets)
  {
    var m' := m[revision := down];
    forall x ensures (x in targets || down == Some(x)) <==> exists r :: r in m' && m'[r] == Some(x) {
      if r :| r in m && m[r] == Some(x) {
        assert m'[r] == Some(x);
      }
      assert m'[revision] == down;
    }
  }

  ghost predicate Lists(m: Revisions, order: seq<string>) {
    Distinct(order) && forall r :: r in m <==> r in order
  }

  /** One round of the reading loop: an error is reported exactly when the file is not acceptable. */
  method CollectFile(f: MigrationFile, m: Revisions, order: seq<string>, targets: set<string>)
    returns (m': Revisions, order': seq<string>, targets': set<string>, error: Option<Error>)
    requires Lists(m, order) && Targets(m, targets)
    ensures Lists(m', order') && Targets(m', targets')
    ensures m' == if f.revision.Some? && f.down.Some? && f.revision.value !in m
            then m[f.revision.value := f.down.value] else m
    ensures error.None? <==> FileOk(f, m)
    ensures error.Some? ==> !error.value.Unreachable? && !error.value.MissingTarget?
    ensures error.Some? ==> !error.value.RootCount? && !error.value.HeadCount? && !error.value.CycleAt?
    ensures error == Some(MissingRevision(f.name)) <==> f.revision.None?
    ensures error == Some(MissingDown(f.name)) <==> f.revision.Some? && f.down.None?
    ensures f.revision.Some? && f.down.Some? ==>
              var revision := f.revision.value;
              && (error == Some(DuplicateRevision(revision)) <==> revision in m)
              && (error == Some(FilenameMismatch(revision, f.name)) <==> revision !in m && f.name != revision + ".py")
              && (error.None? <==> revision !in m && f.name == revision + ".py")
  {
    m', order', targets', error := m, order, targets, None;
    if f.revision.None? {
      error := Some(MissingRevision(f.name));
    } else if f.down.None? {
      error := Some(MissingDown(f.name));
    } else if f.revision.value in m {
      error := Some(DuplicateRevision(f.revision.value));
    } else {
      var revision, down := f.revision.value, f.down.value;
      TargetsGrow(m, targets, revision, down);
      m' := m[revision := down];
      order' := order + [revision];
      assert revision in order';
      if down.Some? {
        targets' := targets + {down.value};
      }
      if f.name != revision + ".py" {
        error := Some(FilenameMismatch(revision, f.name));
      }
    }
  }

  method Collect(files: seq<MigrationFile>)
    returns (m: Revisions, order: seq<string>, targets: set<string>, errors: seq<Error>)
    ensures m == Collected(files) && Targets(m, targets) && Lists(m, order)
    ensures errors == [] <==> FilesOk(files)
    ensures forall e | e in errors :: !e.Unreachable? && !e.MissingTarget?
  {
    m, order, targets, errors := map[], [], {}, [];
    for n := 0 to |files|
      invariant m == Collected(files[..n]) && Targets(m, targets) && Lists(m, order)
      invariant errors == [] <==> forall i: nat | i < n :: FileAtOk(files, i)
      invariant forall e | e in errors :: !e.Unreachable? && !e.MissingTarget?
    {
      assert files[..n + 1][..n] == files[..n];
      var error;
      m, order, targets, error := CollectFile(files[n], m, order, targets);
      assert error.None? <==> FileAtOk(files, n);
      if error.Some? {
        errors := errors + [error.value];
      }
    }
    assert files[..|files|] == files;
  }

  /** `e` reports that `order[i]` is built on a revision that does not exist. */
  ghost predicate ReportsMissing(m: Revisions, order: seq<string>, i: int, e: Error) {
    && 0 <= i < |order| && order[i] in m && m[order[i]].Some? && m[order[i]].value !in m
    && e == MissingTarget(m[order[i]].value, order[i])
  }

  method MissingTargets(m: Revisions, order: seq<string>) returns (errors: seq<Error>)
    requires Lists(m, order)
    ensures errors == [] <==> AllTargetsExist(m)
    ensures forall e :: e in errors <==> exists i :: ReportsMissing(m, order, i, e)
    ensures forall e | e in errors ::
            e.MissingTarget? && e.revision in m && m[e.revision] == Some(e.target) && e.target !in m
  {
    errors := [];
    for n := 0 to |order|
      invariant errors == [] <==> forall i | 0 <= i < n && m[order[i]].Some? :: m[order[i]].value in m
      invariant forall e :: e in errors <==> exists i :: i < n && ReportsMissing(m, order, i, e)
    {
      assert order[n] in m;
      var down := m[order[n]];
      if down.Some? && down.value !in m {
        assert ReportsMissing(m, order, n, MissingTarget(down.value, order[n]));
        errors := errors + [MissingTarget(down.value, order[n])];
      }
    }
    assert forall r | r in m :: exists i :: 0 <= i < |order| && order[i] == r;
  }

  /** The members of a list that pass a test, in list order. */
  function Kept(order: seq<string>, passes: set<string>): (kept: seq<string>)
    ensures forall r :: r in kept <==> r in order && r in passes
  {
    if order == [] then []
    else if order[0] in passes then [order[0]] + Kept(order[1..], passes)
    else Kept(order[1..], passes)
  }

  lemma {:induction false} KeptDistinct(order: seq<string>, passes: set<string>)
    requires Distinct(order)
    ensures Distinct(Kept(order, passes))
  {
    if order == [] {
    } else {
      KeptDistinct(order[1..], passes);
      assert order[0] !in order[1..];
    }
  }

  lemma OtherMember(s: seq<string>, x: string)
    requires Distinct(s)
    ensures |s| <= 1 || exists y :: y in s && y != x
  {
    if |s| > 1 {
      assert s[0] in s && s[1] in s;
    }
  }

  /** Keeping exactly one member is having exactly one that passes. */
  lemma OneKept(order: seq<string>, passes: set<string>)
    requires Distinct(order)
    ensures |Kept(order, passes)| == 1 <==> exists x :: Only(order, passes, x)
  {
    var kept := Kept(order, passes);
    KeptDistinct(order, passes);
    if |kept| == 1 {
      assert kept[0] in kept;
      assert Only(order, passes, kept[0]);
    }
    if x :| Only(order, passes, x) {
      assert x in kept;
      OtherMember(kept, x);
    }
  }

  ghost predicate AllTargetsExist(m: Revisions) {
    forall r | r in m && m[r].Some? :: m[r].value in m
  }

  method WalkAll(m: Revisions, order: seq<string>) returns (visited: set<string>, errors: seq<Error>)
    requires Lists(m, order)
    ensures m.Keys <= visited
    ensures errors == [] <==> forall r | r in m :: Grounded(m, r)
    ensures forall e | e in errors :: e.CycleAt?
    ensures visited == m.Keys <==> AllTargetsExist(m)
  {
    visited, errors := {}, [];
    for n := 0 to |order|
      invariant forall i | 0 <= i < n :: order[i] in visited && (m[order[i]].Some? ==> m[order[i]].value in visited)
      invariant errors == [] <==> forall i | 0 <= i < n :: Grounded(m, order[i])
      invariant forall e | e in errors :: e.CycleAt?
      invariant forall x | x in visited :: x in m || exists r :: r in m && m[r] == Some(x)
    {
      var seen, cycle := Walk(m, order[n]);
      assert order[n] in m;
      if cycle.Some? {
        errors := errors + [CycleAt(cycle.value)];
      }
      visited := visited + seen;
    }
    assert forall r | r in m :: exists i :: 0 <= i < |order| && order[i] == r;
  }

  /** More was visited than there are revisions exactly when some target is missing, and no revision was missed. */
  lemma VisitsCount(m: Revisions, visited: set<string>)
    requires m.Keys <= visited && (visited == m.Keys <==> AllTargetsExist(m))
    ensures |visited| != |m| <==> !AllTargetsExist(m)
    ensures m.Keys - visited == {}
  {
    assert visited == m.Keys + (visited - m.Keys);
  }

  /** Which kinds of error the parts of the report contain. */
  lemma UnreachableComesWith(files: seq<Error>, links: seq<Error>, counts: seq<Error>, cycles: seq<Error>,
                             visits: seq<Error>)
    requires forall e | e in files + counts + cycles :: !e.Unreachable? && !e.MissingTarget?
    requires forall e | e in links :: e.MissingTarget?
    requires visits == [] || visits == [Unreachable({})]
    requires visits != [] <==> links != []
    ensures var all := files + (links + counts) + (cycles + visits);
            && (forall e | e in all && e.Unreachable? :: e.missing == {})
            && ((exists e :: e in all && e.Unreachable?) <==> exists e :: e in all && e.MissingTarget?)
  {
    var all := files + (links + counts) + (cycles + visits);
    assert forall e | e in all :: e in files + counts + cycles || e in links || e in visits;
    if links != [] {
      assert links[0] in links + counts && links[0] in all;
      assert visits[0] in cycles + visits && visits[0] in all;
    }
  }

  lemma HeadsAreUntargeted(m: Revisions, targets: set<string>)
    requires Targets(m, targets)
    ensures forall r | r in m :: r in m.Keys - targets <==> IsHead(m, r)
  {
  }

  /** `x` is the only member of `order` in `passes`. */
  ghost predicate Only(order: seq<string>, passes: set<string>, x: string) {
    x in order && forall r | r in order :: r in passes <==> r == x
  }

  lemma OnlyGivesChecks(m: Revisions, order: seq<string>, roots: set<string>, heads: set<string>, root: string,
                        head: string)
    requires Lists(m, order)
    requires forall r | r in m :: r in roots <==> m[r].None?
    requires forall r | r in m :: r in heads <==> IsHead(m, r)
    requires (forall r | r in m && m[r].Some? :: m[r].value in m) && forall r | r in m :: Grounded(m, r)
    requires Only(order, roots, root) && Only(order, heads, head)
    ensures ChecksPass(m, root, head)
  {
  }

  lemma ChecksGiveOnly(m: Revisions, order: seq<string>, roots: set<string>, heads: set<string>, root: string,
                       head: string)
    requires Lists(m, order)
    requires forall r | r in m :: r in roots <==> m[r].None?
    requires forall r | r in m :: r in heads <==> IsHead(m, r)
    requires ChecksPass(m, root, head)
    ensures Only(order, roots, root) && Only(order, heads, head)
  {
  }

  /** The counts of roots and heads against ChecksPass, given that links resolve and walks end. */
  lemma CountsGiveChecks(m: Revisions, order: seq<string>, roots: set<string>, heads: set<string>)
    requires Lists(m, order)
    requires forall r | r in m :: r in roots <==> m[r].None?
    requires forall r | r in m :: r in heads <==> IsHead(m, r)
    requires (forall r | r in m && m[r].Some? :: m[r].value in m) && forall r | r in m :: Grounded(m, r)
    ensures |Kept(order, roots)| == 1 && |Kept(order, heads)| == 1 <==> exists root, head :: ChecksPass(m, root, head)
  {
    OneKept(order, roots);
    OneKept(order, heads);
    if root, head :| Only(order, roots, root) && Only(order, heads, head) {
      OnlyGivesChecks(m, order, roots, heads, root, head);
    }
    if root, head :| ChecksPass(m, root, head) {
      ChecksGiveOnly(m, order, roots, heads, root, head);
    }
  }

  /**
   No errors exactly when every file is usable and named after its own revision and the revisions form one linear
   chain. The "unreachable" report names nothing and appears exactly when a missing target is reported.
   */
  method ValidateChain(files: seq<MigrationFile>) returns (errors: seq<Error>)
    ensures errors == [] <==> FilesOk(files) && Linear(Collected(files))
    ensures forall e | e in errors && e.Unreachable? :: e.missing == {}
    ensures (exists e :: e in errors && e.Unreachable?) <==> exists e :: e in errors && e.MissingTarget?
  {
    var m, order, targets, fileErrors := Collect(files);
    var linkErrors := MissingTargets(m, order);
    var roots := set r | r in m && m[r].None?;
    var rootErrors := if |Kept(order, roots)| != 1 then [RootCount(|Kept(order, roots)|)] else [];
    var heads := m.Keys - targets;
    HeadsAreUntargeted(m, targets);
    var headErrors := if |Kept(order, heads)| != 1 then [HeadCount(|Kept(order, heads)|)] else [];
    var visited, cycleErrors := WalkAll(m, order);
    var visitErrors := if |visited| != |m| then [Unreachable(m.Keys - visited)] else [];
    errors := fileErrors + (linkErrors + (rootErrors + headErrors)) + (cycleErrors + visitErrors);

    VisitsCount(m, visited);
    UnreachableComesWith(fileErrors, linkErrors, rootErrors + headErrors, cycleErrors, visitErrors);
    if linkErrors == [] && cycleErrors == [] {
      CountsGiveChecks(m, order, roots, heads);
    }
    ChecksIffLinear(m);
  }
}
