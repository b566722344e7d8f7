/** Every interleaving of archive producers with the writer thread keeps the byte accounts and the record order. */
module ArchiveRuns {
  import Traces
  import opened ArchiveQueue

  /**
   Where the writer thread is. In Finishing, `owed` says the first record's bytes are back but not yet marked done.
   */
  datatype Writer =
    | Waiting
    | Collecting(batch: seq<Item>)
    | GotStop(batch: seq<Item>)
    | Appending(batch: seq<Item>, stop: bool)
    | Finishing(rest: seq<Item>, stop: bool, owed: bool)
    | Dead

  /**
   `reserved` holds the records of producers between reserving bytes and queueing. The last four fields record the
   past: records accepted by the queue, records handed to the append, what reached each file, and the paths for
   which something did not.
   */
  datatype System = System(limit: nat, bytes: int, reserved: seq<Item>, queue: seq<Slot>, unfinished: int,
      writer: Writer,
                           accepted: seq<Item>, handled: seq<Item>, files: map<Path, seq<Record>>, lost: set<Path>)

  datatype Event =
    | Reserve(item: Item)
    | PutRecord(producer: nat)
    | Abandon(producer: nat)
    | PutStop
    | Get
    | GetMore
    | QueueEmpty
    | StopDone
    | Append(reach: map<Path, nat>, raised: bool)
    | ReleaseOne
    | DoneOne
    | RoundDone
    | StartWriter

  function Without(items: seq<Item>, i: nat): seq<Item>
    requires i < |items|
  {
    items[..i] + items[i + 1..]
  }

  function File(files: map<Path, seq<Record>>, p: Path): seq<Record> { if p in files then files[p] else [] }

  function Paths(items: seq<Item>): set<Path> { set i | 0 <= i < |items| :: items[i].path }

  /**
   How many of a path's records in the batch reach its file; pauses, errors and partial writes cut the number short.
   */
  function Reached(reach: map<Path, nat>, batch: seq<Item>, p: Path): nat {
    if p in reach && reach[p] < |Of(batch, p)| then reach[p] else |Of(batch, p)|
  }

  function Appended(files: map<Path, seq<Record>>, batch: seq<Item>, reach: map<Path, nat>): map<Path, seq<Record>> {
    files + map p | p in Paths(batch) :: File(files, p) + Of(batch, p)[..Reached(reach, batch, p)]
  }

  function Losses(batch: seq<Item>, reach: map<Path, nat>): set<Path> {
    set p | p in Paths(batch) && Reached(reach, batch, p) < |Of(batch, p)|
  }

  predicate Enabled(s: System, e: Event) {
    match e
    case Reserve(item) => item.size > 0 && s.bytes >= 0 && CanReserve(s.bytes, s.limit, item.size)
    case PutRecord(i) => i < |s.reserved| && |s.queue| < MAX_RECORDS
    case Abandon(i) => i < |s.reserved|
    case PutStop => |s.queue| < MAX_RECORDS
    case Get => s.writer.Waiting? && s.queue != []
    case GetMore => s.writer.Collecting? && s.queue != []
    case QueueEmpty => s.writer.Collecting? && s.queue == []
    case StopDone => s.writer.GotStop?
    case Append(_, _) => s.writer.Appending?
    case ReleaseOne => s.writer.Finishing? && s.writer.rest != [] && !s.writer.owed
    case DoneOne => s.writer.Finishing? && s.writer.rest != [] && s.writer.owed
    case RoundDone => s.writer.Finishing? && s.writer.rest == []
    case StartWriter => s.writer.Dead?
  }

  function Released(bytes: int, size: nat): int { if bytes - size < 0 then 0 else bytes - size }

  function Taken(s: System, batch: seq<Item>): System
    requires s.queue != []
  {
    s.(queue := s.queue[1..], writer := if s.queue[0].Stop? then GotStop(batch)
        else Collecting(batch + [s.queue[0].item]))
  }

  function Step(s: System, e: Event): System
    requires Enabled(s, e)
  {
    match e
    case Reserve(item) => s.(bytes := s.bytes + item.size, reserved := s.reserved + [item])
    case PutRecord(i) =>
      s.(reserved := Without(s.reserved, i), queue := s.queue + [Queued(s.reserved[i])], unfinished := s.unfinished + 1,
         accepted := s.accepted + [s.reserved[i]])
    case Abandon(i) => s.(reserved := Without(s.reserved, i), bytes := Released(s.bytes, s.reserved[i].size))
    case PutStop => s.(queue := s.queue + [Stop], unfinished := s.unfinished + 1)
    case Get => Taken(s, [])
    case GetMore => Taken(s, s.writer.batch)
    case QueueEmpty => s.(writer := Appending(s.writer.batch, false))
    case StopDone =>
        s.(unfinished := s.unfinished - 1, writer := if s.writer.batch == [] then Dead
        else Appending(s.writer.batch, true))
    case Append(reach, raised) =>
      var batch := s.writer.batch;
      s.(writer := Finishing(batch, s.writer.stop || raised, false), handled := s.handled + batch,
         files := Appended(s.files, batch, reach), lost := s.lost + Losses(batch, reach))
    case ReleaseOne => s.(bytes := Released(s.bytes, s.writer.rest[0].size), writer := s.writer.(owed := true))
    case DoneOne => s.(unfinished := s.unfinished - 1, writer := s.writer.(rest := s.writer.rest[1..], owed := false))
    case RoundDone => s.(writer := if s.writer.stop then Dead else Waiting)
    case StartWriter => s.(writer := Waiting)
  }

  predicate Start(s: System) {
    s.limit >= 1 && s == System(s.limit, 0, [], [], 0, Dead, [], [], map[], {})
  }

  type Trace = Traces.Trace<System, Event>

  ghost predicate Leads(tr: Trace, k: nat)
    requires |tr.states| == |tr.events| + 1 && k < |tr.events|
  {
    Enabled(tr.states[k], tr.events[k]) && tr.states[k + 1] == Step(tr.states[k], tr.events[k])
  }

  ghost predicate Run(tr: Trace) {
    && |tr.states| == |tr.events| + 1
    && Start(tr.states[0])
    && forall k: nat | k < |tr.events| :: Leads(tr, k)
  }

  /******* Sums, queues and per-path records of concatenations *******/

  lemma {:induction false} SumConcat(a: seq<Item>, b: seq<Item>)
    ensures Sum(a + b) == Sum(a) + Sum(b)
    decreases |b|
  {
    if b == [] {
      assert a + b == a;
    } else {
      SumConcat(a, b[..|b| - 1]);
      assert (a + b)[..|a + b| - 1] == a + b[..|b| - 1];
    }
  }

  lemma SumOne(item: Item)
    ensures Sum([item]) == item.size
  {
    assert [item][..0] == [];
  }

  lemma {:induction false} SumWithout(items: seq<Item>, i: nat)
    requires i < |items|
    ensures Sum(Without(items, i)) == Sum(items) - items[i].size
    decreases |items|
  {
    var n := |items| - 1;
    if i == n {
      assert Without(items, i) == items[..n];
    } else {
      SumWithout(items[..n], i);
      assert Without(items, i)[..n - 1] == Without(items[..n], i);
    }
  }

  lemma {:induction false} ItemsConcat(a: seq<Slot>, b: seq<Slot>)
    ensures Items(a + b) == Items(a) + Items(b)
    decreases |b|
  {
    if b == [] {
      assert a + b == a;
    } else {
      ItemsConcat(a, b[..|b| - 1]);
      assert (a + b)[..|a + b| - 1] == a + b[..|b| - 1];
    }
  }

  function Shown(slot: Slot): seq<Item> { if slot.Queued? then [slot.item] else [] }

  lemma ItemsEnds(slots: seq<Slot>, slot: Slot)
    ensures Items(slots + [slot]) == Items(slots) + Shown(slot)
    ensures Items([slot] + slots) == Shown(slot) + Items(slots)
  {
    assert [slot][..0] == [];
    ItemsConcat(slots, [slot]);
    ItemsConcat([slot], slots);
  }

  lemma {:induction false} OfConcat(a: seq<Item>, b: seq<Item>, p: Path)
    ensures Of(a + b, p) == Of(a, p) + Of(b, p)
    decreases |b|
  {
    if b == [] {
      assert a + b == a;
    } else {
      OfConcat(a, b[..|b| - 1], p);
      assert (a + b)[..|a + b| - 1] == a + b[..|b| - 1];
    }
  }

  lemma {:induction false} OfAbsent(items: seq<Item>, p: Path)
    requires p !in Paths(items)
    ensures Of(items, p) == []
    decreases |items|
  {
    if items == [] {
    } else {
      assert items[|items| - 1].path in Paths(items);
      var front := items[..|items| - 1];
      forall q | q in Paths(front) ensures q in Paths(items) {
        var i :| 0 <= i < |front| && front[i].path == q;
        assert items[i].path == q;
      }
      OfAbsent(items[..|items| - 1], p);
    }
  }

  /******* Byte accounting *******/

  /** Records the writer has taken whose bytes are still counted. */
  function Charged(w: Writer): seq<Item> {
    match w
    case Waiting => []
    case Collecting(batch) => batch
    case GotStop(batch) => batch
    case Appending(batch, _) => batch
    case Finishing(rest, _, owed) => if owed && rest != [] then rest[1..] else rest
    case Dead => []
  }

  function Live(s: System): seq<Item> { s.reserved + Items(s.queue) + Charged(s.writer) }

  ghost predicate Positive(items: seq<Item>) {
    forall item | item in items :: item.size > 0
  }

  /** The counter is the size of what is reserved, queued or in the batch; beyond the limit that is one record. */
  ghost predicate BytesInv(s: System) {
    && s.bytes == Sum(s.reserved) + Sum(Items(s.queue)) + Sum(Charged(s.writer))
    && Positive(s.reserved) && Positive(Items(s.queue)) && Positive(Charged(s.writer))
    && (s.bytes > s.limit ==> |s.reserved| + |Items(s.queue)| + |Charged(s.writer)| == 1)
  }

  lemma {:induction false} PositiveSum(items: seq<Item>)
    requires Positive(items)
    ensures Sum(items) >= |items|
    decreases |items|
  {
    if items == [] {
    } else {
      PositiveSum(items[..|items| - 1]);
    }
  }

  lemma ReserveBytes(s: System, item: Item)
    requires BytesInv(s) && Enabled(s, Reserve(item))
    ensures BytesInv(Step(s, Reserve(item)))
  {
    SumConcat(s.reserved, [item]);
    SumOne(item);
    PositiveSum(s.reserved);
    PositiveSum(Items(s.queue));
    PositiveSum(Charged(s.writer));
  }

  lemma PutBytes(s: System, i: nat)
    requires BytesInv(s) && Enabled(s, PutRecord(i))
    ensures BytesInv(Step(s, PutRecord(i)))
  {
    SumWithout(s.reserved, i);
    ItemsEnds(s.queue, Queued(s.reserved[i]));
    SumConcat(Items(s.queue), [s.reserved[i]]);
    SumOne(s.reserved[i]);
  }

  /** Giving bytes back never hits the clamp. */
  lemma AbandonBytes(s: System, i: nat)
    requires BytesInv(s) && Enabled(s, Abandon(i))
    ensures BytesInv(Step(s, Abandon(i))) && s.bytes >= s.reserved[i].size
  {
    SumWithout(s.reserved, i);
  }

  lemma TakenBytes(s: System, batch: seq<Item>)
    requires BytesInv(s) && s.queue != [] && Charged(s.writer) == batch
    ensures BytesInv(Taken(s, batch))
  {
    var slot, rest := s.queue[0], s.queue[1..];
    assert s.queue == [slot] + rest;
    ItemsEnds(rest, slot);
    SumConcat(Shown(slot), Items(rest));
    SumConcat(batch, Shown(slot));
    assert Charged(Taken(s, batch).writer) == batch + Shown(slot);
    assert Positive(batch + Shown(slot));
  }

  lemma ReleaseOneBytes(s: System)
    requires BytesInv(s) && Enabled(s, ReleaseOne)
    ensures BytesInv(Step(s, ReleaseOne)) && s.bytes >= s.writer.rest[0].size
  {
    var rest := s.writer.rest;
    assert rest == [rest[0]] + rest[1..];
    SumConcat([rest[0]], rest[1..]);
    SumOne(rest[0]);
  }

  lemma BytesCarryOver(s: System, s': System)
    requires BytesInv(s) && s'.bytes == s.bytes && s'.limit == s.limit && s'.reserved == s.reserved
    requires Items(s'.queue) == Items(s.queue) && Charged(s'.writer) == Charged(s.writer)
    ensures BytesInv(s')
  {
  }

  lemma StepBytes(s: System, e: Event)
    requires BytesInv(s) && Enabled(s, e)
    ensures BytesInv(Step(s, e))
  {
    match e
    case Reserve(item) => ReserveBytes(s, item);
    case PutRecord(i) => PutBytes(s, i);
    case Abandon(i) => AbandonBytes(s, i);
    case Get => TakenBytes(s, []);
    case GetMore => TakenBytes(s, s.writer.batch);
    case ReleaseOne => ReleaseOneBytes(s);
    case PutStop =>
      ItemsEnds(s.queue, Stop);
      BytesCarryOver(s, Step(s, e));
    case _ => BytesCarryOver(s, Step(s, e));
  }

  /******* Queue bookkeeping and order *******/

  function Held(w: Writer): nat {
    match w
    case Waiting => 0
    case Collecting(batch) => |batch|
    case GotStop(batch) => |batch| + 1
    case Appending(batch, _) => |batch|
    case Finishing(rest, _, _) => |rest|
    case Dead => 0
  }

  /** Each slot taken from the queue is marked done once and no more. */
  ghost predicate DoneInv(s: System) {
    s.unfinished == |s.queue| + Held(s.writer)
  }

  /** Records taken but not yet handed to the append. */
  function Batched(w: Writer): seq<Item> {
    if w.Collecting? || w.GotStop? || w.Appending? then w.batch else []
  }

  ghost predicate OrderInv(s: System) {
    s.accepted == s.handled + Batched(s.writer) + Items(s.queue)
  }

  /** `a` can be had from `b` by leaving records out. */
  ghost predicate Subsequence(a: seq<Record>, b: seq<Record>)
    decreases |b|
  {
    a == [] || (b != [] && (
      (a[|a| - 1] == b[|b| - 1] && Subsequence(a[..|a| - 1], b[..|b| - 1])) || Subsequence(a, b[..|b| - 1])))
  }

  lemma {:induction false} SubsequenceExtend(a: seq<Record>, b: seq<Record>, c: seq<Record>, n: nat)
    requires Subsequence(a, b) && n <= |c|
    ensures Subsequence(a + c[..n], b + c)
    decreases |c|
  {
    if c == [] {
      assert a + c[..n] == a && b + c == b;
    } else {
      var front := c[..|c| - 1];
      assert (b + c)[..|b + c| - 1] == b + front;
      if n == |c| {
        SubsequenceExtend(a, b, front, |front|);
        assert (a + c[..n])[..|a + c[..n]| - 1] == a + front[..|front|];
      } else {
        SubsequenceExtend(a, b, front, n);
        assert front[..n] == c[..n];
      }
    }
  }

  /** A file holds a subsequence of its path's handed-over records, and all of them while nothing was lost. */
  ghost predicate FileInv(s: System, p: Path) {
    && Subsequence(File(s.files, p), Of(s.handled, p))
    && (p !in s.lost ==> File(s.files, p) == Of(s.handled, p))
  }

  ghost predicate FilesInv(s: System) {
    forall p :: FileInv(s, p)
  }

  lemma TakenOrder(s: System, batch: seq<Item>)
    requires OrderInv(s) && s.queue != [] && Batched(s.writer) == batch
    ensures OrderInv(Taken(s, batch))
  {
    var slot, rest := s.queue[0], s.queue[1..];
    assert s.queue == [slot] + rest;
    ItemsEnds(rest, slot);
    assert s.handled + batch + (Shown(slot) + Items(rest)) == s.handled + (batch + Shown(slot)) + Items(rest);
    assert slot.Stop? ==> batch + Shown(slot) == batch;
  }

  lemma StepOrder(s: System, e: Event)
    requires OrderInv(s) && Enabled(s, e)
    ensures OrderInv(Step(s, e))
  {
    match e
    case PutRecord(i) =>
      ItemsEnds(s.queue, Queued(s.reserved[i]));
    case PutStop => ItemsEnds(s.queue, Stop); assert Items(s.queue) + [] == Items(s.queue);
    case Get => TakenOrder(s, []);
    case GetMore => TakenOrder(s, s.writer.batch);
    case _ =>
  }

  lemma AppendedFile(files: map<Path, seq<Record>>, batch: seq<Item>, reach: map<Path, nat>, p: Path)
    ensures File(Appended(files, batch, reach), p) == File(files, p) + Of(batch, p)[..Reached(reach, batch, p)]
    ensures p in Losses(batch, reach) <==> Reached(reach, batch, p) < |Of(batch, p)|
  {
    if p !in Paths(batch) {
      OfAbsent(batch, p);
    }
  }

  lemma AppendFile(s: System, s': System, batch: seq<Item>, reach: map<Path, nat>, p: Path)
    requires FileInv(s, p) && s'.handled == s.handled + batch
    requires s'.files == Appended(s.files, batch, reach) && s'.lost == s.lost + Losses(batch, reach)
    ensures FileInv(s', p)
  {
    AppendedFile(s.files, batch, reach, p);
    OfConcat(s.handled, batch, p);
    SubsequenceExtend(File(s.files, p), Of(s.handled, p), Of(batch, p), Reached(reach, batch, p));
  }

  lemma StepFiles(s: System, e: Event)
    requires FilesInv(s) && Enabled(s, e)
    ensures FilesInv(Step(s, e))
  {
    forall p ensures FileInv(Step(s, e), p) {
      assert FileInv(s, p);
      if e.Append? {
        AppendFile(s, Step(s, e), s.writer.batch, e.reach, p);
      }
    }
  }

  ghost predicate Inv(s: System) {
    BytesInv(s) && DoneInv(s) && OrderInv(s) && FilesInv(s)
  }

  lemma StepDone(s: System, e: Event)
    requires DoneInv(s) && Enabled(s, e)
    ensures DoneInv(Step(s, e))
  {
  }

  lemma StepKeepsInv(s: System, e: Event)
    requires Inv(s) && Enabled(s, e)
    ensures Inv(Step(s, e))
  {
    StepBytes(s, e);
    StepDone(s, e);
    StepOrder(s, e);
    StepFiles(s, e);
  }

  lemma StartHasInv(s: System)
    requires Start(s)
    ensures Inv(s)
  {
  }

  lemma {:induction false} RunKeepsInv(tr: Trace, k: nat)
    requires Run(tr) && k < |tr.states|
    ensures Inv(tr.states[k])
  {
    if k == 0 {
      StartHasInv(tr.states[0]);
    } else {
      RunKeepsInv(tr, k - 1);
      assert Leads(tr, k - 1);
      StepKeepsInv(tr.states[k - 1], tr.events[k - 1]);
    }
  }

  /******* What holds in every state of every run *******/

  /** The counter equals the sizes of all live records, and exceeds the limit only for a single oversized one. */
  lemma BytesAccounted(tr: Trace, k: nat)
    requires Run(tr) && k < |tr.states|
    ensures var s := tr.states[k];
            s.bytes == Sum(Live(s)) && (s.bytes <= s.limit || (|Live(s)| == 1 && Live(s)[0].size == s.bytes))
  {
    RunKeepsInv(tr, k);
    var s := tr.states[k];
    SumConcat(s.reserved, Items(s.queue));
    SumConcat(s.reserved + Items(s.queue), Charged(s.writer));
    if s.bytes > s.limit {
      SumOne(Live(s)[0]);
      assert Live(s) == [Live(s)[0]];
    }
  }

  /**
   A producer may reserve a record in a reachable state if and only if it fits beside all live records, or it is larger
   than the limit and nothing is live.
   */
  lemma ReserveExactly(tr: Trace, k: nat, item: Item)
    requires Run(tr) && k < |tr.states| && item.size > 0
    ensures var s := tr.states[k];
            Enabled(s, Reserve(item)) <==>
              Sum(Live(s)) + item.size <= s.limit || (item.size > s.limit && Live(s) == [])
  {
    RunKeepsInv(tr, k);
    BytesAccounted(tr, k);
    var s := tr.states[k];
    if Live(s) != [] {
      PositiveSum(Live(s));
    }
  }

  /** With nothing live, any record may be reserved. */
  lemma IdleAcceptsAny(tr: Trace, k: nat, item: Item)
    requires Run(tr) && k < |tr.states| && item.size > 0 && Live(tr.states[k]) == []
    ensures Enabled(tr.states[k], Reserve(item))
  {
    ReserveExactly(tr, k, item);
  }

  /** The clamp in the release never fires. */
  lemma ReleaseNeverClamps(tr: Trace, k: nat)
    requires Run(tr) && k < |tr.events| && (tr.events[k].ReleaseOne? || tr.events[k].Abandon?)
    ensures var s, e := tr.states[k], tr.events[k];
            && Enabled(s, e)
            && tr.states[k + 1].bytes ==
                s.bytes - (if e.ReleaseOne? then s.writer.rest[0] else s.reserved[e.producer]).size
            && tr.states[k + 1].bytes >= 0
  {
    RunKeepsInv(tr, k);
    assert Leads(tr, k);
    if tr.events[k].ReleaseOne? {
      ReleaseOneBytes(tr.states[k]);
    } else {
      AbandonBytes(tr.states[k], tr.events[k].producer);
    }
  }

  /**
   `join` returns (no unfinished work) exactly when nothing is queued or in the writer's hands; then all is handled.
   */
  lemma JoinMeansDrained(tr: Trace, k: nat)
    requires Run(tr) && k < |tr.states|
    ensures var s := tr.states[k];
            && s.unfinished >= 0
            && (s.unfinished == 0 <==> s.queue == [] && Held(s.writer) == 0)
            && (s.unfinished == 0 ==> s.handled == s.accepted)
  {
    RunKeepsInv(tr, k);
  }

  /**
   Batching keeps each path's order: a file is a subsequence of what was accepted for it, and a prefix if nothing was
   lost.
   */
  lemma OrderPreserved(tr: Trace, k: nat, p: Path)
    requires Run(tr) && k < |tr.states|
    ensures var s := tr.states[k];
            && Subsequence(File(s.files, p), Of(s.accepted, p))
            && (p !in s.lost ==> File(s.files, p) <= Of(s.accepted, p))
            && (p !in s.lost && s.unfinished == 0 ==> File(s.files, p) == Of(s.accepted, p))
  {
    RunKeepsInv(tr, k);
    var s := tr.states[k];
    var later := Batched(s.writer) + Items(s.queue);
    assert s.accepted == s.handled + later;
    OfConcat(s.handled, later, p);
    assert FileInv(s, p);
    SubsequenceExtend(File(s.files, p), Of(s.handled, p), Of(later, p), 0);
    assert File(s.files, p) + Of(later, p)[..0] == File(s.files, p);
    JoinMeansDrained(tr, k);
  }

  /******* When the writer stops *******/

  /** The writer has met a stop marker or an exception, or is dead. */
  predicate Stopping(w: Writer) {
    w.GotStop? || (w.Appending? && w.stop) || (w.Finishing? && w.stop) || w.Dead?
  }

  /** Nothing on the way to the writer or in its hands tells it to stop. */
  ghost predicate Unstopped(s: System) {
    !Stopping(s.writer) && forall i | 0 <= i < |s.queue| :: s.queue[i].Queued?
  }

  lemma StepUnstopped(s: System, e: Event)
    requires Unstopped(s) && Enabled(s, e) && e != PutStop && !(e.Append? && e.raised)
    ensures Unstopped(Step(s, e))
  {
  }

  /** A started writer lives on as long as nobody queues a stop marker and no append raises. */
  lemma {:induction false} WriterLivesOn(tr: Trace, i: nat, j: nat)
    requires Run(tr) && i <= j < |tr.states| && Unstopped(tr.states[i])
    requires forall k | i <= k < j :: tr.events[k] != PutStop && !(tr.events[k].Append? && tr.events[k].raised)
    ensures Unstopped(tr.states[j]) && !tr.states[j].writer.Dead?
    decreases j
  {
    if i == j {
    } else {
      WriterLivesOn(tr, i, j - 1);
      assert Leads(tr, j - 1);
      StepUnstopped(tr.states[j - 1], tr.events[j - 1]);
    }
  }

  /** Once it has met a stop marker or an exception, it takes nothing more from the queue until it is started again. */
  lemma {:induction false} StoppingWriterTakesNothing(tr: Trace, i: nat, j: nat)
    requires Run(tr) && i <= j < |tr.events| && Stopping(tr.states[i].writer)
    requires forall k | i <= k < j :: tr.events[k] != StartWriter
    ensures Stopping(tr.states[j].writer) && tr.events[j] != Get && tr.events[j] != GetMore
    decreases j
  {
    assert Leads(tr, j);
    if i == j {
    } else {
      StoppingWriterTakesNothing(tr, i, j - 1);
      assert Leads(tr, j - 1);
    }
  }
}
