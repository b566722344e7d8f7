/**
 The byte-budgeted conversation archive queue, app/core/conversation_archive.py: concurrent producers and one
 batching writer thread.
 */
module ArchiveQueue {

  type Path = string
  type Record = string

  /** A queued record with its serialized size, which counts the newline and so is positive. */
  datatype Item = Item(path: Path, record: Record, size: nat)

  /** What the queue holds: a record, or the marker that tells the writer to stop. */
  datatype Slot = Queued(item: Item) | Stop

  /** How far a producer gets without waiting. */
  datatype Enqueued = Done | NeedsBytes | NeedsRoom

  const MAX_RECORDS := 4096

  function Sum(items: seq<Item>): nat {
    if items == [] then 0 else Sum(items[..|items| - 1]) + items[|items| - 1].size
  }

  function Items(slots: seq<Slot>): seq<Item> {
    if slots == [] then []
    else Items(slots[..|slots| - 1]) + if slots[|slots| - 1].Queued? then [slots[|slots| - 1].item] else []
  }

  /** The records of one path, in order. */
  function Of(items: seq<Item>, path: Path): seq<Record> {
    if items == [] then []
    else Of(items[..|items| - 1], path) + if items[|items| - 1].path == path then [items[|items| - 1].record] else []
  }

  predicate CanReserve(bytes: nat, limit: nat, size: nat) {
    bytes + size <= limit || (size > limit && bytes == 0)
  }

  /** The grouping loop of `_append_records`: every path keeps its records in batch order. */
  method GroupByPath(items: seq<Item>) returns (grouped: map<Path, seq<Record>>)
    ensures forall p :: p in grouped <==> Of(items, p) != []
    ensures forall p | p in grouped :: grouped[p] == Of(items, p)
  {
    grouped := map[];
    for n := 0 to |items|
      invariant forall p :: p in grouped <==> Of(items[..n], p) != []
      invariant forall p | p in grouped :: grouped[p] == Of(items[..n], p)
    {
      assert items[..n + 1][..n] == items[..n];
      var Item(path, record, _) := items[n];
      var records := if path in grouped then grouped[path] else [];
      grouped := grouped[path := records + [record]];
    }
    assert items[..|items|] == items;
  }

  /** The counter and the queue, whose methods are the source's critical sections. */
  class Archive {
    var bytes: nat
    var queue: seq<Slot>
    var unfinished: int
    const limit: nat

    constructor (limit: nat)
      ensures bytes == 0 && queue == [] && unfinished == 0
      ensures this.limit == if limit < 1 then 1 else limit
    {
      bytes, queue, unfinished := 0, [], 0;
      this.limit := if limit < 1 then 1 else limit;
    }

    method Reserve(size: nat) returns (ok: bool)
      modifies this`bytes
      ensures ok <==> old(bytes) + size <= limit || (size > limit && old(bytes) == 0)
      ensures bytes == old(bytes) + if ok then size else 0
    {
      ok := CanReserve(bytes, limit, size);
      if ok {
        bytes := bytes + size;
      }
    }

    method Release(size: nat)
      modifies this`bytes
      ensures bytes == if old(bytes) < size then 0 else old(bytes) - size
    {
      bytes := if bytes - size < 0 then 0 else bytes - size;
    }

    method Put(slot: Slot)
      modifies this`queue, this`unfinished
      ensures queue == old(queue) + [slot] && unfinished == old(unfinished) + 1
    {
      queue := queue + [slot];
      unfinished := unfinished + 1;
    }

    /**
     A producer up to the point where it has to wait: for bytes, having reserved nothing, or for room in the queue,
     holding its reservation.
     */
    method EnqueueRecord(item: Item) returns (outcome: Enqueued)
      modifies this
      ensures outcome.NeedsBytes? <==>
                old(bytes) + item.size > limit && (item.size <= limit || old(bytes) > 0)
      ensures outcome.NeedsRoom? <==> !outcome.NeedsBytes? && |old(queue)| >= 4096
      ensures bytes == old(bytes) + if outcome.NeedsBytes? then 0 else item.size
      ensures queue == old(queue) + if outcome.Done? then [Queued(item)] else []
      ensures unfinished == old(unfinished) + if outcome.Done? then 1 else 0
    {
      var reserved := Reserve(item.size);
      if !reserved {
        return NeedsBytes;
      }
      if |queue| >= MAX_RECORDS {
        return NeedsRoom;
      }
      Put(Queued(item));
      outcome := Done;
    }

    /** Takes slots up to and including the first stop marker; the marker is marked done at once. */
    method TakeBatch() returns (batch: seq<Item>, stop: bool, ghost n: nat)
      modifies this`queue, this`unfinished
      ensures n <= |old(queue)| && batch == Items(old(queue)[..n]) && queue == old(queue)[n..]
      ensures (stop <==> n > 0 && old(queue)[n - 1].Stop?) && (!stop ==> queue == [])
      ensures forall i | 0 <= i < n - 1 :: old(queue)[i].Queued?
      ensures |batch| == n - (if stop then 1 else 0) && unfinished == old(unfinished) - if stop then 1 else 0
    {
      batch, stop, n := [], false, 0;
      ghost var before := queue;
      while queue != [] && !stop
        invariant n <= |before| && queue == before[n..] && batch == Items(before[..n])
        invariant unfinished == old(unfinished) - if stop then 1 else 0
        invariant stop <==> n > 0 && before[n - 1].Stop?
        invariant |batch| == n - if stop then 1 else 0
        invariant forall i | 0 <= i < n - 1 :: before[i].Queued?
        decreases |queue|
      {
        var slot := queue[0];
        assert before[..n + 1][..n] == before[..n];
        queue, n := queue[1..], n + 1;
        if slot.Stop? {
          stop := true;
          unfinished := unfinished - 1;
        } else {
          batch := batch + [slot.item];
        }
      }
    }

    /** The `finally` loop: given that the batch's bytes are reserved, the clamp in Release never fires. */
    method FinishBatch(batch: seq<Item>)
      requires bytes >= Sum(batch)
      modifies this`bytes, this`unfinished
      ensures bytes == old(bytes) - Sum(batch) && unfinished == old(unfinished) - |batch|
    {
      for k := 0 to |batch|
        invariant bytes == old(bytes) - Sum(batch[..k]) && unfinished == old(unfinished) - k
      {
        assert batch[..k + 1][..k] == batch[..k];
        SumPrefix(batch, k + 1);
        Release(batch[k].size);
        unfinished := unfinished - 1;
      }
      assert batch[..|batch|] == batch;
    }

    /**
     One uninterrupted round of the writer loop: it takes the records up to the first stop marker, releases exactly
     their bytes and marks exactly the taken slots done.
     */
    method WriterRound() returns (batch: seq<Item>, stop: bool, ghost n: nat)
      requires bytes >= Sum(Items(queue))
      modifies this
      ensures n <= |old(queue)| && batch == Items(old(queue)[..n]) && queue == old(queue)[n..]
      ensures stop <==> n > 0 && old(queue)[n - 1].Stop?
      ensures unfinished == old(unfinished) - n && bytes == old(bytes) - Sum(batch)
    {
      ghost var before := queue;
      batch, stop, n := TakeBatch();
      ItemsSum(before, n);
      FinishBatch(batch);
    }
  }

  lemma {:induction false} SumPrefix(items: seq<Item>, k: nat)
    requires k <= |items|
    ensures Sum(items[..k]) <= Sum(items)
    decreases |items|
  {
    if k < |items| {
      SumPrefix(items[..|items| - 1], k);
      assert items[..|items| - 1][..k] == items[..k];
    } else {
      assert items[..k] == items;
    }
  }

  lemma {:induction false} ItemsSum(slots: seq<Slot>, n: nat)
    requires n <= |slots|
    ensures Sum(Items(slots[..n])) <= Sum(Items(slots))
    decreases |slots|
  {
    if n < |slots| {
      ItemsSum(slots[..|slots| - 1], n);
      assert slots[..|slots| - 1][..n] == slots[..n];
      var front, all := Items(slots[..|slots| - 1]), Items(slots);
      assert all[..|front|] == front;
      SumPrefix(all, |front|);
    } else {
      assert slots[..n] == slots;
    }
  }
}
