/** The versioned API-key cache of app/core/auth/api_key_cache.py. */
module ApiKeyCaching {
  import opened Basics
  import opened Listings

  datatype Entry<+D> = Entry(data: D, expiresAt: real)

  /** The dictionary and the counter that `invalidate` and `clear` advance. */
  datatype Cache<D> = Cache(entries: map<string, Entry<D>>, version: nat)

  function Dropped<D>(entries: map<string, Entry<D>>, key: Option<string>): map<string, Entry<D>> {
    if key.None? then entries else entries - {key.value}
  }

  /** `set`: refused when the version moved since the caller looked, otherwise stored after an eviction. */
  function Stored<D>(c: Cache<D>, key: string, entry: Entry<D>, ifVersion: Option<nat>,
                     evicted: Option<string>): Cache<D> {
    if ifVersion.Some? && ifVersion.value != c.version then c
    else c.(entries := Dropped(c.entries, evicted)[key := entry])
  }

  function Invalidated<D>(c: Cache<D>, key: string): Cache<D> {
    Cache(c.entries - {key}, c.version + 1)
  }

  function Cleared<D>(c: Cache<D>): Cache<D> {
    Cache(map[], c.version + 1)
  }

  ghost predicate IsOldest<D(!new)>(entries: map<string, Entry<D>>, key: string) {
    key in entries && forall k | k in entries :: entries[key].expiresAt <= entries[k].expiresAt
  }

  /** Every non-empty dictionary has an entry that expires first. */
  lemma {:induction false} OldestExists<D(!new)>(entries: map<string, Entry<D>>)
    requires entries != map[]
    ensures exists key :: IsOldest(entries, key)
    decreases |entries|
  {
    var k :| k in entries;
    var rest := entries - {k};
    assert entries.Keys == rest.Keys + {k};
    if rest == map[] {
      assert forall j | j in entries :: j == k;
      assert IsOldest(entries, k);
    } else {
      OldestExists(rest);
      var m :| IsOldest(rest, m);
      assert forall j | j in entries :: j == k || (j in rest && rest[j] == entries[j]);
      assert IsOldest(entries, if entries[k].expiresAt <= rest[m].expiresAt then k else m);
    }
  }

  class ApiKeyCache<D(!new)> {
    var entries: map<string, Entry<D>>
    var version: nat
    const ttl: real
    const maxEntries: nat

    function State(): Cache<D>
      reads this
    {
      Cache(entries, version)
    }

    ghost predicate Bounded()
      reads this
    {
      |entries| <= maxEntries
    }

    constructor (ttl: real, maxEntries: nat)
      ensures State() == Cache(map[], 0) && Bounded()
      ensures this.ttl == ttl && this.maxEntries == maxEntries
    {
      this.ttl := ttl;
      this.maxEntries := maxEntries;
      entries := map[];
      version := 0;
    }

    method Get(key: string, now: real) returns (data: Option<D>)
      ensures data.Some? <==> key in entries && now < entries[key].expiresAt
      ensures data.Some? ==> data.value == entries[key].data
    {
      if key in entries && now < entries[key].expiresAt {
        data := Some(entries[key].data);
      } else {
        data := None;
      }
    }

    /** `raised` is the ValueError that picking an oldest entry from an empty dictionary raises. */
    method Set(key: string, data: D, ifVersion: Option<nat>, now: real)
        returns (raised: bool, ghost evicted: Option<string>)
      requires Bounded()
      modifies this`entries
      ensures Bounded()
      ensures raised <==> maxEntries == 0 && !(ifVersion.Some? && ifVersion.value != version)
      ensures raised || (ifVersion.Some? && ifVersion.value != version) ==> State() == old(State())
      ensures !raised && (ifVersion.Some? ==> ifVersion.value == version) ==>
                && key in entries && entries[key] == Entry(data, now + ttl)
                && forall k | k != key && evicted != Some(k) ::
                     (k in entries <==> k in old(entries)) && (k in entries ==> entries[k] == old(entries)[k])
      ensures !raised ==> State() == Stored(old(State()), key, Entry(data, now + ttl), ifVersion, evicted)
      ensures evicted.Some? ==> old(|entries| == maxEntries) && IsOldest(old(entries), evicted.value)
      ensures evicted.None? && key !in old(entries) && State() != old(State()) ==> old(|entries|) < maxEntries
    {
      raised, evicted := false, None;
      if ifVersion.Some? && ifVersion.value != version {
        return;
      }
      if |entries| >= maxEntries {
        if entries == map[] {
          raised := true;
          return;
        }
        OldestExists(entries);
        var oldest :| oldest in entries && forall k | k in entries :: entries[oldest].expiresAt <= entries[k].expiresAt;
        assert entries.Keys == (entries - {oldest}).Keys + {oldest};
        entries := entries - {oldest};
        evicted := Some(oldest);
      }
      ghost var before := entries;
      entries := entries[key := Entry(data, now + ttl)];
      assert entries.Keys == before.Keys + {key};
    }

    method Invalidate(key: string)
      requires Bounded()
      modifies this`entries, this`version
      ensures State() == Invalidated(old(State()), key) && Bounded()
      ensures key !in entries && version == old(version) + 1
      ensures forall k | k != key ::
              (k in entries <==> k in old(entries)) && (k in entries ==> entries[k] == old(entries)[k])
    {
      assert (entries - {key}).Keys <= entries.Keys;
      SubsetSize((entries - {key}).Keys, entries.Keys);
      entries := entries - {key};
      version := version + 1;
    }

    method Clear()
      modifies this`entries, this`version
      ensures State() == Cleared(old(State())) && Bounded()
      ensures entries == map[] && version == old(version) + 1
    {
      entries := map[];
      version := version + 1;
    }
  }
}
