/**
  The namespaced in-memory cache (internal/cache/memory.go): one flat map, a
  counter per namespace, expiry and LRU eviction.  Each critical section of
  the source is one operation here, so any sequence of operations is an
  interleaving of concurrent callers.
 */
module MemoryCache {
  import opened Wrappers

  const MaxInt64 := 0x7FFF_FFFF_FFFF_FFFF

  // A clock reading in nanoseconds; int64 and never the sentinel evictLRU
  // starts from.
  type Instant = t: int | t < MaxInt64

  // No expiry is the zero time in the source.
  datatype Entry = Entry(value: string, expires: Option<int>, lastAccess: Instant)

  type Entries = map<string, Entry>

  predicate Expired(e: Entry, now: Instant) {
    e.expires.Some? && now > e.expires.value
  }

  /* ----- storage keys ----- */

  predicate NulFree(ns: string) {
    '\0' !in ns
  }

  function Prefix(ns: string): string {
    ns + "\0"
  }

  function StorageKey(ns: string, key: string): string {
    Prefix(ns) + key
  }

  predicate HasPrefix(k: string, prefix: string) {
    |prefix| <= |k| && k[..|prefix|] == prefix
  }

  // The part of a storage key before its first NUL (strings.Cut).
  function Cut(k: string): string {
    if k == "" || k[0] == '\0' then "" else [k[0]] + Cut(k[1..])
  }

  lemma {:induction false} CutOfPrefixed(ns: string, rest: string)
    requires NulFree(ns)
    ensures Cut(ns + "\0" + rest) == ns
  {
    if ns != "" {
      assert (ns + "\0" + rest)[1..] == ns[1..] + "\0" + rest;
      CutOfPrefixed(ns[1..], rest);
    }
  }

  // A storage key belongs to one namespace only, and names one key of it.
  lemma NamespaceOfKey(k: string, ns: string)
    requires NulFree(ns) && HasPrefix(k, Prefix(ns))
    ensures Cut(k) == ns
  {
    assert k == ns + "\0" + k[|ns| + 1..];
    CutOfPrefixed(ns, k[|ns| + 1..]);
  }

  lemma StorageKeysDistinct(ns: string, key: string, ns': string, key': string)
    requires NulFree(ns) && NulFree(ns') && StorageKey(ns, key) == StorageKey(ns', key')
    ensures ns == ns' && key == key'
  {
    var k := StorageKey(ns, key);
    assert HasPrefix(k, Prefix(ns)) && HasPrefix(k, Prefix(ns'));
    NamespaceOfKey(k, ns);
    NamespaceOfKey(k, ns');
    assert key == k[|ns| + 1..] && key' == k[|ns| + 1..];
  }

  /* ----- the counter index ----- */

  ghost function KeysOf(entries: Entries, ns: string): set<string> {
    set k | k in entries && HasPrefix(k, Prefix(ns))
  }

  // Go's reading of a missing map key.
  function CountOf(counts: map<string, int>, ns: string): int {
    if ns in counts then counts[ns] else 0
  }

  ghost predicate Owned(k: string) {
    exists ns :: NulFree(ns) && HasPrefix(k, Prefix(ns))
  }

  ghost predicate Indexed(entries: Entries, counts: map<string, int>) {
    && (forall k :: k in entries ==> Owned(k))
    && (forall ns :: NulFree(ns) ==> CountOf(counts, ns) == |KeysOf(entries, ns)|)
  }

  ghost predicate WithinLimit(entries: Entries, max: int) {
    max > 0 ==> forall ns :: NulFree(ns) ==> |KeysOf(entries, ns)| <= max
  }

  lemma RemovedKeys(entries: Entries, k: string, ns: string, other: string)
    requires k in entries && NulFree(ns) && HasPrefix(k, Prefix(ns)) && NulFree(other)
    ensures |KeysOf(entries - {k}, other)| == |KeysOf(entries, other)| - (if other == ns then 1 else 0)
  {
    if other == ns {
      assert KeysOf(entries - {k}, ns) == KeysOf(entries, ns) - {k};
    } else {
      if HasPrefix(k, Prefix(other)) {
        NamespaceOfKey(k, ns);
        NamespaceOfKey(k, other);
      }
      assert KeysOf(entries - {k}, other) == KeysOf(entries, other);
    }
  }

  lemma RemoveKeepsIndex(entries: Entries, counts: map<string, int>, k: string, ns: string)
    requires Indexed(entries, counts) && k in entries && NulFree(ns) && HasPrefix(k, Prefix(ns))
    ensures Indexed(entries - {k}, counts[ns := CountOf(counts, ns) - 1])
  {
    forall other | NulFree(other)
      ensures CountOf(counts[ns := CountOf(counts, ns) - 1], other) == |KeysOf(entries - {k}, other)|
    {
      RemovedKeys(entries, k, ns, other);
    }
  }

  lemma StoredKeys(entries: Entries, k: string, e: Entry, ns: string, other: string)
    requires NulFree(ns) && HasPrefix(k, Prefix(ns)) && NulFree(other)
    ensures |KeysOf(entries[k := e], other)| == |KeysOf(entries, other)| + (if other == ns && k !in entries then 1 else 0)
  {
    if other == ns {
      assert KeysOf(entries[k := e], ns) == KeysOf(entries, ns) + {k};
    } else {
      if HasPrefix(k, Prefix(other)) {
        NamespaceOfKey(k, ns);
        NamespaceOfKey(k, other);
      }
      assert KeysOf(entries[k := e], other) == KeysOf(entries, other);
    }
  }

  lemma StoreKeepsIndex(entries: Entries, counts: map<string, int>, k: string, e: Entry, ns: string)
    requires Indexed(entries, counts) && NulFree(ns) && HasPrefix(k, Prefix(ns))
    ensures Indexed(entries[k := e], if k in entries then counts else counts[ns := CountOf(counts, ns) + 1])
  {
    var counts' := if k in entries then counts else counts[ns := CountOf(counts, ns) + 1];
    forall other | NulFree(other) ensures CountOf(counts', other) == |KeysOf(entries[k := e], other)| {
      StoredKeys(entries, k, e, ns, other);
    }
  }

  /* ----- operations ----- */

  // One critical section each.  `created` and `touched` are the readings Set
  // takes before it locks; Cleanup reads the clock once per listed key.
  datatype Op =
    | Set(ns: string, key: string, value: string, ttl: int, created: Instant, touched: Instant, now: Instant)
    | Del(ns: string, key: string, now: Instant)
    | Flush(ns: string, now: Instant)
    | Read(ns: string, key: string, at: Instant, now: Instant)
    | Expire(ns: string, key: string, now: Instant)
    | Cleanup(keys: seq<string>, clock: seq<Instant>, now: Instant)

  datatype Config = Config(maxPerNS: int, maxSize: int)

  function Fresh(op: Op): Entry
    requires op.Set?
  {
    Entry(op.value, if op.ttl > 0 then Some(op.created + op.ttl) else None, op.touched)
  }

  predicate TooLarge(cfg: Config, op: Op)
    requires op.Set?
  {
    cfg.maxSize > 0 && |op.value| > cfg.maxSize
  }

  // The entries of a namespace without the expired ones.
  function Swept(entries: Entries, ns: string, now: Instant): Entries {
    entries - Dead(entries, ns, now)
  }

  function Dead(entries: Entries, ns: string, now: Instant): set<string> {
    set k | k in entries && HasPrefix(k, Prefix(ns)) && Expired(entries[k], now)
  }

  ghost predicate LeastRecent(entries: Entries, ns: string, k: string) {
    && k in KeysOf(entries, ns)
    && forall other :: other in KeysOf(entries, ns) ==> entries[k].lastAccess <= entries[other].lastAccess
  }

  // Eviction sweeps the namespace and, if it is still over the limit, drops
  // one entry with the least last-access time.
  ghost predicate Evicted(max: int, before: Entries, ns: string, now: Instant, after: Entries) {
    var swept := Swept(before, ns, now);
    if |KeysOf(swept, ns)| <= max then after == swept
    else exists k :: LeastRecent(swept, ns, k) && after == swept - {k}
  }

  function Flushed(entries: Entries, ns: string): Entries {
    entries - Flushable(entries, ns)
  }

  function Flushable(entries: Entries, ns: string): set<string> {
    set k | k in entries && |k| > |Prefix(ns)| && HasPrefix(k, Prefix(ns))
  }

  function Cleaned(entries: Entries, keys: seq<string>, clock: seq<Instant>): Entries
    requires |keys| == |clock|
  {
    if keys == [] then entries
    else
      var last := |keys| - 1;
      var before := Cleaned(entries, keys[..last], clock[..last]);
      if keys[last] in before && Expired(before[keys[last]], clock[last]) then before - {keys[last]} else before
  }

  ghost predicate Step(cfg: Config, before: Entries, op: Op, after: Entries) {
    match op
    case Set(ns, key, _, _, _, _, now) =>
      if TooLarge(cfg, op) then after == before
      else
        var stored := before[StorageKey(ns, key) := Fresh(op)];
        if cfg.maxPerNS > 0 && |KeysOf(stored, ns)| > cfg.maxPerNS then Evicted(cfg.maxPerNS, stored, ns, now, after)
        else after == stored
    case Del(ns, key, _) => after == before - {StorageKey(ns, key)}
    case Flush(ns, _) => after == Flushed(before, ns)
    case Read(ns, key, at, now) =>
      var k := StorageKey(ns, key);
      after == if k in before && !Expired(before[k], at) then before[k := before[k].(lastAccess := now)] else before
    case Expire(ns, key, now) =>
      var k := StorageKey(ns, key);
      after == if k in before && Expired(before[k], now) then before - {k} else before
    case Cleanup(keys, clock, now) =>
      |keys| == |clock| && after == Cleaned(before, keys, clock)
  }

  // What Get answers in its first phase.
  datatype Lookup = Miss | Stale | Hit(value: string)

  function Found(entries: Entries, k: string, at: Instant): Lookup {
    if k !in entries then Miss else if Expired(entries[k], at) then Stale else Hit(entries[k].value)
  }

  class MemoryStore {
    var entries: Entries
    var nsCounts: map<string, int>
    const cfg: Config

    ghost predicate Valid() reads this {
      Indexed(entries, nsCounts) && WithinLimit(entries, cfg.maxPerNS)
    }

    constructor (cfg: Config)
      ensures this.cfg == cfg && entries == map[] && nsCounts == map[] && Valid()
    {
      this.cfg, entries, nsCounts := cfg, map[], map[];
      new;
      assert forall ns :: KeysOf(entries, ns) == {};
    }

    // Deletes one entry and decrements its namespace's counter.
    method Remove(k: string, ns: string)
      requires Indexed(entries, nsCounts) && k in entries && NulFree(ns) && HasPrefix(k, Prefix(ns))
      modifies this
      ensures entries == old(entries) - {k} && Indexed(entries, nsCounts)
    {
      var count := CountOf(nsCounts, ns);
      RemoveKeepsIndex(entries, nsCounts, k, ns);
      entries, nsCounts := entries - {k}, nsCounts[ns := count - 1];
    }

    // First phase of Get, under the read lock.
    method GetRead(ns: string, key: string, at: Instant, now: Instant) returns (r: Lookup)
      requires Valid() && NulFree(ns)
      modifies this`entries
      ensures Valid() && Step(cfg, old(entries), Read(ns, key, at, now), entries)
      ensures r == Found(old(entries), StorageKey(ns, key), at)
    {
      var k := StorageKey(ns, key);
      if k !in entries {
        return Miss;
      }
      if Expired(entries[k], at) {
        return Stale;
      }
      r := Hit(entries[k].value);
      ghost var was := entries;
      entries := entries[k := entries[k].(lastAccess := now)];
      forall other ensures KeysOf(entries, other) == KeysOf(was, other) {
      }
    }

    // Second phase of Get, under the write lock, after a stale read.
    method GetExpire(ns: string, key: string, now: Instant)
      requires Valid() && NulFree(ns)
      modifies this
      ensures Valid() && Step(cfg, old(entries), Expire(ns, key, now), entries)
    {
      var k := StorageKey(ns, key);
      if k in entries && Expired(entries[k], now) {
        assert HasPrefix(k, Prefix(ns));
        SmallerKeepsLimit(entries, entries - {k}, cfg.maxPerNS);
        Remove(k, ns);
      }
    }

    method Del(ns: string, key: string, now: Instant) returns (existed: bool)
      requires Valid() && NulFree(ns)
      modifies this
      ensures Valid() && Step(cfg, old(entries), Op.Del(ns, key, now), entries)
      ensures existed == (StorageKey(ns, key) in old(entries))
    {
      var k := StorageKey(ns, key);
      existed := k in entries;
      if existed {
        assert HasPrefix(k, Prefix(ns));
        SmallerKeepsLimit(entries, entries - {k}, cfg.maxPerNS);
        Remove(k, ns);
      } else {
        assert entries - {k} == entries;
      }
    }

    method Set(ns: string, key: string, value: string, ttl: int, created: Instant, touched: Instant, now: Instant) returns (ok: bool)
      requires Valid() && NulFree(ns)
      modifies this
      ensures Valid() && Step(cfg, old(entries), Op.Set(ns, key, value, ttl, created, touched, now), entries)
      ensures ok == !TooLarge(cfg, Op.Set(ns, key, value, ttl, created, touched, now))
    {
      ghost var op := Op.Set(ns, key, value, ttl, created, touched, now);
      if cfg.maxSize > 0 && |value| > cfg.maxSize {
        return false;
      }
      var k := StorageKey(ns, key);
      var e := Entry(value, if ttl > 0 then Some(created + ttl) else None, touched);
      assert HasPrefix(k, Prefix(ns));
      StoreAndTrim(k, e, ns, now);
      return true;
    }

    // What Set does under its lock.
    method StoreAndTrim(k: string, e: Entry, ns: string, now: Instant)
      requires Valid() && NulFree(ns) && HasPrefix(k, Prefix(ns))
      modifies this
      ensures Valid()
      ensures var stored := old(entries)[k := e];
              if cfg.maxPerNS > 0 && |KeysOf(stored, ns)| > cfg.maxPerNS then Evicted(cfg.maxPerNS, stored, ns, now, entries)
              else entries == stored
    {
      Store(k, e, ns);
      if cfg.maxPerNS > 0 && CountOf(nsCounts, ns) > cfg.maxPerNS {
        EvictLRU(ns, now);
      }
    }

    // Stores one entry and counts it when its key is new.
    method Store(k: string, e: Entry, ns: string)
      requires Valid() && NulFree(ns) && HasPrefix(k, Prefix(ns))
      modifies this
      ensures entries == old(entries)[k := e] && Indexed(entries, nsCounts)
      ensures cfg.maxPerNS > 0 ==> OverByOne(entries, ns, cfg.maxPerNS)
      ensures cfg.maxPerNS <= 0 || CountOf(nsCounts, ns) <= cfg.maxPerNS ==> WithinLimit(entries, cfg.maxPerNS)
    {
      StoreKeepsIndex(entries, nsCounts, k, e, ns);
      StoreGrowsByOne(entries, k, e, ns, cfg.maxPerNS);
      var isNew := k !in entries;
      entries := entries[k := e];
      if isNew {
        nsCounts := nsCounts[ns := CountOf(nsCounts, ns) + 1];
      }
    }

    method EvictLRU(ns: string, now: Instant)
      requires Indexed(entries, nsCounts) && NulFree(ns) && cfg.maxPerNS > 0
      requires OverByOne(entries, ns, cfg.maxPerNS)
      modifies this
      ensures Valid() && Evicted(cfg.maxPerNS, old(entries), ns, now, entries)
    {
      SweepExpired(ns, now);
      SweptLimit(old(entries), ns, now, cfg.maxPerNS);
      if CountOf(nsCounts, ns) <= cfg.maxPerNS {
        return;
      }
      var k := FindLeastRecent(ns);
      RemovedLimit(entries, k, ns, cfg.maxPerNS);
      Remove(k, ns);
    }

    method SweepExpired(ns: string, now: Instant)
      requires Indexed(entries, nsCounts) && NulFree(ns)
      modifies this
      ensures Indexed(entries, nsCounts) && entries == Swept(old(entries), ns, now)
    {
      ghost var before := entries;
      var todo := entries.Keys;
      SweepBegins(before, ns, now);
      while todo != {}
        invariant todo <= before.Keys
        invariant Indexed(entries, nsCounts) && entries == PartlySwept(before, todo, ns, now)
        decreases todo
      {
        var k :| k in todo;
        SweepStep(before, todo, k, ns, now);
        SweepOne(k, ns, now);
        todo := todo - {k};
      }
      SweepEnds(before, ns, now);
    }

    method SweepOne(k: string, ns: string, now: Instant)
      requires Indexed(entries, nsCounts) && NulFree(ns) && k in entries
      modifies this
      ensures Indexed(entries, nsCounts)
      ensures entries == if HasPrefix(k, Prefix(ns)) && Expired(old(entries)[k], now) then old(entries) - {k} else old(entries)
    {
      if HasPrefix(k, Prefix(ns)) && Expired(entries[k], now) {
        Remove(k, ns);
      }
    }

    // The second loop of evictLRU, which starts from the largest int64.
    method FindLeastRecent(ns: string) returns (oldestKey: string)
      requires KeysOf(entries, ns) != {}
      ensures LeastRecent(entries, ns, oldestKey)
    {
      oldestKey := "";
      var oldestAccess := MaxInt64;
      var todo := entries.Keys;
      ghost var seen := {};
      while todo != {}
        invariant todo + seen == entries.Keys
        invariant oldestAccess == MaxInt64 ==> seen * KeysOf(entries, ns) == {}
        invariant oldestAccess != MaxInt64 ==> oldestKey in KeysOf(entries, ns) && entries[oldestKey].lastAccess == oldestAccess
        invariant forall other :: other in seen && other in KeysOf(entries, ns) ==> oldestAccess <= entries[other].lastAccess
        decreases todo
      {
        var k :| k in todo;
        todo, seen := todo - {k}, seen + {k};
        if HasPrefix(k, Prefix(ns)) {
          var access := entries[k].lastAccess;
          if access < oldestAccess {
            oldestAccess, oldestKey := access, k;
          }
        }
      }
      assert seen == entries.Keys;
    }

    // Deletes the entries of a namespace and forgets its counter.  The loop
    // passes over an entry whose key is empty, so the index survives exactly
    // when the namespace has no such entry.
    method Flush(ns: string, now: Instant) returns (count: nat)
      requires Valid() && NulFree(ns)
      modifies this
      ensures Step(cfg, old(entries), Op.Flush(ns, now), entries)
      ensures Valid() <==> StorageKey(ns, "") !in old(entries)
      ensures count == |Flushable(old(entries), ns)|
    {
      FlushIndex(entries, nsCounts, ns);
      SmallerKeepsLimit(entries, Flushed(entries, ns), cfg.maxPerNS);
      count := DeleteAll(ns);
      nsCounts := nsCounts - {ns};
    }

    method DeleteAll(ns: string) returns (count: nat)
      modifies this`entries
      ensures entries == Flushed(old(entries), ns)
      ensures count == |Flushable(old(entries), ns)|
    {
      ghost var before, doomed := entries, Flushable(entries, ns);
      count := 0;
      var todo := entries.Keys;
      NothingGone(before, doomed);
      while todo != {}
        invariant todo <= before.Keys
        invariant entries == before - (doomed - todo)
        invariant count == |doomed - todo|
        decreases todo
      {
        var k :| k in todo;
        ghost var was := todo;
        todo := todo - {k};
        OneLess(before, doomed, was, k);
        if |k| > |Prefix(ns)| && HasPrefix(k, Prefix(ns)) {
          entries := entries - {k};
          count := count + 1;
        }
      }
      assert doomed - todo == doomed;
    }

    // Second phase of cleanup, on keys listed under an earlier lock.
    method CleanupDelete(keys: seq<string>, clock: seq<Instant>, now: Instant)
      requires Valid() && |keys| == |clock|
      modifies this
      ensures Valid() && Step(cfg, old(entries), Cleanup(keys, clock, now), entries)
    {
      for i := 0 to |keys|
        invariant Valid()
        invariant entries == Cleaned(old(entries), keys[..i], clock[..i])
      {
        assert keys[..i + 1][..i] == keys[..i] && clock[..i + 1][..i] == clock[..i];
        var k := keys[i];
        if k in entries && Expired(entries[k], clock[i]) {
          var ns :| NulFree(ns) && HasPrefix(k, Prefix(ns));
          NamespaceOfKey(k, ns);
          SmallerKeepsLimit(entries, entries - {k}, cfg.maxPerNS);
          Remove(k, Cut(k));
        }
      }
      assert keys[..|keys|] == keys && clock[..|clock|] == clock;
    }
  }

  // The two facts a deleting walk over the map needs.
  lemma NothingGone(before: Entries, doomed: set<string>)
    requires doomed <= before.Keys
    ensures doomed - before.Keys == {} && before - (doomed - before.Keys) == before
  {
  }

  lemma OneLess(before: Entries, doomed: set<string>, todo: set<string>, k: string)
    requires k in todo && todo <= before.Keys
    ensures k in before - (doomed - todo) && (before - (doomed - todo))[k] == before[k]
    ensures doomed - (todo - {k}) == (doomed - todo) + (if k in doomed then {k} else {})
    ensures before - (doomed - (todo - {k})) ==
            if k in doomed then before - (doomed - todo) - {k} else before - (doomed - todo)
  {
  }

  // What is left while the keys of `todo` have not been looked at.
  ghost function PartlySwept(before: Entries, todo: set<string>, ns: string, now: Instant): Entries {
    before - (Dead(before, ns, now) - todo)
  }

  lemma SweepBegins(before: Entries, ns: string, now: Instant)
    ensures PartlySwept(before, before.Keys, ns, now) == before
  {
  }

  lemma SweepEnds(before: Entries, ns: string, now: Instant)
    ensures PartlySwept(before, {}, ns, now) == Swept(before, ns, now)
  {
    assert Dead(before, ns, now) - {} == Dead(before, ns, now);
  }

  lemma SweepStep(before: Entries, todo: set<string>, k: string, ns: string, now: Instant)
    requires k in todo && todo <= before.Keys
    ensures var entries := PartlySwept(before, todo, ns, now);
            k in entries && PartlySwept(before, todo - {k}, ns, now) ==
                            if HasPrefix(k, Prefix(ns)) && Expired(entries[k], now) then entries - {k} else entries
  {
    OneLess(before, Dead(before, ns, now), todo, k);
  }

  lemma SmallerKeepsLimit(before: Entries, after: Entries, max: int)
    requires WithinLimit(before, max) && after.Keys <= before.Keys
    ensures WithinLimit(after, max)
  {
    forall ns | NulFree(ns) ensures |KeysOf(after, ns)| <= |KeysOf(before, ns)| {
      SubsetSize(KeysOf(after, ns), KeysOf(before, ns));
    }
  }

  lemma {:induction false} SubsetSize<T>(a: set<T>, b: set<T>)
    requires a <= b
    ensures |a| <= |b|
  {
    assert b == a + (b - a);
  }

  // One namespace may be one entry over the limit, as between the two halves
  // of Set.
  ghost predicate OverByOne(entries: Entries, ns: string, max: int) {
    && |KeysOf(entries, ns)| <= max + 1
    && forall other :: NulFree(other) && other != ns ==> |KeysOf(entries, other)| <= max
  }

  lemma StoreGrowsByOne(entries: Entries, k: string, e: Entry, ns: string, max: int)
    requires WithinLimit(entries, max) && NulFree(ns) && HasPrefix(k, Prefix(ns))
    ensures max > 0 ==> OverByOne(entries[k := e], ns, max)
    ensures max > 0 && |KeysOf(entries[k := e], ns)| <= max ==> WithinLimit(entries[k := e], max)
  {
    forall other | NulFree(other)
      ensures |KeysOf(entries[k := e], other)| == |KeysOf(entries, other)| + (if other == ns && k !in entries then 1 else 0)
    {
      StoredKeys(entries, k, e, ns, other);
    }
  }

  lemma SweptLimit(before: Entries, ns: string, now: Instant, max: int)
    requires max > 0 && OverByOne(before, ns, max)
    ensures OverByOne(Swept(before, ns, now), ns, max)
    ensures |KeysOf(Swept(before, ns, now), ns)| <= max ==> WithinLimit(Swept(before, ns, now), max)
  {
    var after := Swept(before, ns, now);
    forall other ensures |KeysOf(after, other)| <= |KeysOf(before, other)| {
      SubsetSize(KeysOf(after, other), KeysOf(before, other));
    }
  }

  lemma RemovedLimit(entries: Entries, k: string, ns: string, max: int)
    requires max > 0 && OverByOne(entries, ns, max) && NulFree(ns) && k in KeysOf(entries, ns)
    ensures WithinLimit(entries - {k}, max)
  {
    forall other | NulFree(other) ensures |KeysOf(entries - {k}, other)| <= max {
      RemovedKeys(entries, k, ns, other);
    }
  }

  lemma FlushIndex(before: Entries, counts: map<string, int>, ns: string)
    requires Indexed(before, counts) && NulFree(ns)
    ensures Indexed(Flushed(before, ns), counts - {ns}) <==> StorageKey(ns, "") !in before
  {
    var after := Flushed(before, ns);
    var empty := StorageKey(ns, "");
    assert empty == Prefix(ns);
    forall other | NulFree(other) && other != ns ensures KeysOf(after, other) == KeysOf(before, other) {
      forall k | k in before && HasPrefix(k, Prefix(other)) ensures !HasPrefix(k, Prefix(ns)) {
        NamespaceOfKey(k, other);
        if HasPrefix(k, Prefix(ns)) {
          NamespaceOfKey(k, ns);
        }
      }
    }
    forall k | k in KeysOf(after, ns) ensures k == empty {
      assert k == k[..|Prefix(ns)|];
    }
    if empty in before {
      assert empty in KeysOf(after, ns);
      assert CountOf(counts - {ns}, ns) == 0;
    } else {
      assert KeysOf(after, ns) == {};
    }
  }
}
