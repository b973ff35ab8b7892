/**
  The cache against a plain TTL map, over every interleaving of its critical
  sections.
 */
module CacheRefinement {
  import opened Wrappers
  import opened MemoryCache

  datatype Ttl = Ttl(value: string, expires: Option<int>)

  // The simple form: keys with a value and an expiry, nothing dropped.
  type TtlMap = map<string, Ttl>

  function Lookup(m: TtlMap, k: string, at: Instant): Option<string> {
    if k in m && !(m[k].expires.Some? && at > m[k].expires.value) then Some(m[k].value) else None
  }

  function Apply(cfg: Config, m: TtlMap, op: Op): TtlMap {
    match op
    case Set(ns, key, value, _, _, _, _) =>
      if TooLarge(cfg, op) then m else m[StorageKey(ns, key) := Ttl(value, Fresh(op).expires)]
    case Del(ns, key, _) => m - {StorageKey(ns, key)}
    case Flush(ns, _) => m - (set k | k in m && HasPrefix(k, Prefix(ns)))
    case _ => m
  }

  function TtlAfter(cfg: Config, ops: seq<Op>): TtlMap {
    if ops == [] then map[] else Apply(cfg, TtlAfter(cfg, ops[..|ops| - 1]), ops[|ops| - 1])
  }

  /* ----- runs ----- */

  // The clock readings of an operation's critical section, first and last.
  function Start(op: Op): Instant {
    if op.Read? then op.at else op.now
  }

  ghost predicate WellFormed(op: Op) {
    match op
    case Set(ns, key, _, _, _, touched, now) => NulFree(ns) && key != "" && touched <= now
    case Del(ns, _, _) => NulFree(ns)
    case Flush(ns, _) => NulFree(ns)
    case Read(ns, _, at, now) => NulFree(ns) && at <= now
    case Expire(ns, _, _) => NulFree(ns)
    case Cleanup(keys, clock, now) => |keys| == |clock| && forall i :: 0 <= i < |clock| ==> clock[i] <= now
  }

  // The clock never goes back from one section to a later one.  Reads hold only
  // the read lock, so several may overlap and take and store their readings
  // in any order.
  ghost predicate Timed(ops: seq<Op>) {
    && (forall i :: 0 <= i < |ops| ==> WellFormed(ops[i]))
    && (forall i, j :: 0 <= i < j < |ops| && !(ops[i].Read? && ops[j].Read?) ==> ops[i].now <= Start(ops[j]))
  }

  // states[i] are the entries before ops[i].
  ghost predicate Run(cfg: Config, ops: seq<Op>, states: seq<Entries>) {
    && |states| == |ops| + 1 && states[0] == map[]
    && forall i :: 0 <= i < |ops| ==> Step(cfg, states[i], ops[i], states[i + 1])
  }

  /* ----- refinement ----- */

  ghost predicate NoEmptyKey(entries: Entries) {
    forall ns :: NulFree(ns) ==> StorageKey(ns, "") !in entries
  }

  // From `now` on the cache answers a key as the map does or misses it; with
  // `exact` it never misses.
  ghost predicate Agrees(m: TtlMap, entries: Entries, now: Instant, exact: bool) {
    forall k ::
      && (k in entries && !Expired(entries[k], now) ==> k in m && m[k] == Ttl(entries[k].value, entries[k].expires))
      && (exact && Lookup(m, k, now).Some? ==> k in entries && m[k] == Ttl(entries[k].value, entries[k].expires))
  }

  lemma {:induction false} CleanedSpares(entries: Entries, keys: seq<string>, clock: seq<Instant>, now: Instant)
    requires |keys| == |clock| && forall i :: 0 <= i < |clock| ==> clock[i] <= now
    ensures var after := Cleaned(entries, keys, clock);
            && after.Keys <= entries.Keys
            && (forall k :: k in after ==> after[k] == entries[k])
            && forall k :: k in entries && !Expired(entries[k], now) ==> k in after
  {
    if keys != [] {
      CleanedSpares(entries, keys[..|keys| - 1], clock[..|keys| - 1], now);
    }
  }

  // A live entry that an operation took away.
  ghost predicate Dropped(before: Entries, after: Entries, now: Instant, k: string) {
    k in before && k !in after && !Expired(before[k], now)
  }

  // An eviction keeps the rest as it was and drops, besides expired entries of
  // its namespace, at most one entry: one with the least last access.
  lemma EvictionDropsOne(max: int, before: Entries, ns: string, now: Instant, after: Entries)
    requires Evicted(max, before, ns, now, after)
    ensures after.Keys <= before.Keys && forall k :: k in after ==> after[k] == before[k]
    ensures forall k :: k in before && !HasPrefix(k, Prefix(ns)) ==> k in after
    ensures forall k, l :: Dropped(before, after, now, k) && Dropped(before, after, now, l) ==> k == l
    ensures forall k :: Dropped(before, after, now, k) ==> LeastRecent(Swept(before, ns, now), ns, k)
  {
    var swept := Swept(before, ns, now);
    forall k | k in before ensures k in swept <==> !(HasPrefix(k, Prefix(ns)) && Expired(before[k], now)) {
    }
    if |KeysOf(swept, ns)| > max {
      var gone :| LeastRecent(swept, ns, gone) && after == swept - {gone};
    }
  }

  // Set under a limit: other namespaces are untouched, at most one live entry
  // is dropped, and it is one nobody in the namespace was accessed before.
  lemma SetDropsAtMostOne(cfg: Config, before: Entries, op: Op, after: Entries)
    requires op.Set? && Step(cfg, before, op, after) && NulFree(op.ns) && WithinLimit(before, cfg.maxPerNS)
    ensures forall k :: k in before && !HasPrefix(k, Prefix(op.ns)) ==> k in after && after[k] == before[k]
    ensures forall k, l :: Dropped(before, after, op.now, k) && Dropped(before, after, op.now, l) ==> k == l
    ensures forall k, l :: Dropped(before, after, op.now, k) && l in after && HasPrefix(l, Prefix(op.ns))
                           ==> before[k].lastAccess <= after[l].lastAccess
    ensures cfg.maxPerNS <= 0 ==> forall k :: !Dropped(before, after, op.now, k)
  {
    if !TooLarge(cfg, op) {
      var k := StorageKey(op.ns, op.key);
      var stored := before[k := Fresh(op)];
      assert HasPrefix(k, Prefix(op.ns));
      if cfg.maxPerNS > 0 && |KeysOf(stored, op.ns)| > cfg.maxPerNS {
        StoredKeys(before, k, Fresh(op), op.ns, op.ns);
        EvictionDropsOne(cfg.maxPerNS, stored, op.ns, op.now, after);
      }
    }
  }

  lemma StepAgrees(cfg: Config, before: Entries, op: Op, after: Entries, m: TtlMap, now: Instant)
    requires Step(cfg, before, op, after) && WellFormed(op) && NoEmptyKey(before)
    requires now <= Start(op) && Agrees(m, before, now, cfg.maxPerNS <= 0)
    ensures Agrees(Apply(cfg, m, op), after, op.now, cfg.maxPerNS <= 0)
    ensures NoEmptyKey(after)
  {
    match op
    case Set(ns, key, _, _, _, _, _) =>
      SetAgrees(cfg, before, op, after, m, now);
    case Flush(ns, _) =>
      forall k | k in before ensures k in after <==> !HasPrefix(k, Prefix(ns)) {
        assert StorageKey(ns, "") == Prefix(ns);
        assert |k| == |Prefix(ns)| ==> k[..|Prefix(ns)|] == k;
      }
    case Cleanup(keys, clock, t) =>
      CleanedSpares(before, keys, clock, t);
    case _ =>
  }

  lemma SetAgrees(cfg: Config, before: Entries, op: Op, after: Entries, m: TtlMap, now: Instant)
    requires op.Set? && Step(cfg, before, op, after) && WellFormed(op) && NoEmptyKey(before)
    requires now <= op.now && Agrees(m, before, now, cfg.maxPerNS <= 0)
    ensures Agrees(Apply(cfg, m, op), after, op.now, cfg.maxPerNS <= 0)
    ensures NoEmptyKey(after)
  {
    if !TooLarge(cfg, op) {
      var k := StorageKey(op.ns, op.key);
      var stored := before[k := Fresh(op)];
      forall ns | NulFree(ns) ensures StorageKey(ns, "") != k {
        if StorageKey(ns, "") == k {
          StorageKeysDistinct(ns, "", op.ns, op.key);
        }
      }
      assert Agrees(Apply(cfg, m, op), stored, op.now, cfg.maxPerNS <= 0);
      if cfg.maxPerNS > 0 && |KeysOf(stored, op.ns)| > cfg.maxPerNS {
        EvictionDropsOne(cfg.maxPerNS, stored, op.ns, op.now, after);
      }
    }
  }

  // A read changes access times only.
  lemma ReadAgrees(cfg: Config, before: Entries, op: Op, after: Entries, m: TtlMap, now: Instant)
    requires op.Read? && Step(cfg, before, op, after) && NoEmptyKey(before)
    requires Agrees(m, before, now, cfg.maxPerNS <= 0)
    ensures Agrees(m, after, now, cfg.maxPerNS <= 0) && NoEmptyKey(after)
  {
  }

  lemma {:induction false} RunAgrees(cfg: Config, ops: seq<Op>, states: seq<Entries>, now: Instant)
    requires Timed(ops) && Run(cfg, ops, states)
    requires forall i :: 0 <= i < |ops| && !ops[i].Read? ==> ops[i].now <= now
    ensures Agrees(TtlAfter(cfg, ops), states[|ops|], now, cfg.maxPerNS <= 0) && NoEmptyKey(states[|ops|])
  {
    if ops != [] {
      var n := |ops| - 1;
      if ops[n].Read? {
        RunAgrees(cfg, ops[..n], states[..n + 1], now);
        ReadAgrees(cfg, states[n], ops[n], states[n + 1], TtlAfter(cfg, ops[..n]), now);
      } else {
        RunAgrees(cfg, ops[..n], states[..n + 1], Start(ops[n]));
        StepAgrees(cfg, states[n], ops[n], states[n + 1], TtlAfter(cfg, ops[..n]), Start(ops[n]));
      }
    }
  }

  // Every hit is what the TTL map holds, in any run; without a limit a read
  // hits exactly when the TTL map has the key.
  lemma HitsAreCurrent(cfg: Config, ops: seq<Op>, states: seq<Entries>, i: nat)
    requires Timed(ops) && Run(cfg, ops, states) && i < |ops| && ops[i].Read?
    ensures var k := StorageKey(ops[i].ns, ops[i].key);
            var r := Found(states[i], k, ops[i].at);
            var current := Lookup(TtlAfter(cfg, ops[..i]), k, ops[i].at);
            && (r.Hit? ==> current == Some(r.value))
            && (cfg.maxPerNS <= 0 && current.Some? ==> r == Hit(current.value))
  {
    RunAgrees(cfg, ops[..i], states[..i + 1], ops[i].at);
  }

  // Whether an operation writes or removes a storage key of the TTL map.
  predicate Touches(cfg: Config, op: Op, k: string) {
    match op
    case Set(ns, key, _, _, _, _, _) => !TooLarge(cfg, op) && StorageKey(ns, key) == k
    case Del(ns, key, _) => StorageKey(ns, key) == k
    case Flush(ns, _) => HasPrefix(k, Prefix(ns))
    case _ => false
  }

  // The TTL map holds the latest accepted Set of a key that no later Set,
  // Del or Flush touched.
  lemma {:induction false} HeldIsLatestSet(cfg: Config, ops: seq<Op>, k: string)
    ensures k in TtlAfter(cfg, ops) ==> exists j :: LatestSet(cfg, ops, k, j) && TtlAfter(cfg, ops)[k] == Ttl(ops[j].value, Fresh(ops[j]).expires)
    ensures k !in TtlAfter(cfg, ops) ==> forall j :: !LatestSet(cfg, ops, k, j)
  {
    if ops != [] {
      var n := |ops| - 1;
      HeldIsLatestSet(cfg, ops[..n], k);
      if Touches(cfg, ops[n], k) {
        if ops[n].Set? {
          assert LatestSet(cfg, ops, k, n);
        }
      } else {
        assert forall j :: 0 <= j < n ==> (LatestSet(cfg, ops, k, j) <==> LatestSet(cfg, ops[..n], k, j));
        assert !LatestSet(cfg, ops, k, n);
      }
    }
  }

  ghost predicate LatestSet(cfg: Config, ops: seq<Op>, k: string, j: int) {
    && 0 <= j < |ops| && ops[j].Set? && Touches(cfg, ops[j], k)
    && forall l :: j < l < |ops| ==> !Touches(cfg, ops[l], k)
  }

  // What a caller means by a TTL: none, or that long from when Set was called.
  predicate StillValid(op: Op, at: Instant)
    requires op.Set?
  {
    op.ttl <= 0 || at <= op.created + op.ttl
  }

  // A read answers with a value only if it is that of the latest accepted Set
  // of its namespace and key which no Set, Del or Flush has touched since, and
  // its TTL has not run out; without a limit it answers whenever there is such
  // a Set.
  lemma HitIsLatestSet(cfg: Config, ops: seq<Op>, states: seq<Entries>, i: nat)
    requires Timed(ops) && Run(cfg, ops, states) && i < |ops| && ops[i].Read?
    ensures var k := StorageKey(ops[i].ns, ops[i].key);
            var r := Found(states[i], k, ops[i].at);
            && (r.Hit? ==> exists j :: LatestSet(cfg, ops[..i], k, j) && ops[j].value == r.value && StillValid(ops[j], ops[i].at))
            && (cfg.maxPerNS <= 0 ==> forall j :: LatestSet(cfg, ops[..i], k, j) && StillValid(ops[j], ops[i].at) ==> r == Hit(ops[j].value))
  {
    var k := StorageKey(ops[i].ns, ops[i].key);
    HitsAreCurrent(cfg, ops, states, i);
    HeldIsLatestSet(cfg, ops[..i], k);
    forall j | LatestSet(cfg, ops[..i], k, j) ensures Expired(Fresh(ops[j]), ops[i].at) <==> !StillValid(ops[j], ops[i].at) {
    }
  }

  /* ----- what recency means ----- */

  // The j-th operation stores the key or is a read that finds it, and says
  // when.
  ghost predicate Uses(cfg: Config, ops: seq<Op>, states: seq<Entries>, k: string, j: int)
    requires |states| == |ops| + 1
  {
    && 0 <= j < |ops|
    && match ops[j]
       case Set(ns, key, _, _, _, _, _) => !TooLarge(cfg, ops[j]) && StorageKey(ns, key) == k
       case Read(ns, key, at, _) => StorageKey(ns, key) == k && Found(states[j], k, at).Hit?
       case _ => false
  }

  ghost predicate LatestUse(cfg: Config, ops: seq<Op>, states: seq<Entries>, k: string, j: int)
    requires |states| == |ops| + 1
  {
    Uses(cfg, ops, states, k, j) && forall l :: j < l < |ops| ==> !Uses(cfg, ops, states, k, l)
  }

  // The access time of an entry is the one of the latest Set that stored it or
  // read that found it, so eviction really drops the least recently used.
  lemma {:induction false} AccessIsLatestUse(cfg: Config, ops: seq<Op>, states: seq<Entries>, k: string)
    requires Run(cfg, ops, states) && k in states[|ops|]
    ensures exists j :: LatestUse(cfg, ops, states, k, j) && AccessTime(ops[j]) == Some(states[|ops|][k].lastAccess)
  {
    var n := |ops| - 1;
    if ops != [] {
      if Uses(cfg, ops, states, k, n) {
        UseSetsAccess(cfg, states[n], ops[n], states[n + 1], k);
        assert LatestUse(cfg, ops, states, k, n);
      } else {
        UnusedKeepsAccess(cfg, states[n], ops[n], states[n + 1], k);
        AccessIsLatestUse(cfg, ops[..n], states[..n + 1], k);
        var j :| LatestUse(cfg, ops[..n], states[..n + 1], k, j) && AccessTime(ops[j]) == Some(states[n][k].lastAccess);
        forall l | 0 <= l < n ensures Uses(cfg, ops, states, k, l) <==> Uses(cfg, ops[..n], states[..n + 1], k, l) {
        }
        assert LatestUse(cfg, ops, states, k, j);
      }
    }
  }

  lemma UseSetsAccess(cfg: Config, before: Entries, op: Op, after: Entries, k: string)
    requires Step(cfg, before, op, after) && k in after
    requires match op
             case Set(ns, key, _, _, _, _, _) => !TooLarge(cfg, op) && StorageKey(ns, key) == k
             case Read(ns, key, at, _) => StorageKey(ns, key) == k && Found(before, k, at).Hit?
             case _ => false
    ensures AccessTime(op) == Some(after[k].lastAccess)
  {
    if op.Set? {
      StoredValue(cfg, before, op, after);
    }
  }

  lemma UnusedKeepsAccess(cfg: Config, before: Entries, op: Op, after: Entries, k: string)
    requires Step(cfg, before, op, after) && k in after
    requires match op
             case Set(ns, key, _, _, _, _, _) => TooLarge(cfg, op) || StorageKey(ns, key) != k
             case Read(ns, key, at, _) => StorageKey(ns, key) != k || !Found(before, k, at).Hit?
             case _ => true
    ensures k in before && after[k] == before[k]
  {
    match op
    case Set(ns, key, _, _, _, _, now) =>
      if !TooLarge(cfg, op) && Evicts(cfg, before, op) {
        EvictionDropsOne(cfg.maxPerNS, before[StorageKey(ns, key) := Fresh(op)], ns, now, after);
      }
    case Cleanup(keys, clock, _) => CleanedIff(before, keys, clock);
    case _ =>
  }

  // An entry is listed under a clock reading at which it has expired.
  ghost predicate ListedDead(e: Entry, keys: seq<string>, clock: seq<Instant>, k: string)
    requires |keys| == |clock|
  {
    exists i :: 0 <= i < |keys| && keys[i] == k && Expired(e, clock[i])
  }

  // Cleaning removes exactly the entries that are listed and have expired when
  // their turn comes.
  lemma {:induction false} CleanedIff(entries: Entries, keys: seq<string>, clock: seq<Instant>)
    requires |keys| == |clock|
    ensures var after := Cleaned(entries, keys, clock);
            && (forall k :: k in after ==> k in entries && after[k] == entries[k])
            && forall k :: k in entries ==> (k !in after <==> ListedDead(entries[k], keys, clock, k))
  {
    if keys != [] {
      var n := |keys| - 1;
      var init, times := keys[..n], clock[..n];
      CleanedIff(entries, init, times);
      var after := Cleaned(entries, keys, clock);
      forall k | k in entries ensures k !in after <==> ListedDead(entries[k], keys, clock, k) {
        OneMoreListed(entries[k], keys, clock, k);
      }
    }
  }

  lemma OneMoreListed(e: Entry, keys: seq<string>, clock: seq<Instant>, k: string)
    requires |keys| == |clock| > 0
    ensures var n := |keys| - 1;
            ListedDead(e, keys, clock, k) <==> ListedDead(e, keys[..n], clock[..n], k) || (keys[n] == k && Expired(e, clock[n]))
  {
    var n := |keys| - 1;
    if i :| 0 <= i < n && keys[..n][i] == k && Expired(e, clock[..n][i]) {
      assert keys[i] == k && Expired(e, clock[i]);
    }
    if i :| 0 <= i < |keys| && keys[i] == k && Expired(e, clock[i]) {
      assert i < n ==> keys[..n][i] == k && Expired(e, clock[..n][i]);
    }
  }

  // A read that finds its entry stale misses, and its second section takes the
  // entry away, unless a Set has renewed it meanwhile.
  lemma StaleReadRemoves(cfg: Config, before: Entries, read: Op, middle: Entries, expire: Op, after: Entries)
    requires read.Read? && expire == Expire(read.ns, read.key, expire.now) && read.at <= expire.now
    requires var k := StorageKey(read.ns, read.key);
             Found(before, k, read.at) == Stale && (k in middle ==> middle[k] == before[k] || !Expired(middle[k], expire.now))
    requires Step(cfg, middle, expire, after)
    ensures var k := StorageKey(read.ns, read.key);
            Step(cfg, before, read, before) && (k in after <==> k in middle && middle[k] != before[k])
  {
  }

  /* ----- what is too large ----- */

  // No value in the cache exceeds the size limit, and a Set within it counts.
  lemma {:induction false} EntriesFit(cfg: Config, ops: seq<Op>, states: seq<Entries>)
    requires Run(cfg, ops, states) && cfg.maxSize > 0
    ensures forall k :: k in states[|ops|] ==> |states[|ops|][k].value| <= cfg.maxSize
  {
    if ops != [] {
      var n := |ops| - 1;
      EntriesFit(cfg, ops[..n], states[..n + 1]);
      var after := states[n + 1];
      forall k | k in after ensures |after[k].value| <= cfg.maxSize {
        StepKeepsSize(cfg, states[n], ops[n], after, k);
      }
    }
  }

  lemma StepKeepsSize(cfg: Config, before: Entries, op: Op, after: Entries, k: string)
    requires Step(cfg, before, op, after) && k in after && cfg.maxSize > 0
    requires k in before ==> |before[k].value| <= cfg.maxSize
    ensures |after[k].value| <= cfg.maxSize
  {
    match op
    case Set(ns, key, _, _, _, _, now) =>
      if !TooLarge(cfg, op) && Evicts(cfg, before, op) {
        EvictionDropsOne(cfg.maxPerNS, before[StorageKey(ns, key) := Fresh(op)], ns, now, after);
      }
    case Cleanup(keys, clock, _) => CleanedIff(before, keys, clock);
    case _ =>
  }

  // A Set counts as the latest of its key exactly when its value fits.
  lemma SetCountsIffFits(cfg: Config, ops: seq<Op>, op: Op)
    requires op.Set?
    ensures LatestSet(cfg, ops + [op], StorageKey(op.ns, op.key), |ops|) <==> cfg.maxSize <= 0 || |op.value| <= cfg.maxSize
  {
    assert (ops + [op])[|ops|] == op;
  }

  /* ----- when the new entry is the victim ----- */

  // The unexpired entries a Set finds in its namespace besides its own key.
  ghost function Others(before: Entries, op: Op): set<string>
    requires op.Set?
  {
    set l | l in before && l != StorageKey(op.ns, op.key) && HasPrefix(l, Prefix(op.ns)) && !Expired(before[l], op.now)
  }

  // The namespace is over its limit with the new entry, so Set evicts.
  ghost predicate Evicts(cfg: Config, before: Entries, op: Op)
    requires op.Set?
  {
    cfg.maxPerNS > 0 && |KeysOf(before[StorageKey(op.ns, op.key) := Fresh(op)], op.ns)| > cfg.maxPerNS
  }

  // An eviction spares the new entry for sure: it has not expired meanwhile,
  // and the other entries leave room or one of them was accessed before it.
  ghost predicate Spares(cfg: Config, before: Entries, op: Op)
    requires op.Set?
  {
    && !Expired(Fresh(op), op.now)
    && (|Others(before, op)| < cfg.maxPerNS || exists l :: l in Others(before, op) && before[l].lastAccess < op.touched)
  }

  // An eviction takes the new entry for sure: it has expired, or there is no
  // room and every other entry was accessed after it.
  ghost predicate Takes(cfg: Config, before: Entries, op: Op)
    requires op.Set?
  {
    || Expired(Fresh(op), op.now)
    || (|Others(before, op)| >= cfg.maxPerNS && forall l :: l in Others(before, op) ==> before[l].lastAccess > op.touched)
  }

  // An accepted Set leaves its own entry in the cache, whichever victim is
  // picked, exactly when it does not evict or the eviction spares it.
  lemma NewEntryStaysIff(cfg: Config, before: Entries, op: Op)
    requires op.Set? && !TooLarge(cfg, op)
    ensures (forall after :: Step(cfg, before, op, after) ==> StorageKey(op.ns, op.key) in after)
            <==> (Evicts(cfg, before, op) ==> Spares(cfg, before, op))
  {
    var k := StorageKey(op.ns, op.key);
    var stored := before[k := Fresh(op)];
    var swept := Swept(stored, op.ns, op.now);
    SweptKeys(before, op);
    if Evicts(cfg, before, op) && !Spares(cfg, before, op) {
      if Expired(Fresh(op), op.now) {
        var after := SetHasOutcome(cfg, before, op);
        assert after.Keys <= swept.Keys;
      } else {
        assert LeastRecent(swept, op.ns, k);
        assert Step(cfg, before, op, swept - {k});
      }
    }
  }

  // It loses it, whichever victim is picked, exactly when it evicts and the
  // eviction takes it.
  lemma NewEntryGoesIff(cfg: Config, before: Entries, op: Op)
    requires op.Set? && !TooLarge(cfg, op)
    ensures (forall after :: Step(cfg, before, op, after) ==> StorageKey(op.ns, op.key) !in after)
            <==> Evicts(cfg, before, op) && Takes(cfg, before, op)
  {
    if !Evicts(cfg, before, op) {
      assert Step(cfg, before, op, before[StorageKey(op.ns, op.key) := Fresh(op)]);
    } else if Takes(cfg, before, op) {
      SweptKeys(before, op);
    } else {
      EvictionCanSpare(cfg, before, op);
    }
  }

  lemma EvictionCanSpare(cfg: Config, before: Entries, op: Op)
    requires op.Set? && !TooLarge(cfg, op) && Evicts(cfg, before, op) && !Takes(cfg, before, op)
    ensures exists after :: Step(cfg, before, op, after) && StorageKey(op.ns, op.key) in after
  {
    var swept := Swept(before[StorageKey(op.ns, op.key) := Fresh(op)], op.ns, op.now);
    SweptKeys(before, op);
    if |KeysOf(swept, op.ns)| <= cfg.maxPerNS {
      assert Step(cfg, before, op, swept);
    } else {
      var l := Earliest(swept, Others(before, op));
      assert LeastRecent(swept, op.ns, l);
      assert Step(cfg, before, op, swept - {l});
    }
  }

  lemma SetHasOutcome(cfg: Config, before: Entries, op: Op) returns (after: Entries)
    requires op.Set? && !TooLarge(cfg, op)
    ensures Step(cfg, before, op, after)
    ensures Evicts(cfg, before, op) ==>
              after.Keys <= Swept(before[StorageKey(op.ns, op.key) := Fresh(op)], op.ns, op.now).Keys
  {
    var stored := before[StorageKey(op.ns, op.key) := Fresh(op)];
    var swept := Swept(stored, op.ns, op.now);
    after := if Evicts(cfg, before, op) then swept else stored;
    if Evicts(cfg, before, op) && |KeysOf(swept, op.ns)| > cfg.maxPerNS {
      var gone := Earliest(swept, KeysOf(swept, op.ns));
      assert LeastRecent(swept, op.ns, gone);
      after := swept - {gone};
    }
  }

  // What is left of the namespace after the sweep.
  lemma SweptKeys(before: Entries, op: Op)
    requires op.Set?
    ensures var k := StorageKey(op.ns, op.key);
            var swept := Swept(before[k := Fresh(op)], op.ns, op.now);
            && KeysOf(swept, op.ns) == Others(before, op) + (if Expired(Fresh(op), op.now) then {} else {k})
            && |KeysOf(swept, op.ns)| == |Others(before, op)| + (if Expired(Fresh(op), op.now) then 0 else 1)
            && (forall l :: l in Others(before, op) ==> swept[l] == before[l])
            && (!Expired(Fresh(op), op.now) ==> swept[k] == Fresh(op))
  {
    assert HasPrefix(StorageKey(op.ns, op.key), Prefix(op.ns));
  }

  lemma {:induction false} Earliest(entries: Entries, keys: set<string>) returns (l: string)
    requires keys != {} && keys <= entries.Keys
    ensures l in keys && forall m :: m in keys ==> entries[l].lastAccess <= entries[m].lastAccess
    decreases keys
  {
    l :| l in keys;
    if keys != {l} {
      var m := Earliest(entries, keys - {l});
      l := if entries[m].lastAccess < entries[l].lastAccess then m else l;
    }
  }

  // While every entry was accessed before the new one, the new one stays.
  lemma NewEntryStays(cfg: Config, before: Entries, op: Op, after: Entries)
    requires op.Set? && Step(cfg, before, op, after)
    requires !TooLarge(cfg, op) && !Expired(Fresh(op), op.now)
    requires forall k :: k in before ==> before[k].lastAccess < op.touched
    ensures var k := StorageKey(op.ns, op.key); k in after && after[k] == Fresh(op)
  {
    NewEntryStaysIff(cfg, before, op);
    if |Others(before, op)| >= cfg.maxPerNS > 0 {
      var l :| l in Others(before, op);
    }
    StoredValue(cfg, before, op, after);
  }

  lemma StoredValue(cfg: Config, before: Entries, op: Op, after: Entries)
    requires op.Set? && Step(cfg, before, op, after) && !TooLarge(cfg, op)
    ensures var k := StorageKey(op.ns, op.key); k in after ==> after[k] == Fresh(op)
  {
    if Evicts(cfg, before, op) {
      EvictionDropsOne(cfg.maxPerNS, before[StorageKey(op.ns, op.key) := Fresh(op)], op.ns, op.now, after);
    }
  }

  // Set reads its access time before it locks.  When another caller is served
  // in between, the entry just stored can be the victim although every clock
  // reading is later than the one before: here it is gone right after its own
  // accepted Set, in every run of these operations.
  lemma OvertakenSetLosesItsEntry(ns: string, a: string, b: string)
    requires NulFree(ns) && a != b && a != "" && b != ""
    ensures var cfg, ops := Config(1, 0), Overtaken(ns, a, b);
            && Timed(ops) && !TooLarge(cfg, ops[2]) && !Expired(Fresh(ops[2]), ops[2].now)
            && (exists states :: Run(cfg, ops, states))
            && forall states :: Run(cfg, ops, states) ==> StorageKey(ns, b) !in states[3]
  {
    var cfg, ops := Config(1, 0), Overtaken(ns, a, b);
    var k := StorageKey(ns, a);
    assert StorageKey(ns, b)[|ns| + 1..] == b && k[|ns| + 1..] == a;
    var first, second := map[k := Entry("x", None, 2)], map[k := Entry("x", None, 7)];
    var empty: Entries := map[];
    assert empty[k := Fresh(ops[0])] == first;
    OneEntry(k, Fresh(ops[0]), ns);
    OneEntry(k, second[k], ns);
    assert Others(second, ops[2]) == {k};
    OvertakenGoes(second, ns, a, b);
    var last := SetHasOutcome(cfg, second, ops[2]);
    assert Run(cfg, ops, [map[], first, second, last]);
    forall states | Run(cfg, ops, states) ensures StorageKey(ns, b) !in states[3] {
      assert Step(cfg, states[0], ops[0], states[1]) && Step(cfg, states[1], ops[1], states[2]);
      assert states[1] == first && states[2] == second;
      assert Step(cfg, states[2], ops[2], states[3]);
    }
  }

  // The second Set has read its clock when the first entry is read again.
  function Overtaken(ns: string, a: string, b: string): seq<Op> {
    [Set(ns, a, "x", 0, 1, 2, 3), Read(ns, a, 6, 7), Set(ns, b, "y", 0, 4, 5, 9)]
  }

  lemma OneEntry(k: string, e: Entry, ns: string)
    requires HasPrefix(k, Prefix(ns))
    ensures KeysOf(map[k := e], ns) == {k}
  {
  }

  lemma OvertakenGoes(before: Entries, ns: string, a: string, b: string)
    requires var k := StorageKey(ns, a);
             StorageKey(ns, b) != k && k in before && before[k] == Entry("x", None, 7) && Others(before, Overtaken(ns, a, b)[2]) == {k}
    ensures forall after :: Step(Config(1, 0), before, Overtaken(ns, a, b)[2], after) ==> StorageKey(ns, b) !in after
  {
    var k, l := StorageKey(ns, a), StorageKey(ns, b);
    var op := Overtaken(ns, a, b)[2];
    assert HasPrefix(k, Prefix(ns)) && HasPrefix(l, Prefix(ns));
    SubsetSize({k, l}, KeysOf(before[l := Fresh(op)], ns));
    NewEntryGoesIff(Config(1, 0), before, op);
  }

  // The access time an operation gives to an entry, if any.
  function AccessTime(op: Op): Option<Instant> {
    match op
    case Set(_, _, _, _, _, touched, _) => Some(touched)
    case Read(_, _, _, now) => Some(now)
    case _ => None
  }

  // Access times never run ahead of those given out, in whatever order reads
  // overlap.
  lemma {:induction false} AccessesInThePast(cfg: Config, ops: seq<Op>, states: seq<Entries>, latest: int)
    requires Run(cfg, ops, states) && forall i :: 0 <= i < |ops| ==> WellFormed(ops[i])
    requires forall i :: 0 <= i < |ops| && AccessTime(ops[i]).Some? ==> AccessTime(ops[i]).value <= latest
    ensures forall k :: k in states[|ops|] ==> states[|ops|][k].lastAccess <= latest
  {
    if ops != [] {
      var n := |ops| - 1;
      AccessesInThePast(cfg, ops[..n], states[..n + 1], latest);
      assert AccessTime(ops[n]).Some? ==> AccessTime(ops[n]).value <= latest;
      StepAccesses(cfg, states[n], ops[n], states[n + 1], latest);
    }
  }

  lemma StepAccesses(cfg: Config, before: Entries, op: Op, after: Entries, latest: int)
    requires Step(cfg, before, op, after) && WellFormed(op)
    requires AccessTime(op).Some? ==> AccessTime(op).value <= latest
    requires forall k :: k in before ==> before[k].lastAccess <= latest
    ensures forall k :: k in after ==> after[k].lastAccess <= latest
  {
    match op
    case Set(ns, key, _, _, _, _, now) =>
      var stored := before[StorageKey(ns, key) := Fresh(op)];
      if !TooLarge(cfg, op) && cfg.maxPerNS > 0 && |KeysOf(stored, ns)| > cfg.maxPerNS {
        EvictionDropsOne(cfg.maxPerNS, stored, ns, now, after);
      }
    case Cleanup(keys, clock, now) =>
      CleanedSpares(before, keys, clock, now);
    case _ =>
  }

  lemma StepKeepsLimit(cfg: Config, before: Entries, op: Op, after: Entries)
    requires Step(cfg, before, op, after) && WellFormed(op) && WithinLimit(before, cfg.maxPerNS)
    ensures WithinLimit(after, cfg.maxPerNS)
  {
    var max := cfg.maxPerNS;
    match op
    case Set(ns, key, _, _, _, _, now) =>
      if !TooLarge(cfg, op) {
        var k := StorageKey(ns, key);
        var stored := before[k := Fresh(op)];
        assert HasPrefix(k, Prefix(ns));
        StoreGrowsByOne(before, k, Fresh(op), ns, max);
        if max > 0 && |KeysOf(stored, ns)| > max {
          SweptLimit(stored, ns, now, max);
          var swept := Swept(stored, ns, now);
          if |KeysOf(swept, ns)| > max {
            var gone :| LeastRecent(swept, ns, gone) && after == swept - {gone};
            RemovedLimit(swept, gone, ns, max);
          }
        }
      }
    case Cleanup(keys, clock, now) =>
      CleanedSpares(before, keys, clock, now);
      SmallerKeepsLimit(before, after, max);
    case _ =>
      SmallerKeepsLimit(before, after, max);
  }

  lemma {:induction false} RunKeepsLimit(cfg: Config, ops: seq<Op>, states: seq<Entries>)
    requires Run(cfg, ops, states) && forall i :: 0 <= i < |ops| ==> WellFormed(ops[i])
    ensures WithinLimit(states[|ops|], cfg.maxPerNS)
  {
    if ops == [] {
      assert forall ns :: KeysOf(states[0], ns) == {};
    } else {
      var n := |ops| - 1;
      RunKeepsLimit(cfg, ops[..n], states[..n + 1]);
      StepKeepsLimit(cfg, states[n], ops[n], states[n + 1]);
    }
  }

  // When no access time given out before is as late as Set's own, the entry it
  // stores is not the one evicted, unless it has expired by then.
  lemma NewEntryStaysInRun(cfg: Config, ops: seq<Op>, states: seq<Entries>, i: nat)
    requires Run(cfg, ops, states) && forall j :: 0 <= j < |ops| ==> WellFormed(ops[j])
    requires i < |ops| && ops[i].Set? && !TooLarge(cfg, ops[i]) && !Expired(Fresh(ops[i]), ops[i].now)
    requires forall j :: 0 <= j < i && AccessTime(ops[j]).Some? ==> AccessTime(ops[j]).value < ops[i].touched
    ensures var k := StorageKey(ops[i].ns, ops[i].key); k in states[i + 1] && states[i + 1][k] == Fresh(ops[i])
  {
    AccessesInThePast(cfg, ops[..i], states[..i + 1], ops[i].touched - 1);
    NewEntryStays(cfg, states[i], ops[i], states[i + 1]);
  }

  /* ----- the class runs the machine ----- */

  // Any sequence of critical sections, in any order, keeps the counters equal
  // to the entries they count and every namespace within its limit, and is a
  // run of the machine above.
  method Drive(cfg: Config, ops: seq<Op>) returns (store: MemoryStore, ghost states: seq<Entries>)
    requires forall i :: 0 <= i < |ops| ==> WellFormed(ops[i])
    ensures store.Valid() && store.cfg == cfg
    ensures Run(cfg, ops, states) && states[|ops|] == store.entries
  {
    store := new MemoryStore(cfg);
    states := [map[]];
    for i := 0 to |ops|
      invariant fresh(store) && store.Valid() && store.cfg == cfg && NoEmptyKey(store.entries)
      invariant Run(cfg, ops[..i], states) && states[i] == store.entries
    {
      ghost var before := store.entries;
      Section(store, ops[i]);
      StepKeepsKeys(cfg, before, ops[i], store.entries);
      RunGrows(cfg, ops[..i], states, ops[i], store.entries);
      states := states + [store.entries];
      assert ops[..i + 1] == ops[..i] + [ops[i]];
    }
    assert ops[..|ops|] == ops;
  }

  lemma RunGrows(cfg: Config, ops: seq<Op>, states: seq<Entries>, op: Op, after: Entries)
    requires Run(cfg, ops, states) && WellFormed(op) && Step(cfg, states[|ops|], op, after)
    ensures Run(cfg, ops + [op], states + [after])
  {
  }

  lemma StepKeepsKeys(cfg: Config, before: Entries, op: Op, after: Entries)
    requires Step(cfg, before, op, after) && WellFormed(op) && NoEmptyKey(before)
    ensures NoEmptyKey(after)
  {
    match op
    case Set(ns, key, _, _, _, _, now) =>
      var stored := before[StorageKey(ns, key) := Fresh(op)];
      forall other | NulFree(other) ensures StorageKey(other, "") !in stored {
        if StorageKey(other, "") == StorageKey(ns, key) {
          StorageKeysDistinct(other, "", ns, key);
        }
      }
      if !TooLarge(cfg, op) && cfg.maxPerNS > 0 && |KeysOf(stored, ns)| > cfg.maxPerNS {
        EvictionDropsOne(cfg.maxPerNS, stored, ns, now, after);
      }
    case Cleanup(keys, clock, now) =>
      CleanedSpares(before, keys, clock, now);
    case _ =>
  }

  method Section(store: MemoryStore, op: Op)
    requires store.Valid() && WellFormed(op) && NoEmptyKey(store.entries)
    modifies store
    ensures store.Valid() && Step(store.cfg, old(store.entries), op, store.entries)
  {
    match op
    case Set(ns, key, value, ttl, created, touched, now) =>
      var _ := store.Set(ns, key, value, ttl, created, touched, now);
    case Del(ns, key, now) =>
      var _ := store.Del(ns, key, now);
    case Flush(ns, now) =>
      var _ := store.Flush(ns, now);
    case Read(ns, key, at, now) =>
      var _ := store.GetRead(ns, key, at, now);
    case Expire(ns, key, now) =>
      store.GetExpire(ns, key, now);
    case Cleanup(keys, clock, now) =>
      store.CleanupDelete(keys, clock, now);
  }
}
