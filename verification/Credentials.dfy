/**
  Credential resolution (internal/credentials): the migration state, the cache
  and the service that resolves a key over keyring, env.d files and process
  environment.  The keyring is available; a single write to it may still fail,
  which the operations take as a parameter.
 */
module Credentials {
  import opened Sequences
  import opened Wrappers
  import EnvFile

  // A keyring slot: group and key.
  type Slot = (string, string)

  datatype Source = FromKeyring | FromEnvD | FromEnvVar

  /* ----- migration state ----- */

  function KeysFor(groupKeys: map<string, seq<string>>, group: string): seq<string> {
    if group in groupKeys then groupKeys[group] else []
  }

  // Without the first occurrence of x.
  function RemoveFirst(s: seq<string>, x: string): seq<string> {
    if s == [] then [] else if s[0] == x then s[1..] else [s[0]] + RemoveFirst(s[1..], x)
  }

  lemma {:induction false} RemoveFirstMembers(s: seq<string>, x: string)
    requires NoDup(s)
    ensures NoDup(RemoveFirst(s, x)) && forall y :: y in RemoveFirst(s, x) <==> y in s && y != x
  {
    if s != [] {
      assert s == [s[0]] + s[1..] && NoDup(s[1..]);
      RemoveFirstMembers(s[1..], x);
      assert s[0] !in RemoveFirst(s[1..], x);
    }
  }

  lemma {:induction false} RemoveFirstAt(s: seq<string>, i: nat)
    requires i < |s| && s[i] !in s[..i]
    ensures RemoveFirst(s, s[i]) == s[..i] + s[i + 1..]
  {
    if i > 0 {
      assert s[1..][i - 1] == s[i] && s[..i] == [s[0]] + s[1..][..i - 1];
      RemoveFirstAt(s[1..], i - 1);
    }
  }

  method Find(s: seq<string>, x: string) returns (idx: int)
    ensures if idx < 0 then x !in s else idx < |s| && s[idx] == x && x !in s[..idx]
  {
    for i := 0 to |s|
      invariant x !in s[..i]
    {
      if s[i] == x {
        return i;
      }
      assert s[..i + 1] == s[..i] + [s[i]];
    }
    assert s[..|s|] == s;
    return -1;
  }

  class MigrationState {
    var migratedGroups: seq<string>
    var groupKeys: map<string, seq<string>>

    ghost predicate Valid() reads this {
      NoDup(migratedGroups) && forall g :: g in groupKeys ==> NoDup(groupKeys[g])
    }

    function Keys(group: string): seq<string> reads this {
      KeysFor(groupKeys, group)
    }

    constructor ()
      ensures migratedGroups == [] && groupKeys == map[] && Valid()
    {
      migratedGroups, groupKeys := [], map[];
    }

    method IsMigrated(group: string) returns (r: bool)
      ensures r == (group in migratedGroups)
    {
      var idx := Find(migratedGroups, group);
      r := idx >= 0;
    }

    // `saves` tells whether writing the state file succeeds; the state in
    // memory changes either way.
    method MarkMigrated(group: string, saves: bool) returns (ok: bool)
      requires Valid()
      modifies this
      ensures Valid() && groupKeys == old(groupKeys)
      ensures migratedGroups == if group in old(migratedGroups) then old(migratedGroups) else old(migratedGroups) + [group]
      ensures ok == (saves || group in old(migratedGroups))
    {
      var migrated := IsMigrated(group);
      if migrated {
        return true;
      }
      migratedGroups := migratedGroups + [group];
      return saves;
    }

    method Unmark(group: string, saves: bool) returns (ok: bool)
      requires Valid()
      modifies this
      ensures Valid() && groupKeys == old(groupKeys)
      ensures forall g :: g in migratedGroups <==> g in old(migratedGroups) && g != group
      ensures ok == (saves || group !in old(migratedGroups))
    {
      RemoveFirstMembers(migratedGroups, group);
      var idx := Find(migratedGroups, group);
      if idx < 0 {
        return true;
      }
      RemoveFirstAt(migratedGroups, idx);
      migratedGroups := migratedGroups[..idx] + migratedGroups[idx + 1..];
      return saves;
    }

    method TrackKey(group: string, key: string, saves: bool) returns (ok: bool)
      requires Valid()
      modifies this
      ensures Valid() && migratedGroups == old(migratedGroups)
      ensures Keys(group) == if key in old(Keys(group)) then old(Keys(group)) else old(Keys(group)) + [key]
      ensures forall g :: g != group ==> Keys(g) == old(Keys(g))
      ensures ok == (saves || key in old(Keys(group)))
    {
      var idx := Find(Keys(group), key);
      if idx >= 0 {
        return true;
      }
      groupKeys := groupKeys[group := Keys(group) + [key]];
      return saves;
    }

    method UntrackKey(group: string, key: string, saves: bool) returns (ok: bool)
      requires Valid()
      modifies this
      ensures Valid() && migratedGroups == old(migratedGroups)
      ensures forall k :: k in Keys(group) <==> k in old(Keys(group)) && k != key
      ensures forall g :: g != group ==> Keys(g) == old(Keys(g))
      ensures ok == (saves || key !in old(Keys(group)))
    {
      var keys := Keys(group);
      RemoveFirstMembers(keys, key);
      var idx := Find(keys, key);
      if idx < 0 {
        return true;
      }
      RemoveFirstAt(keys, idx);
      var rest := keys[..idx] + keys[idx + 1..];
      groupKeys := if rest == [] then groupKeys - {group} else groupKeys[group := rest];
      return saves;
    }
  }

  /* ----- cache ----- */

  datatype Cached = Cached(value: string, source: Source, loadedAt: int)

  function CacheKey(group: string, key: string): string {
    group + "\0" + key
  }

  predicate NulFree(s: string) {
    '\0' !in s
  }

  // Keys of different credentials never share a cache entry, as long as group
  // names hold no NUL.
  lemma CacheKeysDistinct(group: string, key: string, group': string, key': string)
    requires NulFree(group) && NulFree(group') && CacheKey(group, key) == CacheKey(group', key')
    ensures group == group' && key == key'
  {
    var ck := CacheKey(group, key);
    assert ck[|group|] == '\0' && ck[|group'|] == '\0';
    assert forall i :: 0 <= i < |group| ==> ck[i] == group[i];
    assert forall i :: 0 <= i < |group'| ==> ck[i] == group'[i];
    assert group == ck[..|group|] && group' == ck[..|group'|];
    assert key == ck[|group| + 1..] && key' == ck[|group'| + 1..];
  }

  class Cache {
    var entries: map<string, Cached>
    const ttl: int

    constructor (ttl: int)
      ensures entries == map[] && this.ttl == ttl
    {
      entries, this.ttl := map[], ttl;
    }

    // An entry past its lifetime is evicted and not returned.
    method Get(group: string, key: string, now: int) returns (r: Option<Cached>)
      modifies this
      ensures var ck := CacheKey(group, key);
              if ck in old(entries) && now - old(entries)[ck].loadedAt <= ttl
              then r == Some(old(entries)[ck]) && entries == old(entries)
              else r == None && entries == old(entries) - {ck}
    {
      var ck := CacheKey(group, key);
      if ck !in entries {
        assert entries - {ck} == entries;
        return None;
      }
      var entry := entries[ck];
      if now - entry.loadedAt > ttl {
        entries := entries - {ck};
        return None;
      }
      return Some(entry);
    }

    method Set(group: string, key: string, value: string, source: Source, now: int)
      modifies this
      ensures entries == old(entries)[CacheKey(group, key) := Cached(value, source, now)]
    {
      entries := entries[CacheKey(group, key) := Cached(value, source, now)];
    }

    method Invalidate(group: string, key: string)
      modifies this
      ensures entries == old(entries) - {CacheKey(group, key)}
    {
      entries := entries - {CacheKey(group, key)};
    }

    // Removes the entries of one group and no other.
    method InvalidateGroup(group: string)
      modifies this
      ensures forall ck :: ck in entries <==> ck in old(entries) && !InGroup(ck, group)
      ensures forall ck :: ck in entries ==> entries[ck] == old(entries)[ck]
    {
      ghost var before := entries;
      var todo := entries.Keys;
      while todo != {}
        invariant todo <= entries.Keys <= before.Keys
        invariant forall ck :: ck in entries ==> entries[ck] == before[ck]
        invariant forall ck :: ck in before && ck !in todo ==> (ck in entries <==> !InGroup(ck, group))
        decreases todo
      {
        var ck :| ck in todo;
        todo := todo - {ck};
        if InGroup(ck, group) {
          entries := entries - {ck};
        }
      }
    }

    method Clear()
      modifies this
      ensures entries == map[]
    {
      entries := map[];
    }
  }

  predicate InGroup(ck: string, group: string) {
    var prefix := group + "\0";
    |ck| >= |prefix| && ck[..|prefix|] == prefix
  }

  /* ----- service ----- */

  predicate ValidGroupName(group: string) {
    group != "" && forall i :: 0 <= i < |group| ==> IsGroupLetter(group[i])
  }

  // The env.d store: the text of each group's file.
  ghost function EnvDLookup(files: map<string, string>, group: string, key: string): Option<string> {
    if !ValidGroupName(group) || group !in files then None
    else
      match EnvFile.Load(files[group])
      case LineTooLong => None
      case Loaded(vars) => if key in vars then Some(vars[key]) else None
  }

  // Everything resolution reads.
  datatype Stores = Stores(migrated: seq<string>, ring: map<Slot, string>, files: map<string, string>, environment: map<string, string>)

  predicate IsGroupLetter(c: char) {
    'a' <= c <= 'z' || 'A' <= c <= 'Z' || '0' <= c <= '9' || c == '-' || c == '_'
  }

  // No group name is a path or could end one: the first and the last letter of
  // each range are allowed, the characters just outside are not.
  lemma GroupNamesAreNoPaths(group: string)
    ensures ValidGroupName("azAZ09-_")
    ensures ValidGroupName(group) ==> group != "" && '/' !in group && '\\' !in group && '.' !in group && '\0' !in group && ',' !in group
    ensures ValidGroupName(group) ==> ':' !in group && '@' !in group && '[' !in group && '^' !in group && '`' !in group && '{' !in group
  {
    assert ValidGroupName(group) ==> forall c :: c in group ==> IsGroupLetter(c);
  }

  // An entry belongs to the group whose credential it holds.
  lemma InGroupIff(g: string, k: string, group: string)
    requires NulFree(g) && NulFree(group)
    ensures InGroup(CacheKey(g, k), group) <==> g == group
  {
    var ck, prefix := CacheKey(g, k), group + "\0";
    if InGroup(ck, group) {
      assert ck == group + "\0" + ck[|prefix|..];
      CacheKeysDistinct(g, k, group, ck[|prefix|..]);
    }
    assert CacheKey(group, k)[..|prefix|] == prefix;
  }

  // What the service without a cache answers: keyring, then environment for a
  // migrated group; env.d, keyring, environment for any other.
  ghost function Resolve(st: Stores, group: string, key: string): Option<(string, Source)> {
    var envd := EnvDLookup(st.files, group, key);
    if group !in st.migrated && envd.Some? then Some((envd.value, FromEnvD))
    else if (group, key) in st.ring then Some((st.ring[(group, key)], FromKeyring))
    else if key in st.environment then Some((st.environment[key], FromEnvVar))
    else None
  }

  // Whose value an answer is.
  lemma AnswerComesFrom(st: Stores, group: string, key: string)
    ensures var envd, r := EnvDLookup(st.files, group, key), Resolve(st, group, key);
            && (r.Some? <==> (group !in st.migrated && envd.Some?) || (group, key) in st.ring || key in st.environment)
            && forall v :: (r == Some((v, FromEnvD)) <==> group !in st.migrated && envd == Some(v))
                           && (r == Some((v, FromKeyring)) <==>
                                 (group in st.migrated || envd.None?) && (group, key) in st.ring && st.ring[(group, key)] == v)
                           && (r == Some((v, FromEnvVar)) <==>
                                 (group in st.migrated || envd.None?) && (group, key) !in st.ring && key in st.environment && st.environment[key] == v)
  {
  }

  function Value(r: Option<(string, Source)>): Option<string> {
    if r.Some? then Some(r.value.0) else None
  }

  // What a credential is worth without its env.d file.
  function Beneath(st: Stores, group: string, key: string): Option<string> {
    if (group, key) in st.ring then Some(st.ring[(group, key)])
    else if key in st.environment then Some(st.environment[key])
    else None
  }

  // Marking a group migrated keeps the value of every credential exactly when
  // each value in its env.d file is also what stands beneath it; other groups
  // never notice.
  lemma MigrationKeepsValuesIff(st: Stores, group: string)
    ensures var after := st.(migrated := st.migrated + [group]);
            && ((forall k :: Value(Resolve(after, group, k)) == Value(Resolve(st, group, k))) <==>
                group in st.migrated || forall k :: EnvDLookup(st.files, group, k).Some? ==> Beneath(st, group, k) == EnvDLookup(st.files, group, k))
            && forall g, k :: g != group ==> Resolve(after, g, k) == Resolve(st, g, k)
  {
    var after := st.(migrated := st.migrated + [group]);
    forall k ensures Value(Resolve(after, group, k)) == Beneath(st, group, k) {
    }
    forall k ensures Value(Resolve(st, group, k)) ==
                     if group !in st.migrated && EnvDLookup(st.files, group, k).Some? then EnvDLookup(st.files, group, k) else Beneath(st, group, k) {
    }
  }

  // Every cached entry is what uncached resolution would answer now.
  ghost predicate Coherent(entries: map<string, Cached>, st: Stores) {
    forall g, k :: NulFree(g) && CacheKey(g, k) in entries ==> Fits(entries[CacheKey(g, k)], st, g, k)
  }

  ghost predicate Fits(e: Cached, st: Stores, g: string, k: string) {
    Resolve(st, g, k) == Some((e.value, e.source))
  }

  lemma StoringAnswerKeepsCoherent(entries: map<string, Cached>, st: Stores, group: string, key: string, e: Cached)
    requires Coherent(entries, st) && NulFree(group) && Fits(e, st, group, key)
    ensures Coherent(entries[CacheKey(group, key) := e], st)
  {
    forall g, k | NulFree(g) && CacheKey(g, k) == CacheKey(group, key) ensures Fits(e, st, g, k) {
      CacheKeysDistinct(g, k, group, key);
    }
  }

  // A change that concerns one credential only is safe once that credential
  // has left the cache.
  lemma InvalidatedKeepsCoherent(entries: map<string, Cached>, before: Stores, after: Stores, group: string, key: string)
    requires Coherent(entries, before)
    requires forall g, k :: (g, k) != (group, key) ==> Resolve(after, g, k) == Resolve(before, g, k)
    ensures Coherent(entries - {CacheKey(group, key)}, after)
  {
    forall g, k | NulFree(g) && CacheKey(g, k) in entries - {CacheKey(group, key)}
      ensures Fits(entries[CacheKey(g, k)], after, g, k)
    {
      assert (g, k) != (group, key);
    }
  }

  // In particular a change of one keyring slot.
  lemma SlotChangeKeepsCoherent(entries: map<string, Cached>, before: Stores, after: Stores, group: string, key: string)
    requires Coherent(entries, before) && after == before.(ring := after.ring)
    requires after.ring - {(group, key)} == before.ring - {(group, key)}
    ensures Coherent(entries - {CacheKey(group, key)}, after)
  {
    forall g, k | (g, k) != (group, key) ensures Resolve(after, g, k) == Resolve(before, g, k) {
      assert (g, k) in after.ring <==> (g, k) in after.ring - {(group, key)};
      assert (g, k) in before.ring <==> (g, k) in before.ring - {(group, key)};
    }
    InvalidatedKeepsCoherent(entries, before, after, group, key);
  }

  // No line of the group's file is too long for the scanner.
  ghost predicate FileLoads(files: map<string, string>, group: string) {
    group in files ==> EnvFile.Load(files[group]).Loaded?
  }

  // The files after a deletion from env.d; it is refused when there is nothing
  // to remove.
  ghost predicate Removable(files: map<string, string>, group: string, key: string) {
    ValidGroupName(group) && group in files && EnvFile.Deleted(files[group], key).Some?
  }

  ghost function Rewritten(files: map<string, string>, group: string, key: string): map<string, string> {
    if Removable(files, group, key) then files[group := EnvFile.Deleted(files[group], key).value] else files
  }

  // Rewriting one group's file without one key concerns that credential only,
  // unless the file did not load before and does now.
  lemma EnvDDeleteIsLocal(files: map<string, string>, group: string, key: string, g: string, k: string)
    requires (g, k) != (group, key)
    requires FileLoads(files, group) || !FileLoads(Rewritten(files, group, key), group)
    ensures EnvDLookup(Rewritten(files, group, key), g, k) == EnvDLookup(files, g, k)
  {
    if Removable(files, group, key) {
      EnvFile.DeleteThenLoad(files[group], key);
    }
  }

  // Where the file loads, the deletion succeeds exactly when the key was
  // there, and the key is gone after it; the file goes on loading.
  lemma EnvDDeleteRemoves(files: map<string, string>, group: string, key: string)
    requires FileLoads(files, group)
    ensures Removable(files, group, key) <==> EnvDLookup(files, group, key).Some?
    ensures EnvDLookup(Rewritten(files, group, key), group, key).None?
    ensures FileLoads(Rewritten(files, group, key), group)
  {
    if ValidGroupName(group) && group in files {
      EnvFile.DeleteThenLoad(files[group], key);
    }
  }

  // `vars` is `envd` overlaid by the keyring values of `keys`.
  ghost predicate Overlaid(envd: map<string, string>, ring: map<Slot, string>, group: string, keys: seq<string>, vars: map<string, string>) {
    && (forall k :: k in vars <==> (k in keys && (group, k) in ring) || k in envd)
    && (forall k :: k in vars ==> vars[k] == if k in keys && (group, k) in ring then ring[(group, k)] else envd[k])
  }

  lemma OverlayOne(envd: map<string, string>, ring: map<Slot, string>, group: string, keys: seq<string>, k: string, vars: map<string, string>)
    requires Overlaid(envd, ring, group, keys, vars)
    ensures Overlaid(envd, ring, group, keys + [k], if (group, k) in ring then vars[k := ring[(group, k)]] else vars)
  {
  }

  // Nothing but the removed credential changes: the group's file loaded before,
  // or does not load after either, or the group is migrated and its file not
  // read, or no other cached key of the group is in the file that is left.
  ghost predicate RemovalIsSafe(entries: map<string, Cached>, st: Stores, group: string, key: string) {
    var files := Rewritten(st.files, group, key);
    || FileLoads(st.files, group)
    || !FileLoads(files, group)
    || group in st.migrated
    || forall k :: k != key && CacheKey(group, k) in entries ==> EnvDLookup(files, group, k).None?
  }

  ghost predicate AfterRemoval(before: Stores, after: Stores, group: string, key: string) {
    && after.migrated == before.migrated && after.environment == before.environment
    && (after.ring == before.ring || after.ring == before.ring - {(group, key)})
    && after.files == Rewritten(before.files, group, key)
  }

  // Removing a credential from the stores keeps the rest of the cache right
  // exactly when the removal is safe.
  lemma RemovalKeepsCoherentIff(entries: map<string, Cached>, before: Stores, after: Stores, group: string, key: string)
    requires Coherent(entries, before) && AfterRemoval(before, after, group, key)
    ensures Coherent(entries - {CacheKey(group, key)}, after) <==> RemovalIsSafe(entries, before, group, key)
  {
    if RemovalIsSafe(entries, before, group, key) {
      SafeRemovalKeepsCoherent(entries, before, after, group, key);
    } else {
      var k :| k != key && CacheKey(group, k) in entries && EnvDLookup(after.files, group, k).Some?;
      ExposedKeyIsStale(entries, before, after, group, key, k);
    }
  }

  lemma SafeRemovalKeepsCoherent(entries: map<string, Cached>, before: Stores, after: Stores, group: string, key: string)
    requires Coherent(entries, before) && AfterRemoval(before, after, group, key) && RemovalIsSafe(entries, before, group, key)
    ensures Coherent(entries - {CacheKey(group, key)}, after)
  {
    forall g, k | NulFree(g) && CacheKey(g, k) in entries - {CacheKey(group, key)}
      ensures Fits(entries[CacheKey(g, k)], after, g, k)
    {
      assert (g, k) != (group, key) && Fits(entries[CacheKey(g, k)], before, g, k);
      if FileLoads(before.files, group) || !FileLoads(after.files, group) {
        EnvDDeleteIsLocal(before.files, group, key, g, k);
      }
    }
  }

  lemma ExposedKeyIsStale(entries: map<string, Cached>, before: Stores, after: Stores, group: string, key: string, k: string)
    requires Coherent(entries, before) && AfterRemoval(before, after, group, key)
    requires !FileLoads(before.files, group) && group !in before.migrated
    requires k != key && CacheKey(group, k) in entries && EnvDLookup(after.files, group, k).Some?
    ensures !Coherent(entries - {CacheKey(group, key)}, after)
  {
    NamesAreNulFree(group);
    var e := entries[CacheKey(group, k)];
    assert Fits(e, before, group, k) && !Fits(e, after, group, k);
    if CacheKey(group, k) == CacheKey(group, key) {
      CacheKeysDistinct(group, k, group, key);
    }
  }

  lemma NamesAreNulFree(group: string)
    requires ValidGroupName(group)
    ensures NulFree(group)
  {
  }

  // It can fail: a file whose first line is overlong and assigns k, and whose
  // second line assigns o, which is cached from the environment.
  lemma RemovalCanExpose()
    ensures exists entries, st, group, key :: Coherent(entries, st) && !RemovalIsSafe(entries, st, group, key)
  {
    var text := EnvFile.OverlongThenShort();
    var st := Stores([], map[], map["g" := text], map["o" := "e"]);
    var entries := HiddenKeyIsExposed(st, "g", text, "k", "o", "e");
  }

  lemma HiddenKeyIsExposed(st: Stores, group: string, text: string, key: string, other: string, value: string)
    returns (entries: map<string, Cached>)
    requires ValidGroupName(group) && key != other && st == Stores([], map[], map[group := text], map[other := value])
    requires EnvFile.Load(text).LineTooLong? && EnvFile.Deleted(text, key).Some?
    requires var left := EnvFile.Load(EnvFile.Deleted(text, key).value); left.Loaded? && other in left.vars
    ensures Coherent(entries, st) && !RemovalIsSafe(entries, st, group, key)
  {
    NamesAreNulFree(group);
    entries := map[CacheKey(group, other) := Cached(value, FromEnvVar, 0)];
    assert Resolve(st, group, other) == Some((value, FromEnvVar));
    OneEntryIsCoherent(entries, st, group, other);
    assert EnvDLookup(Rewritten(st.files, group, key), group, other).Some?;
    assert CacheKey(group, other) in entries;
  }

  lemma OneEntryIsCoherent(entries: map<string, Cached>, st: Stores, group: string, key: string)
    requires NulFree(group) && entries.Keys == {CacheKey(group, key)} && Fits(entries[CacheKey(group, key)], st, group, key)
    ensures Coherent(entries, st)
  {
    forall g, k | NulFree(g) && CacheKey(g, k) in entries ensures Fits(entries[CacheKey(g, k)], st, g, k) {
      CacheKeysDistinct(g, k, group, key);
    }
  }

  class Service {
    var ring: map<Slot, string>
    var files: map<string, string>
    const environment: map<string, string>
    const migration: MigrationState
    const cache: Cache

    ghost function View(): Stores reads this, migration {
      Stores(migration.migratedGroups, ring, files, environment)
    }

    ghost predicate Valid() reads this, migration, cache {
      migration.Valid() && Coherent(cache.entries, View())
    }

    constructor (ring: map<Slot, string>, environment: map<string, string>, files: map<string, string>, migration: MigrationState, ttl: int)
      requires migration.Valid()
      ensures Valid() && View() == Stores(migration.migratedGroups, ring, files, environment)
      ensures this.migration == migration && fresh(cache)
    {
      this.environment, this.files, this.migration, this.ring := environment, files, migration, ring;
      this.cache := new Cache(ttl);
    }

    // Get agrees with the cacheless service, hit or miss, and changes nothing
    // but the cache.
    method Get(group: string, key: string, now: int) returns (r: Option<(string, Source)>)
      requires Valid() && NulFree(group)
      modifies cache
      ensures Valid() && r == Resolve(View(), group, key)
      ensures var ck := CacheKey(group, key);
              && (r.Some? ==> ck in cache.entries && (cache.entries[ck].value, cache.entries[ck].source) == r.value)
              && cache.entries - {ck} == old(cache.entries) - {ck}
    {
      var cached := cache.Get(group, key, now);
      if cached.Some? {
        assert Fits(cached.value, View(), group, key);
        return Some((cached.value.value, cached.value.source));
      }
      var migrated := migration.IsMigrated(group);
      if migrated {
        r := GetMigratedCredential(group, key);
      } else {
        r := GetLegacyCredential(group, key);
      }
      if r.Some? {
        StoringAnswerKeepsCoherent(cache.entries, View(), group, key, Cached(r.value.0, r.value.1, now));
        cache.Set(group, key, r.value.0, r.value.1, now);
      }
    }

    method GetMigratedCredential(group: string, key: string) returns (r: Option<(string, Source)>)
      requires group in migration.migratedGroups
      ensures r == Resolve(View(), group, key)
    {
      if (group, key) in ring {
        return Some((ring[(group, key)], FromKeyring));
      }
      if key in environment {
        return Some((environment[key], FromEnvVar));
      }
      return None;
    }

    method GetLegacyCredential(group: string, key: string) returns (r: Option<(string, Source)>)
      requires group !in migration.migratedGroups
      ensures r == Resolve(View(), group, key)
    {
      var envd := GetEnvD(group, key);
      if envd.Some? {
        return Some((envd.value, FromEnvD));
      }
      if (group, key) in ring {
        return Some((ring[(group, key)], FromKeyring));
      }
      if key in environment {
        return Some((environment[key], FromEnvVar));
      }
      return None;
    }

    method GetEnvD(group: string, key: string) returns (r: Option<string>)
      ensures r == EnvDLookup(files, group, key)
    {
      if !ValidGroupName(group) || group !in files {
        return None;
      }
      var loaded := EnvFile.LoadGroup(files[group]);
      match loaded
      case LineTooLong => return None;
      case Loaded(vars) => return if key in vars then Some(vars[key]) else None;
    }

    // `writes` tells whether the keyring accepts the value, `saves` whether the
    // migration state file can be written; a failure of the latter is logged.
    method Set(group: string, key: string, value: string, forceKeyring: bool, writes: bool, saves: bool) returns (ok: bool)
      requires Valid()
      modifies this, migration, cache
      ensures Valid() && files == old(files) && migration.migratedGroups == old(migration.migratedGroups)
      ensures ok == ((forceKeyring || group in migration.migratedGroups) && writes)
      ensures ring == if ok then old(ring)[(group, key) := value] else old(ring)
      ensures forall g, k :: k in migration.Keys(g) <==> k in old(migration.Keys(g)) || (ok && (g, k) == (group, key))
      ensures cache.entries == old(cache.entries) - {CacheKey(group, key)}
    {
      ghost var before, entries := View(), cache.entries;
      cache.Invalidate(group, key);
      var migrated := migration.IsMigrated(group);
      ok := (forceKeyring || migrated) && writes;
      if ok {
        ring := ring[(group, key) := value];
        var tracked := migration.TrackKey(group, key, saves);
      }
      SlotChangeKeepsCoherent(entries, before, View(), group, key);
    }

    // Deletes from the keyring; true when the key was there.
    method DeleteFromKeyring(group: string, key: string, saves: bool) returns (ok: bool)
      requires Valid()
      modifies this, migration, cache
      ensures Valid() && files == old(files) && migration.migratedGroups == old(migration.migratedGroups)
      ensures ok == ((group, key) in old(ring)) && ring == old(ring) - {(group, key)}
      ensures forall g, k :: k in migration.Keys(g) <==> k in old(migration.Keys(g)) && !(ok && (g, k) == (group, key))
      ensures cache.entries == old(cache.entries) - {CacheKey(group, key)}
    {
      ghost var before := View();
      cache.Invalidate(group, key);
      ok := (group, key) in ring;
      if ok {
        ring := ring - {(group, key)};
        var untracked := migration.UntrackKey(group, key, saves);
      } else {
        assert ring - {(group, key)} == ring;
      }
      SlotChangeKeepsCoherent(old(cache.entries), before, View(), group, key);
    }

    // Deletes from the env.d file.  When the deletion turns a file that did not
    // load, for an overlong line, into one that does, the file's other keys
    // come to light while cached answers for them, taken from further down the
    // order, remain.
    method DeleteFromEnvD(group: string, key: string) returns (ok: bool)
      requires Valid()
      modifies this, cache
      ensures ring == old(ring) && migration.Valid()
      ensures ok == Removable(old(files), group, key) && files == Rewritten(old(files), group, key)
      ensures Valid() <==> RemovalIsSafe(old(cache.entries), old(View()), group, key)
      ensures cache.entries == old(cache.entries) - {CacheKey(group, key)}
    {
      ghost var before := View();
      cache.Invalidate(group, key);
      ok := RemoveFromFile(group, key);
      RemovalKeepsCoherentIff(old(cache.entries), before, View(), group, key);
    }

    method RemoveFromFile(group: string, key: string) returns (ok: bool)
      modifies this`files
      ensures ok == Removable(old(files), group, key) && files == Rewritten(old(files), group, key)
    {
      if !ValidGroupName(group) || group !in files {
        return false;
      }
      var text := EnvFile.Delete(files[group], key);
      if text.None? {
        return false;
      }
      files := files[group := text.value];
      return true;
    }

    // Deletes from both stores and says from which.
    method Delete(group: string, key: string, saves: bool) returns (sources: seq<Source>)
      requires Valid()
      modifies this, migration, cache
      ensures migration.Valid() && migration.migratedGroups == old(migration.migratedGroups)
      ensures ring == old(ring) - {(group, key)} && files == Rewritten(old(files), group, key)
      ensures FromKeyring in sources <==> (group, key) in old(ring)
      ensures FromEnvD in sources <==> Removable(old(files), group, key)
      ensures forall g, k :: k in migration.Keys(g) <==> k in old(migration.Keys(g)) && !((g, k) == (group, key) && (group, key) in old(ring))
      ensures Valid() <==> RemovalIsSafe(old(cache.entries), old(View()), group, key)
      ensures cache.entries == old(cache.entries) - {CacheKey(group, key)}
    {
      ghost var before := View();
      cache.Invalidate(group, key);
      sources := [];
      if (group, key) in ring {
        ring := ring - {(group, key)};
        sources := sources + [FromKeyring];
        var untracked := migration.UntrackKey(group, key, saves);
      } else {
        assert ring - {(group, key)} == ring;
      }
      var removed := RemoveFromFile(group, key);
      if removed {
        sources := sources + [FromEnvD];
      }
      RemovalKeepsCoherentIff(old(cache.entries), before, View(), group, key);
    }

    // The public cache operations only forget.
    method InvalidateCache(group: string, key: string)
      requires Valid()
      modifies cache
      ensures Valid()
    {
      InvalidatedKeepsCoherent(cache.entries, View(), View(), group, key);
      cache.Invalidate(group, key);
    }

    method ClearCache()
      requires Valid()
      modifies cache
      ensures Valid()
    {
      cache.Clear();
    }

    // All credentials of a group that can be listed: env.d, overlaid by the
    // keyring values of the tracked keys.
    method GetAll(group: string) returns (vars: map<string, string>)
      ensures forall k :: k in vars <==> (k in migration.Keys(group) && (group, k) in ring) || EnvDLookup(files, group, k).Some?
      ensures forall k :: k in vars && k in migration.Keys(group) && (group, k) in ring ==> vars[k] == ring[(group, k)]
      ensures forall k :: k in vars && !(k in migration.Keys(group) && (group, k) in ring) ==> EnvDLookup(files, group, k) == Some(vars[k])
    {
      vars := map[];
      if ValidGroupName(group) && group in files {
        var loaded := EnvFile.LoadGroup(files[group]);
        if loaded.Loaded? {
          vars := loaded.vars;
        }
      }
      ghost var envd := vars;
      var keys := migration.Keys(group);
      for i := 0 to |keys|
        invariant Overlaid(envd, ring, group, keys[..i], vars)
      {
        OverlayOne(envd, ring, group, keys[..i], keys[i], vars);
        assert keys[..i + 1] == keys[..i] + [keys[i]];
        if (group, keys[i]) in ring {
          vars := vars[keys[i] := ring[(group, keys[i])]];
        }
      }
      assert keys[..|keys|] == keys;
    }
  }
}
