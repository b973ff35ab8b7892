/**
  Backup and restore of the keyring credentials of migrated groups
  (internal/credentials/backup.go), with encryption and encoding taken as a
  faithful transport of the payload.
 */
module Backup {
  import opened Wrappers
  import opened Credentials

  datatype Payload = Payload(groups: map<string, map<string, string>>, migrated: seq<string>)

  // The credentials of all groups as keyring slots.
  function Values(p: Payload): map<Slot, string> {
    var slots := set g, k | g in p.groups && k in p.groups[g] :: (g, k);
    map slot | slot in slots :: p.groups[slot.0][slot.1]
  }

  /* ----- building the payload ----- */

  // The tracked keys of a group that the keyring still holds.
  function GroupCredentials(keys: seq<string>, ring: map<Slot, string>, group: string): map<string, string> {
    map k | k in keys && (group, k) in ring :: ring[(group, k)]
  }

  function PayloadOf(migrated: seq<string>, groupKeys: map<string, seq<string>>, ring: map<Slot, string>): Payload {
    Payload(GroupsOf(migrated, groupKeys, ring), migrated)
  }

  function GroupsOf(groups: seq<string>, groupKeys: map<string, seq<string>>, ring: map<Slot, string>): map<string, map<string, string>> {
    if groups == [] then map[]
    else
      var g := groups[|groups| - 1];
      GroupsOf(groups[..|groups| - 1], groupKeys, ring)[g := GroupCredentials(KeysFor(groupKeys, g), ring, g)]
  }

  lemma {:induction false} GroupsOfMembers(groups: seq<string>, groupKeys: map<string, seq<string>>, ring: map<Slot, string>)
    ensures var m := GroupsOf(groups, groupKeys, ring);
            (forall g :: g in m <==> g in groups) && forall g :: g in m ==> m[g] == GroupCredentials(KeysFor(groupKeys, g), ring, g)
  {
    if groups != [] {
      GroupsOfMembers(groups[..|groups| - 1], groupKeys, ring);
      assert groups == groups[..|groups| - 1] + [groups[|groups| - 1]];
    }
  }

  method BuildBackupPayload(s: Service) returns (p: Payload)
    ensures p == PayloadOf(s.migration.migratedGroups, s.migration.groupKeys, s.ring)
  {
    var groups := s.migration.migratedGroups;
    ghost var keys, ring := s.migration.groupKeys, s.ring;
    var creds: map<string, map<string, string>> := map[];
    for i := 0 to |groups|
      invariant creds == GroupsOf(groups[..i], keys, ring)
    {
      GroupsOfStep(groups, i, keys, ring);
      var groupCreds := CollectGroup(s, groups[i]);
      creds := creds[groups[i] := groupCreds];
    }
    assert groups[..|groups|] == groups;
    return Payload(creds, groups);
  }

  lemma GroupsOfStep(groups: seq<string>, i: nat, groupKeys: map<string, seq<string>>, ring: map<Slot, string>)
    requires i < |groups|
    ensures GroupsOf(groups[..i + 1], groupKeys, ring)
            == GroupsOf(groups[..i], groupKeys, ring)[groups[i] := GroupCredentials(KeysFor(groupKeys, groups[i]), ring, groups[i])]
  {
    assert groups[..i + 1][..i] == groups[..i];
  }

  method CollectGroup(s: Service, group: string) returns (groupCreds: map<string, string>)
    ensures groupCreds == GroupCredentials(KeysFor(s.migration.groupKeys, group), s.ring, group)
  {
    var keys := s.migration.Keys(group);
    groupCreds := map[];
    for j := 0 to |keys|
      invariant groupCreds == GroupCredentials(keys[..j], s.ring, group)
    {
      assert keys[..j + 1] == keys[..j] + [keys[j]];
      if (group, keys[j]) in s.ring {
        groupCreds := groupCreds[keys[j] := s.ring[(group, keys[j])]];
      }
    }
    assert keys[..|keys|] == keys;
  }

  /* ----- restoring ----- */

  // The keyring after the slots in `done` were restored.
  function Overlay(ring: map<Slot, string>, values: map<Slot, string>, done: set<Slot>, merge: bool): map<Slot, string>
    requires done <= values.Keys
  {
    map slot | slot in ring.Keys + done ::
      if slot in done && !(merge && slot in ring) then values[slot] else ring[slot]
  }

  // How a restore ends.  `at` is the slot, or `index` in the list of migrated
  // groups, at which it failed, `done` the slots restored before.
  datatype Outcome = Restored | WriteFailed(at: Slot, done: set<Slot>) | TrackFailed(at: Slot, done: set<Slot>) | MarkFailed(index: nat)

  // Which operations fail.
  datatype Faults = Faults(write: Slot -> bool, track: Slot -> bool, mark: string -> bool)

  ghost predicate NoFaults(f: Faults) {
    (forall slot :: !f.write(slot) && !f.track(slot)) && forall g :: !f.mark(g)
  }

  // The slots a restore has written so far; merging skips those already held.
  function Written(ring: map<Slot, string>, done: set<Slot>, merge: bool): set<Slot> {
    set slot | slot in done && !(merge && slot in ring)
  }

  lemma UndoOverlay(ring: map<Slot, string>, values: map<Slot, string>, done: set<Slot>, merge: bool)
    requires done <= values.Keys
    ensures Overlay(ring, values, done, merge) - Written(ring, done, merge) == ring - Written(ring, done, merge)
  {
  }

  lemma OverlayStep(ring: map<Slot, string>, values: map<Slot, string>, done: set<Slot>, merge: bool, slot: Slot)
    requires done <= values.Keys && slot in values && slot !in done
    ensures slot in Overlay(ring, values, done, merge) <==> slot in ring
    ensures Overlay(ring, values, done + {slot}, merge) ==
            if merge && slot in ring then Overlay(ring, values, done, merge) else Overlay(ring, values, done, merge)[slot := values[slot]]
    ensures Written(ring, done + {slot}, merge) ==
            Written(ring, done, merge) + if merge && slot in ring then {} else {slot}
  {
  }

  lemma OverlayNothing(ring: map<Slot, string>, values: map<Slot, string>, merge: bool)
    ensures Overlay(ring, values, {}, merge) == ring && Written(ring, {}, merge) == {}
  {
  }

  // The migrated groups after more of them were marked, each once.
  function Marked(migrated: seq<string>, groups: seq<string>): seq<string> {
    if groups == [] then migrated
    else
      var before, g := Marked(migrated, groups[..|groups| - 1]), groups[|groups| - 1];
      if g in before then before else before + [g]
  }

  lemma {:induction false} MarkedMembers(migrated: seq<string>, groups: seq<string>)
    ensures forall g :: g in Marked(migrated, groups) <==> g in migrated || g in groups
  {
    if groups != [] {
      MarkedMembers(migrated, groups[..|groups| - 1]);
      assert groups == groups[..|groups| - 1] + [groups[|groups| - 1]];
    }
  }

  // What each outcome does to the stores, and which fault it comes from.
  ghost predicate Leaves(p: Payload, merge: bool, faults: Faults, before: Stores, r: Outcome, after: Stores) {
    var values := Values(p);
    && after.files == before.files && after.environment == before.environment
    && match r
       case Restored =>
         after.ring == Overlay(before.ring, values, values.Keys, merge) && after.migrated == Marked(before.migrated, p.migrated)
       case WriteFailed(at, done) =>
         && FailedAt(values, at, done) && faults.write(at) && !(merge && at in before.ring)
         && after.ring == before.ring - Written(before.ring, done, merge) && after.migrated == before.migrated
       case TrackFailed(at, done) =>
         && FailedAt(values, at, done) && faults.track(at)
         && after.ring == Overlay(before.ring, values, done + {at}, merge) && after.migrated == before.migrated
       case MarkFailed(index) =>
         && index < |p.migrated| && faults.mark(p.migrated[index])
         && after.ring == Overlay(before.ring, values, values.Keys, merge)
         && after.migrated == Marked(before.migrated, p.migrated[..index + 1])
  }

  predicate FailedAt(values: map<Slot, string>, at: Slot, done: set<Slot>) {
    done <= values.Keys && at in values && at !in done
  }

  // The slots an outcome leaves written or deleted, and the groups it leaves
  // newly marked.
  ghost function Touched(p: Payload, merge: bool, ring: map<Slot, string>, r: Outcome): set<Slot>
  {
    match r
    case Restored => Written(ring, Values(p).Keys, merge)
    case WriteFailed(_, done) => Written(ring, done, merge)
    case TrackFailed(at, done) => Written(ring, done + {at}, merge)
    case MarkFailed(_) => Written(ring, Values(p).Keys, merge)
  }

  predicate NewlyMarked(p: Payload, migrated: seq<string>, r: Outcome, group: string) {
    r.MarkFailed? && r.index < |p.migrated| && group in p.migrated[..r.index + 1] && group !in migrated
  }

  // A cached answer that a failed restore leaves right.  One from env.d needs
  // its group not to be marked.  One from the keyring needs its slot to be left
  // alone or written with the same value.  One from the environment needs its
  // slot not to be written.
  ghost predicate Survives(p: Payload, merge: bool, before: Stores, r: Outcome, slot: Slot, e: Cached) {
    var touched := slot in Touched(p, merge, before.ring, r);
    match e.source
    case FromEnvD => !NewlyMarked(p, before.migrated, r, slot.0)
    case FromKeyring => touched ==> !r.WriteFailed? && slot in Values(p) && Values(p)[slot] == e.value
    case FromEnvVar => touched ==> r.WriteFailed?
  }

  ghost predicate AllSurvive(p: Payload, merge: bool, before: Stores, r: Outcome, entries: map<string, Cached>) {
    forall g, k :: NulFree(g) && CacheKey(g, k) in entries ==> Survives(p, merge, before, r, (g, k), entries[CacheKey(g, k)])
  }

  lemma EntrySurvivesIff(p: Payload, merge: bool, faults: Faults, before: Stores, r: Outcome, after: Stores, g: string, k: string, e: Cached)
    requires Leaves(p, merge, faults, before, r, after) && !r.Restored? && Fits(e, before, g, k)
    ensures Fits(e, after, g, k) <==> Survives(p, merge, before, r, (g, k), e)
  {
    RingOutside(p, merge, faults, before, r, after, (g, k));
    if r.MarkFailed? {
      MarkedMembers(before.migrated, p.migrated[..r.index + 1]);
    }
  }

  // The ring an outcome leaves, slot by slot.
  lemma RingOutside(p: Payload, merge: bool, faults: Faults, before: Stores, r: Outcome, after: Stores, slot: Slot)
    requires Leaves(p, merge, faults, before, r, after)
    ensures var touched := slot in Touched(p, merge, before.ring, r);
            && (touched ==> slot in Values(p))
            && (touched && r.WriteFailed? ==> slot !in after.ring)
            && (touched && !r.WriteFailed? ==> slot in after.ring && after.ring[slot] == Values(p)[slot])
            && (!touched ==> (slot in after.ring <==> slot in before.ring) && (slot in before.ring ==> after.ring[slot] == before.ring[slot]))
  {
  }

  // After a failed restore, whose cache is left as it was, the cache is right
  // exactly when every cached answer survives.
  lemma FailedRestoreCoherentIff(p: Payload, merge: bool, faults: Faults, before: Stores, r: Outcome, after: Stores, entries: map<string, Cached>)
    requires Leaves(p, merge, faults, before, r, after) && !r.Restored? && Coherent(entries, before)
    ensures Coherent(entries, after) <==> AllSurvive(p, merge, before, r, entries)
  {
    forall g, k | NulFree(g) && CacheKey(g, k) in entries
      ensures Fits(entries[CacheKey(g, k)], after, g, k) <==> Survives(p, merge, before, r, (g, k), entries[CacheKey(g, k)])
    {
      assert Fits(entries[CacheKey(g, k)], before, g, k);
      EntrySurvivesIff(p, merge, faults, before, r, after, g, k, entries[CacheKey(g, k)]);
    }
  }

  // A failed restore that spoils the cache.
  ghost predicate Spoils(p: Payload, faults: Faults, before: Stores, r: Outcome, after: Stores, entries: map<string, Cached>) {
    Leaves(p, false, faults, before, r, after) && Coherent(entries, before) && !Coherent(entries, after)
  }

  // Each kind of failure can: a slot answered from the keyring is overwritten,
  // or overwritten and then deleted.
  lemma FailuresCanSpoil(g: string, k: string, l: string, r: Outcome)
    requires NulFree(g) && k != l && (r == WriteFailed((g, l), {(g, k)}) || r == TrackFailed((g, k), {}) || r == MarkFailed(0))
    ensures exists p, faults, before, after, entries :: Spoils(p, faults, before, r, after, entries)
  {
    var p := Payload(map[g := map[k := "new", l := "x"]], [g]);
    assert Values(p) == map[(g, k) := "new", (g, l) := "x"];
    FailureSpoils(p, (g, k), (g, l), r, "old");
  }

  lemma FailureSpoils(p: Payload, slot: Slot, other: Slot, r: Outcome, held: string)
    requires NulFree(slot.0) && slot != other && slot in Values(p) && other in Values(p) && Values(p)[slot] != held && |p.migrated| == 1
    requires r == WriteFailed(other, {slot}) || r == TrackFailed(slot, {}) || r == MarkFailed(0)
    ensures exists faults, before, after, entries :: Spoils(p, faults, before, r, after, entries)
  {
    var before := Stores([], map[slot := held], map[], map[]);
    var faults := Faults(_ => true, _ => true, _ => true);
    var e := Cached(held, FromKeyring, 0);
    LeavesBehind(p, faults, before, r);
    TouchedIsLost(p, before, r, slot, e);
    assert Fits(e, before, slot.0, slot.1);
    SpoiledBy(p, faults, before, r, LeftBehind(p, before, r), slot, e);
  }

  lemma TouchedIsLost(p: Payload, before: Stores, r: Outcome, slot: Slot, e: Cached)
    requires e.source == FromKeyring && slot in Values(p) && Values(p)[slot] != e.value
    requires match r
             case Restored => true
             case WriteFailed(_, done) => slot in done
             case TrackFailed(at, done) => slot == at
             case MarkFailed(_) => true
    ensures !Survives(p, false, before, r, slot, e)
  {
  }

  lemma LeavesBehind(p: Payload, faults: Faults, before: Stores, r: Outcome)
    requires (forall slot :: faults.write(slot) && faults.track(slot)) && forall g :: faults.mark(g)
    requires match r
             case Restored => false
             case WriteFailed(at, done) => FailedAt(Values(p), at, done)
             case TrackFailed(at, done) => FailedAt(Values(p), at, done)
             case MarkFailed(index) => index + 1 == |p.migrated|
    ensures Leaves(p, false, faults, before, r, LeftBehind(p, before, r))
  {
    assert p.migrated[..|p.migrated|] == p.migrated;
  }

  ghost function LeftBehind(p: Payload, before: Stores, r: Outcome): Stores
    requires r.WriteFailed? || (r.TrackFailed? && r.done + {r.at} <= Values(p).Keys) || r.MarkFailed?
  {
    match r
    case WriteFailed(_, done) => before.(ring := before.ring - Written(before.ring, done, false))
    case TrackFailed(at, done) => before.(ring := Overlay(before.ring, Values(p), done + {at}, false))
    case _ => before.(ring := Overlay(before.ring, Values(p), Values(p).Keys, false), migrated := Marked(before.migrated, p.migrated))
  }

  lemma SpoiledBy(p: Payload, faults: Faults, before: Stores, r: Outcome, after: Stores, slot: Slot, e: Cached)
    requires NulFree(slot.0) && Leaves(p, false, faults, before, r, after) && !r.Restored?
    requires Fits(e, before, slot.0, slot.1) && !Survives(p, false, before, r, slot, e)
    ensures exists entries :: Spoils(p, faults, before, r, after, entries)
  {
    var entries := map[CacheKey(slot.0, slot.1) := e];
    OneEntryIsCoherent(entries, before, slot.0, slot.1);
    EntrySurvivesIff(p, false, faults, before, r, after, slot.0, slot.1, e);
    assert CacheKey(slot.0, slot.1) in entries;
    assert Spoils(p, faults, before, r, after, entries);
  }

  // A failed write while merging only ever deletes what the restore itself
  // added, so it spoils nothing.
  lemma FailedMergeWriteIsHarmless(p: Payload, before: Stores, r: Outcome, entries: map<string, Cached>)
    requires r.WriteFailed? && Coherent(entries, before)
    ensures AllSurvive(p, true, before, r, entries)
  {
    forall g, k | NulFree(g) && CacheKey(g, k) in entries ensures Survives(p, true, before, r, (g, k), entries[CacheKey(g, k)]) {
      assert Fits(entries[CacheKey(g, k)], before, g, k);
    }
  }

  // Merging keeps what was there.
  ghost predicate Keeps(before: map<Slot, string>, after: map<Slot, string>) {
    forall slot :: slot in before ==> slot in after && after[slot] == before[slot]
  }

  lemma MergeKeeps(p: Payload, faults: Faults, before: Stores, r: Outcome, after: Stores)
    requires Leaves(p, true, faults, before, r, after)
    ensures Keeps(before.ring, after.ring)
  {
  }

  // One credential: skipped when merging over a held value, else written;
  // tracked in both cases.
  method RestoreOne(s: Service, slot: Slot, value: string, merge: bool, faults: Faults) returns (written: bool, tracked: bool)
    requires s.migration.Valid()
    modifies s`ring, s.migration
    ensures s.migration.Valid() && s.migration.migratedGroups == old(s.migration.migratedGroups)
    ensures written == ((merge && slot in old(s.ring)) || !faults.write(slot))
    ensures s.ring == if (merge && slot in old(s.ring)) || !written then old(s.ring) else old(s.ring)[slot := value]
    ensures tracked ==> written
    ensures written && !tracked ==> faults.track(slot)
    ensures forall g, k :: k in s.migration.Keys(g) <==> k in old(s.migration.Keys(g)) || (written && (g, k) == slot)
  {
    if !(merge && slot in s.ring) {
      if faults.write(slot) {
        return false, false;
      }
      s.ring := s.ring[slot := value];
    }
    written := true;
    tracked := s.migration.TrackKey(slot.0, slot.1, !faults.track(slot));
  }

  // The slots whose keys an outcome leaves tracked.
  function TrackedBy(values: map<Slot, string>, r: Outcome): set<Slot> {
    match r
    case WriteFailed(_, done) => done
    case TrackFailed(at, done) => done + {at}
    case _ => values.Keys
  }

  // The nested walks over groups and keys, which visit the slots in some
  // order.
  method RestoreSlots(s: Service, values: map<Slot, string>, merge: bool, faults: Faults) returns (r: Outcome)
    requires s.migration.Valid()
    modifies s`ring, s.migration
    ensures s.migration.Valid() && s.migration.migratedGroups == old(s.migration.migratedGroups)
    ensures !r.MarkFailed? && (r.Restored? ==> s.ring == Overlay(old(s.ring), values, values.Keys, merge))
    ensures r.WriteFailed? ==>
              && FailedAt(values, r.at, r.done) && faults.write(r.at) && !(merge && r.at in old(s.ring))
              && s.ring == old(s.ring) - Written(old(s.ring), r.done, merge)
    ensures r.TrackFailed? ==>
              FailedAt(values, r.at, r.done) && faults.track(r.at) && s.ring == Overlay(old(s.ring), values, r.done + {r.at}, merge)
    ensures forall g, k :: k in s.migration.Keys(g) <==> k in old(s.migration.Keys(g)) || (g, k) in TrackedBy(values, r)
    ensures NoFaults(faults) ==> r.Restored?
  {
    ghost var ring0 := s.ring;
    var done: set<Slot> := {};
    var restored: set<Slot> := {};
    var todo := values.Keys;
    OverlayNothing(ring0, values, merge);
    while todo != {}
      invariant todo + done == values.Keys && todo !! done
      invariant s.ring == Overlay(ring0, values, done, merge) && restored == Written(ring0, done, merge)
      invariant s.migration.Valid() && s.migration.migratedGroups == old(s.migration.migratedGroups)
      invariant forall g, k :: k in s.migration.Keys(g) <==> k in old(s.migration.Keys(g)) || (g, k) in done
      decreases todo
    {
      var slot :| slot in todo;
      var skip := merge && slot in s.ring;
      OverlayStep(ring0, values, done, merge, slot);
      UndoOverlay(ring0, values, done, merge);
      var written, tracked := RestoreOne(s, slot, values[slot], merge, faults);
      if !written {
        s.ring := s.ring - restored;
        return WriteFailed(slot, done);
      }
      if !tracked {
        return TrackFailed(slot, done);
      }
      todo, done := todo - {slot}, done + {slot};
      restored := if skip then restored else restored + {slot};
    }
    assert done == values.Keys;
    return Restored;
  }

  // Marks the groups in order; the failing group is marked in memory too.
  method MarkAll(m: MigrationState, groups: seq<string>, faults: Faults) returns (failed: Option<nat>)
    requires m.Valid()
    modifies m
    ensures m.Valid() && m.groupKeys == old(m.groupKeys)
    ensures failed.None? ==> m.migratedGroups == Marked(old(m.migratedGroups), groups)
    ensures failed.Some? ==> failed.value < |groups| && faults.mark(groups[failed.value])
                             && m.migratedGroups == Marked(old(m.migratedGroups), groups[..failed.value + 1])
  {
    for i := 0 to |groups|
      invariant m.Valid() && m.groupKeys == old(m.groupKeys)
      invariant m.migratedGroups == Marked(old(m.migratedGroups), groups[..i])
    {
      assert groups[..i + 1][..i] == groups[..i];
      var ok := m.MarkMigrated(groups[i], !faults.mark(groups[i]));
      if !ok {
        return Some(i);
      }
    }
    assert groups[..|groups|] == groups;
    return None;
  }

  // Every outcome leaves the stores as described, and the cache is cleared
  // only on success: after a failure it is right exactly when every cached
  // answer survives.
  method RestoreBackup(s: Service, p: Payload, merge: bool, faults: Faults) returns (r: Outcome)
    requires s.Valid()
    modifies s`ring, s.migration, s.cache
    ensures s.migration.Valid() && Leaves(p, merge, faults, old(s.View()), r, s.View())
    ensures forall g, k :: k in s.migration.Keys(g) <==> k in old(s.migration.Keys(g)) || (g, k) in TrackedBy(Values(p), r)
    ensures NoFaults(faults) ==> r.Restored?
    // Merging never changes a value the keyring already held, however it ends.
    ensures merge ==> Keeps(old(s.ring), s.ring)
    ensures s.cache.entries == if r.Restored? then map[] else old(s.cache.entries)
    ensures !r.Restored? ==> (s.Valid() <==> AllSurvive(p, merge, old(s.View()), r, s.cache.entries))
    ensures r.Restored? || (merge && r.WriteFailed?) ==> s.Valid()
  {
    r := RestoreSlots(s, Values(p), merge, faults);
    if r.Restored? {
      var failed := MarkAll(s.migration, p.migrated, faults);
      if failed.None? {
        s.cache.Clear();
      } else {
        r := MarkFailed(failed.value);
      }
    }
    if merge {
      MergeKeeps(p, faults, old(s.View()), r, s.View());
    }
    if !r.Restored? {
      FailedRestoreCoherentIff(p, merge, faults, old(s.View()), r, s.View(), s.cache.entries);
      if merge && r.WriteFailed? {
        FailedMergeWriteIsHarmless(p, old(s.View()), r, s.cache.entries);
      }
    }
  }

  /* ----- the round trip ----- */

  // What a backup covers.
  ghost function Covered(migrated: seq<string>, groupKeys: map<string, seq<string>>, ring: map<Slot, string>): map<Slot, string> {
    map slot | slot in ring && slot.0 in migrated && slot.1 in KeysFor(groupKeys, slot.0) :: ring[slot]
  }

  lemma PayloadCovers(migrated: seq<string>, groupKeys: map<string, seq<string>>, ring: map<Slot, string>, merge: bool)
    ensures var values := Values(PayloadOf(migrated, groupKeys, ring));
            && values == Covered(migrated, groupKeys, ring)
            && Overlay(map[], values, values.Keys, merge) == values
  {
    ValuesCovered(migrated, groupKeys, ring);
    OverlayEmpty(Values(PayloadOf(migrated, groupKeys, ring)), merge);
  }

  lemma ValuesCovered(migrated: seq<string>, groupKeys: map<string, seq<string>>, ring: map<Slot, string>)
    ensures Values(PayloadOf(migrated, groupKeys, ring)) == Covered(migrated, groupKeys, ring)
  {
    GroupsOfMembers(migrated, groupKeys, ring);
  }

  lemma OverlayEmpty(values: map<Slot, string>, merge: bool)
    ensures Overlay(map[], values, values.Keys, merge) == values
  {
  }

  // Backing up one service and restoring into an empty one reproduces every
  // tracked keyring credential of every migrated group, with its value, and
  // the set of migrated groups; nothing else appears.
  method BackupAndRestore(source: Service, target: Service, merge: bool) returns (r: Outcome)
    requires target.Valid() && target.ring == map[] && target.migration.migratedGroups == [] && target.migration.groupKeys == map[]
    requires source != target && source.migration != target.migration
    modifies target`ring, target.migration, target.cache
    ensures r.Restored? && target.Valid()
    ensures target.ring == Covered(source.migration.migratedGroups, source.migration.groupKeys, source.ring)
    ensures forall g :: g in target.migration.migratedGroups <==> g in source.migration.migratedGroups
    ensures forall g, k :: k in target.migration.Keys(g) <==> (g, k) in target.ring
  {
    var p := BuildBackupPayload(source);
    PayloadCovers(p.migrated, source.migration.groupKeys, source.ring, merge);
    MarkedMembers([], p.migrated);
    r := RestoreBackup(target, p, merge, Faults(_ => false, _ => false, _ => false));
  }
}
