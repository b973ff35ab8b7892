/**
  Runs of the credential service (internal/credentials/service.go,
  internal/credentials/backup.go) against the service without a cache.
 */
module CredentialRuns {
  import opened Wrappers
  import opened Credentials
  import opened Backup
  import EnvFile

  datatype Op =
    | GetOp(group: string, key: string, now: int)
    | SetOp(group: string, key: string, value: string, force: bool, writes: bool, saves: bool)
    | DeleteOp(group: string, key: string, saves: bool)
    | DeleteFromKeyringOp(group: string, key: string, saves: bool)
    | DeleteFromEnvDOp(group: string, key: string)
    | RestoreOp(payload: Payload, merge: bool, faults: Faults)
    | InvalidateOp(group: string, key: string)
    | ClearOp

  // The service without a cache: what an operation other than a restore does
  // to the stores, and what Get answers.
  ghost function Effect(st: Stores, op: Op): Stores {
    match op
    case SetOp(g, k, v, force, writes, _) =>
      if (force || g in st.migrated) && writes then st.(ring := st.ring[(g, k) := v]) else st
    case DeleteOp(g, k, _) => st.(ring := st.ring - {(g, k)}, files := Rewritten(st.files, g, k))
    case DeleteFromKeyringOp(g, k, _) => st.(ring := st.ring - {(g, k)})
    case DeleteFromEnvDOp(g, k) => st.(files := Rewritten(st.files, g, k))
    case _ => st
  }

  // Which slots a failing restore has reached depends on the order of its
  // walk, so it can leave the stores in several ways.
  ghost predicate Does(st: Stores, op: Op, after: Stores) {
    if op.RestoreOp? then exists r :: Leaves(op.payload, op.merge, op.faults, st, r, after) else after == Effect(st, op)
  }

  ghost function Answer(st: Stores, op: Op): Option<(string, Source)> {
    if op.GetOp? then Resolve(st, op.group, op.key) else None
  }

  // states[i] are the stores before ops[i].
  ghost predicate Run(st: Stores, ops: seq<Op>, states: seq<Stores>) {
    && |states| == |ops| + 1 && states[0] == st
    && forall i :: 0 <= i < |ops| ==> Does(states[i], ops[i], states[i + 1])
  }

  ghost predicate AnswersOf(ops: seq<Op>, states: seq<Stores>, answers: seq<Option<(string, Source)>>)
    requires |states| == |ops| + 1
  {
    |answers| == |ops| && forall i :: 0 <= i < |ops| ==> answers[i] == Answer(states[i], ops[i])
  }

  // What a caller can check before an operation, without knowing the cache: a
  // deletion does not make a file readable that was not, or nobody reads that
  // file; a restore that fails, in whatever way it can, changes no answer.
  ghost predicate Harmless(st: Stores, op: Op) {
    && (op.DeleteOp? || op.DeleteFromEnvDOp? ==>
          FileLoads(st.files, op.group) || !FileLoads(Rewritten(st.files, op.group, op.key), op.group) || op.group in st.migrated)
    && (op.RestoreOp? ==>
          forall r, after :: Leaves(op.payload, op.merge, op.faults, st, r, after) && !r.Restored? ==> SameAnswers(st, after))
  }

  ghost predicate SameAnswers(before: Stores, after: Stores) {
    forall g, k :: NulFree(g) && Resolve(before, g, k).Some? ==> Resolve(after, g, k) == Resolve(before, g, k)
  }

  ghost predicate AllHarmless(st: Stores, ops: seq<Op>) {
    forall i, states :: 0 <= i < |ops| && Run(st, ops[..i], states) ==> Harmless(states[i], ops[i])
  }

  // Nothing less will do for a failing restore: some cache that was right is
  // not right after it.
  lemma ChangedAnswerSpoils(before: Stores, after: Stores)
    ensures (forall entries :: Coherent(entries, before) ==> Coherent(entries, after)) <==> SameAnswers(before, after)
  {
    if SameAnswers(before, after) {
      forall entries, g, k | Coherent(entries, before) && NulFree(g) && CacheKey(g, k) in entries
        ensures Fits(entries[CacheKey(g, k)], after, g, k)
      {
        assert Fits(entries[CacheKey(g, k)], before, g, k);
      }
    } else {
      var g, k :| NulFree(g) && Resolve(before, g, k).Some? && Resolve(after, g, k) != Resolve(before, g, k);
      var answer := Resolve(before, g, k).value;
      var entries := map[CacheKey(g, k) := Cached(answer.0, answer.1, 0)];
      OneEntryIsCoherent(entries, before, g, k);
      assert CacheKey(g, k) in entries && !Fits(entries[CacheKey(g, k)], after, g, k);
    }
  }

  ghost predicate AllLoad(files: map<string, string>) {
    forall g :: g in files ==> EnvFile.Load(files[g]).Loaded?
  }

  // The restore does not fail, or it merges and only writes fail.
  ghost predicate Mild(op: Op) {
    op.RestoreOp? ==>
      && (forall slot :: !op.faults.track(slot)) && (forall g :: !op.faults.mark(g))
      && (op.merge || forall slot :: !op.faults.write(slot))
  }

  // In particular every operation is harmless where no file has an overlong
  // line and restores are mild.
  lemma LoadingFilesStayHarmless(st: Stores, ops: seq<Op>)
    requires AllLoad(st.files) && forall i :: 0 <= i < |ops| ==> Mild(ops[i])
    ensures AllHarmless(st, ops)
  {
    forall i, states | 0 <= i < |ops| && Run(st, ops[..i], states) ensures Harmless(states[i], ops[i]) {
      RunKeepsLoading(st, ops[..i], states);
      LoadingIsHarmless(states[i], ops[i]);
    }
  }

  lemma {:induction false} RunKeepsLoading(st: Stores, ops: seq<Op>, states: seq<Stores>)
    requires AllLoad(st.files) && Run(st, ops, states)
    ensures AllLoad(states[|ops|].files)
  {
    if ops != [] {
      var n := |ops| - 1;
      RunKeepsLoading(st, ops[..n], states[..n + 1]);
      EffectKeepsLoading(states[n], ops[n], states[n + 1]);
    }
  }

  lemma EffectKeepsLoading(st: Stores, op: Op, after: Stores)
    requires AllLoad(st.files) && Does(st, op, after)
    ensures AllLoad(after.files)
  {
    if op.DeleteOp? || op.DeleteFromEnvDOp? {
      EnvDDeleteRemoves(st.files, op.group, op.key);
    }
  }

  // A failed write while merging leaves the stores as they were.
  lemma LoadingIsHarmless(st: Stores, op: Op)
    requires AllLoad(st.files) && Mild(op)
    ensures Harmless(st, op)
  {
    if op.RestoreOp? {
      forall r, after | Leaves(op.payload, op.merge, op.faults, st, r, after) && !r.Restored? ensures SameAnswers(st, after) {
        assert r.WriteFailed? && op.merge;
        assert after.ring == st.ring;
      }
    }
  }

  method Perform(s: Service, op: Op) returns (answer: Option<(string, Source)>)
    requires s.Valid() && Harmless(s.View(), op) && (op.GetOp? ==> NulFree(op.group))
    modifies s, s.migration, s.cache
    ensures s.Valid()
    ensures Does(old(s.View()), op, s.View()) && answer == Answer(old(s.View()), op)
  {
    answer := None;
    match op
    case GetOp(g, k, now) => answer := s.Get(g, k, now);
    case SetOp(g, k, v, force, writes, saves) => var _ := s.Set(g, k, v, force, writes, saves);
    case DeleteOp(g, k, saves) => var _ := s.Delete(g, k, saves);
    case DeleteFromKeyringOp(g, k, saves) => var _ := s.DeleteFromKeyring(g, k, saves);
    case DeleteFromEnvDOp(g, k) => var _ := s.DeleteFromEnvD(g, k);
    case RestoreOp(p, merge, faults) => Restore(s, p, merge, faults);
    case InvalidateOp(g, k) => s.InvalidateCache(g, k);
    case ClearOp => s.ClearCache();
  }

  method Restore(s: Service, p: Payload, merge: bool, faults: Faults)
    requires s.Valid() && Harmless(s.View(), RestoreOp(p, merge, faults))
    modifies s, s.migration, s.cache
    ensures s.Valid() && Does(old(s.View()), RestoreOp(p, merge, faults), s.View())
  {
    ghost var before := s.View();
    var r := RestoreBackup(s, p, merge, faults);
    if !r.Restored? {
      assert SameAnswers(before, s.View());
      ChangedAnswerSpoils(before, s.View());
    }
  }

  // The cached service refines the cacheless one: over any run of harmless
  // operations, with any failures and any clock, it gives the answers of one
  // of its runs and leaves the same stores.
  method Drive(s: Service, ops: seq<Op>) returns (answers: seq<Option<(string, Source)>>, ghost states: seq<Stores>)
    requires s.Valid() && AllHarmless(s.View(), ops)
    requires forall i :: 0 <= i < |ops| && ops[i].GetOp? ==> NulFree(ops[i].group)
    modifies s, s.migration, s.cache
    ensures s.Valid()
    ensures Run(old(s.View()), ops, states) && s.View() == states[|ops|] && AnswersOf(ops, states, answers)
  {
    answers, states := [], [s.View()];
    for i := 0 to |ops|
      invariant s.Valid()
      invariant Run(old(s.View()), ops[..i], states) && s.View() == states[i] && AnswersOf(ops[..i], states, answers)
    {
      assert Harmless(states[i], ops[i]);
      var answer := Perform(s, ops[i]);
      RunGrows(old(s.View()), ops[..i], states, ops[i], s.View());
      assert ops[..i + 1] == ops[..i] + [ops[i]];
      answers, states := answers + [answer], states + [s.View()];
    }
    assert ops[..|ops|] == ops;
  }

  lemma RunGrows(st: Stores, ops: seq<Op>, states: seq<Stores>, op: Op, after: Stores)
    requires Run(st, ops, states) && Does(states[|ops|], op, after)
    ensures Run(st, ops + [op], states + [after])
  {
  }
}
