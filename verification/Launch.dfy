/**
  The parallel start of the prepared plugins (StartPending and startLevel of
  internal/plugin/manager.go) as a state machine: one loop spawns a goroutine
  per plugin of the current level, each goroutine calls Start and returns, and
  the level is left only when all of them have returned.
 */
module Launch {
  import opened Sequences
  import opened PluginGraph
  import opened StartLevels

  datatype Event = Began(name: string) | Returned(name: string)

  // `level` and `spawned` are the two loop positions.  A goroutine is known by
  // its position in the level: `begun` have called Start, `done` have
  // returned from it.  `log` records the calls in the order they happen.
  datatype Launcher = Launcher(level: nat, spawned: nat, begun: set<nat>, done: set<nat>, log: seq<Event>)

  datatype Step = Spawn | Begin(i: nat) | Return(i: nat) | NextLevel

  // The positions of a level that get a goroutine: `handles` are the plugins
  // for which a handle is found, the others get an error result.
  function Manned(level: seq<string>, handles: set<string>): set<nat> {
    set i: nat | 0 <= i < |level| && level[i] in handles
  }

  // What the loop and each goroutine do next; nothing here looks at names
  // that were started before.
  ghost predicate Enabled(pending: seq<seq<string>>, handles: set<string>, s: Launcher, step: Step) {
    && s.level < |pending|
    && match step
       case Spawn => s.spawned < |pending[s.level]|
       case Begin(i) => i < s.spawned && i in Manned(pending[s.level], handles) && i !in s.begun
       case Return(i) => i in s.begun && i !in s.done
       case NextLevel => s.spawned == |pending[s.level]| && Manned(pending[s.level], handles) <= s.done
  }

  function NameAt(pending: seq<seq<string>>, level: nat, i: nat): string {
    if level < |pending| && i < |pending[level]| then pending[level][i] else ""
  }

  function Apply(pending: seq<seq<string>>, s: Launcher, step: Step): Launcher {
    match step
    case Spawn => s.(spawned := s.spawned + 1)
    case Begin(i) => s.(begun := s.begun + {i}, log := s.log + [Began(NameAt(pending, s.level, i))])
    case Return(i) => s.(done := s.done + {i}, log := s.log + [Returned(NameAt(pending, s.level, i))])
    case NextLevel => Launcher(s.level + 1, 0, {}, {}, s.log)
  }

  const Initial := Launcher(0, 0, {}, {}, [])

  function After(pending: seq<seq<string>>, steps: seq<Step>): Launcher {
    if steps == [] then Initial else Apply(pending, After(pending, steps[..|steps| - 1]), steps[|steps| - 1])
  }

  // A run: any sequence of steps each enabled where it is taken.
  ghost predicate Run(pending: seq<seq<string>>, handles: set<string>, steps: seq<Step>) {
    steps != [] ==>
      var init := steps[..|steps| - 1];
      Run(pending, handles, init) && Enabled(pending, handles, After(pending, init), steps[|steps| - 1])
  }

  // What the plan must offer: each plugin stands once, in one level, and the
  // dependencies of a level all lie in earlier levels.
  ghost predicate StartPlan(g: Graph, pending: seq<seq<string>>) {
    && (forall k :: 0 <= k < |pending| ==> NoDup(pending[k]))
    && (forall k, n, j :: 0 <= k < |pending| && 0 <= j < |pending| && n in pending[k] && n in pending[j] ==> j == k)
    && (forall k, n, j, m :: 0 <= k < |pending| && 0 <= j < |pending| && n in pending[k] && m in pending[j] && Edge(g, n, m) ==> j < k)
  }

  function Prepared(levels: seq<seq<string>>, prepared: set<string>): seq<seq<string>> {
    seq(|levels|, k requires 0 <= k < |levels| => Keep(levels[k], prepared))
  }

  // LoadAll prepares each level, dropping plugins that fail or need no process.
  lemma PreparedLevelsArePlan(g: Graph, list: seq<string>, levels: seq<seq<string>>, prepared: set<string>)
    requires AreLevels(g, list, levels) && NoDup(list)
    ensures StartPlan(g, Prepared(levels, prepared))
  {
    var pending := Prepared(levels, prepared);
    forall k | 0 <= k < |pending| ensures NoDup(pending[k]) {
      LevelNoDup(g, list, levels, k);
      KeepNoDup(levels[k], prepared);
    }
    forall k, n | 0 <= k < |pending| && n in pending[k] ensures n in levels[k] && Depth(g, list, n, k) {
      KeepMembers(levels[k], prepared);
      LevelIsDepth(g, list, levels, n, k);
    }
    forall k, n, j | 0 <= k < |pending| && 0 <= j < |pending| && n in pending[k] && n in pending[j] ensures j == k {
      DepthUnique(g, list, n, k, j);
    }
    forall k, n, j, m | 0 <= k < |pending| && 0 <= j < |pending| && n in pending[k] && m in pending[j] && Edge(g, n, m)
      ensures j < k
    {
      DepsInEarlierLevels(g, list, levels, n, m, k, j);
    }
  }

  // As a permutation of the list, the levels repeat nothing.
  lemma LevelNoDup(g: Graph, list: seq<string>, levels: seq<seq<string>>, k: nat)
    requires AreLevels(g, list, levels) && NoDup(list) && k < |levels|
    ensures NoDup(levels[k])
  {
    LevelsArePermutation(g, list, levels);
    LevelWithinFlat(levels, k);
    forall i, j | 0 <= i < j < |levels[k]| ensures levels[k][i] != levels[k][j] {
      NoDupOnce(list, levels[k][i]);
      if levels[k][i] == levels[k][j] {
        TwiceCounts(levels[k], i, j);
      }
    }
  }

  lemma {:induction false} KeepNoDup(s: seq<string>, kept: set<string>)
    requires NoDup(s)
    ensures NoDup(Keep(s, kept))
  {
    if s != [] {
      var init, last := s[..|s| - 1], s[|s| - 1];
      assert s == init + [last];
      KeepNoDup(init, kept);
      KeepAppend(init, last, kept);
      KeepMembers(init, kept);
    }
  }

  lemma {:induction false} LevelWithinFlat(levels: seq<seq<string>>, k: nat)
    requires k < |levels|
    ensures multiset(levels[k]) <= multiset(Flatten(levels))
  {
    if k < |levels| - 1 {
      LevelWithinFlat(levels[..|levels| - 1], k);
    }
  }

  lemma {:induction false} NoDupOnce(s: seq<string>, n: string)
    requires NoDup(s)
    ensures multiset(s)[n] <= 1
  {
    if s != [] {
      var init, last := s[..|s| - 1], s[|s| - 1];
      assert s == init + [last];
      NoDupOnce(init, n);
      assert last !in init;
    }
  }

  lemma TwiceCounts(s: seq<string>, i: nat, j: nat)
    requires i < j < |s| && s[i] == s[j]
    ensures multiset(s)[s[i]] >= 2
  {
    assert s == s[..j] + s[j..];
    assert s[i] in s[..j] && s[i] in s[j..];
  }

  // The plugin's own Start has been called, and every pending dependency
  // with a handle had returned before that.
  ghost predicate DepsReturned(g: Graph, pending: seq<seq<string>>, handles: set<string>, log: seq<Event>, i: nat)
    requires i < |log|
  {
    log[i].Began? ==>
      forall j, m :: 0 <= j < |pending| && m in pending[j] && m in handles && Edge(g, log[i].name, m) ==> Returned(m) in log[..i]
  }

  ghost predicate OnceEach(log: seq<Event>) {
    forall i, j :: 0 <= i < j < |log| ==> log[i] != log[j]
  }

  // Whose calls the log holds: everyone of the levels that are over, and of
  // this level the goroutines that got so far.
  ghost predicate Logged(pending: seq<seq<string>>, handles: set<string>, s: Launcher) {
    && (forall n :: Began(n) in s.log <==> Over(pending, handles, s.level, n) || AtPosition(pending, s.level, s.begun, n))
    && (forall n :: Returned(n) in s.log <==> Over(pending, handles, s.level, n) || AtPosition(pending, s.level, s.done, n))
  }

  ghost predicate Over(pending: seq<seq<string>>, handles: set<string>, level: nat, n: string) {
    n in handles && exists j :: 0 <= j < level && j < |pending| && n in pending[j]
  }

  ghost predicate AtPosition(pending: seq<seq<string>>, level: nat, at: set<nat>, n: string) {
    level < |pending| && exists i :: i in at && i < |pending[level]| && pending[level][i] == n
  }

  ghost predicate Shape(pending: seq<seq<string>>, handles: set<string>, s: Launcher) {
    && s.level <= |pending| && s.done <= s.begun
    && (s.level == |pending| ==> s.begun == {})
    && (s.level < |pending| ==> s.spawned <= |pending[s.level]| && s.begun <= Manned(pending[s.level], handles))
  }

  ghost predicate Invariant(g: Graph, pending: seq<seq<string>>, handles: set<string>, s: Launcher) {
    && Shape(pending, handles, s) && Logged(pending, handles, s) && OnceEach(s.log)
    && forall i :: 0 <= i < |s.log| ==> DepsReturned(g, pending, handles, s.log, i)
  }

  // One more goroutine of this level, in `begun` or in `done`.
  lemma OneMorePosition(pending: seq<seq<string>>, level: nat, at: set<nat>, i: nat, n: string)
    requires level < |pending| && i < |pending[level]|
    ensures AtPosition(pending, level, at + {i}, n) <==> AtPosition(pending, level, at, n) || n == pending[level][i]
  {
    if AtPosition(pending, level, at, n) {
      var j :| j in at && j < |pending[level]| && pending[level][j] == n;
      assert j in at + {i};
    }
  }

  // The plugin at a position in the plan stands nowhere else.
  lemma OnlyThere(g: Graph, pending: seq<seq<string>>, handles: set<string>, level: nat, at: set<nat>, i: nat)
    requires StartPlan(g, pending) && level < |pending| && i < |pending[level]| && i !in at
    ensures var n := pending[level][i]; !Over(pending, handles, level, n) && !AtPosition(pending, level, at, n)
  {
  }

  lemma BeginKeepsInvariant(g: Graph, pending: seq<seq<string>>, handles: set<string>, s: Launcher, i: nat)
    requires StartPlan(g, pending) && Invariant(g, pending, handles, s) && Enabled(pending, handles, s, Begin(i))
    ensures Invariant(g, pending, handles, Apply(pending, s, Begin(i)))
  {
    var t, n := Apply(pending, s, Begin(i)), pending[s.level][i];
    OnlyThere(g, pending, handles, s.level, s.begun, i);
    forall m ensures Began(m) in t.log <==> Over(pending, handles, t.level, m) || AtPosition(pending, t.level, t.begun, m) {
      OneMorePosition(pending, s.level, s.begun, i, m);
    }
    forall j, m | 0 <= j < |pending| && m in pending[j] && m in handles && Edge(g, n, m) ensures Returned(m) in s.log {
      assert Over(pending, handles, s.level, m);
    }
    LogGrows(g, pending, handles, s.log, Began(n));
  }

  lemma ReturnKeepsInvariant(g: Graph, pending: seq<seq<string>>, handles: set<string>, s: Launcher, i: nat)
    requires StartPlan(g, pending) && Invariant(g, pending, handles, s) && Enabled(pending, handles, s, Return(i))
    ensures Invariant(g, pending, handles, Apply(pending, s, Return(i)))
  {
    var t, n := Apply(pending, s, Return(i)), pending[s.level][i];
    OnlyThere(g, pending, handles, s.level, s.done, i);
    forall m ensures Returned(m) in t.log <==> Over(pending, handles, t.level, m) || AtPosition(pending, t.level, t.done, m) {
      OneMorePosition(pending, s.level, s.done, i, m);
    }
    LogGrows(g, pending, handles, s.log, Returned(n));
  }

  lemma LogGrows(g: Graph, pending: seq<seq<string>>, handles: set<string>, log: seq<Event>, e: Event)
    requires OnceEach(log) && e !in log && forall i :: 0 <= i < |log| ==> DepsReturned(g, pending, handles, log, i)
    requires e.Began? ==> forall j, m :: 0 <= j < |pending| && m in pending[j] && m in handles && Edge(g, e.name, m) ==> Returned(m) in log
    ensures OnceEach(log + [e]) && forall i :: 0 <= i < |log + [e]| ==> DepsReturned(g, pending, handles, log + [e], i)
  {
    var longer := log + [e];
    forall i | 0 <= i < |longer| ensures DepsReturned(g, pending, handles, longer, i) {
      if i < |log| {
        assert longer[..i] == log[..i];
        assert DepsReturned(g, pending, handles, log, i);
      } else {
        assert longer[..i] == log;
      }
    }
  }

  lemma NextLevelKeepsInvariant(g: Graph, pending: seq<seq<string>>, handles: set<string>, s: Launcher)
    requires Invariant(g, pending, handles, s) && Enabled(pending, handles, s, NextLevel)
    ensures Invariant(g, pending, handles, Apply(pending, s, NextLevel))
  {
    forall n ensures Over(pending, handles, s.level + 1, n) <==> Over(pending, handles, s.level, n) || AtPosition(pending, s.level, s.done, n) {
      LevelOver(pending, handles, s.level, s.done, n);
    }
  }

  lemma LevelOver(pending: seq<seq<string>>, handles: set<string>, level: nat, done: set<nat>, n: string)
    requires level < |pending| && done == Manned(pending[level], handles)
    ensures Over(pending, handles, level + 1, n) <==> Over(pending, handles, level, n) || AtPosition(pending, level, done, n)
  {
    if n in handles && n in pending[level] {
      var i :| 0 <= i < |pending[level]| && pending[level][i] == n;
      assert i in done;
    }
    if AtPosition(pending, level, done, n) {
      assert n in pending[level];
    }
  }

  lemma {:induction false} RunKeepsInvariant(g: Graph, pending: seq<seq<string>>, handles: set<string>, steps: seq<Step>)
    requires StartPlan(g, pending) && Run(pending, handles, steps)
    ensures Invariant(g, pending, handles, After(pending, steps))
  {
    if steps != [] {
      var init := steps[..|steps| - 1];
      RunKeepsInvariant(g, pending, handles, init);
      var s := After(pending, init);
      match steps[|steps| - 1]
      case Spawn =>
      case Begin(i) => BeginKeepsInvariant(g, pending, handles, s, i);
      case Return(i) => ReturnKeepsInvariant(g, pending, handles, s, i);
      case NextLevel => NextLevelKeepsInvariant(g, pending, handles, s);
    }
  }

  // Whatever the interleaving: no plugin is started twice, and a Start call
  // begins only after Start has returned, with or without success, for every
  // surviving dependency.
  lemma StartsRespectDependencies(g: Graph, pending: seq<seq<string>>, handles: set<string>, steps: seq<Step>)
    requires StartPlan(g, pending) && Run(pending, handles, steps)
    ensures var log := After(pending, steps).log;
            OnceEach(log) && forall i :: 0 <= i < |log| ==> DepsReturned(g, pending, handles, log, i)
  {
    RunKeepsInvariant(g, pending, handles, steps);
  }

  // The plan is needed: a level that lists a plugin twice starts it twice.
  lemma RepeatedIsStartedTwice(n: string)
    ensures exists steps :: Run([[n, n]], {n}, steps) && After([[n, n]], steps).log == [Began(n), Began(n)]
  {
    var pending, handles := [[n, n]], {n};
    assert 0 in Manned(pending[0], handles) && 1 in Manned(pending[0], handles);
    var one := RunGrows(pending, handles, [], Spawn);
    var two := RunGrows(pending, handles, one, Spawn);
    var three := RunGrows(pending, handles, two, Begin(0));
    var four := RunGrows(pending, handles, three, Begin(1));
  }

  lemma RunGrows(pending: seq<seq<string>>, handles: set<string>, steps: seq<Step>, step: Step) returns (longer: seq<Step>)
    requires Run(pending, handles, steps) && Enabled(pending, handles, After(pending, steps), step)
    ensures Run(pending, handles, longer) && After(pending, longer) == Apply(pending, After(pending, steps), step)
  {
    longer := steps + [step];
    assert longer[..|steps|] == steps;
  }

  /* ----- every run ends ----- */

  // The steps a level takes: each plugin is spawned, each goroutine calls
  // Start and returns, and the level is left.
  function LevelWork(level: seq<string>, handles: set<string>): nat {
    |level| + 2 * |Manned(level, handles)| + 1
  }

  function Work(pending: seq<seq<string>>, handles: set<string>): nat {
    if pending == [] then 0 else Work(pending[..|pending| - 1], handles) + LevelWork(pending[|pending| - 1], handles)
  }

  // What has been done so far.
  function WorkDone(pending: seq<seq<string>>, handles: set<string>, s: Launcher): nat
    requires s.level <= |pending|
  {
    Work(pending[..s.level], handles) + s.spawned + |s.begun| + |s.done|
  }

  lemma StepIsWork(pending: seq<seq<string>>, handles: set<string>, s: Launcher, step: Step)
    requires Shape(pending, handles, s) && Enabled(pending, handles, s, step)
    ensures WorkDone(pending, handles, Apply(pending, s, step)) == WorkDone(pending, handles, s) + 1
  {
    match step
    case Spawn =>
    case Begin(i) => assert |s.begun + {i}| == |s.begun| + 1;
    case Return(i) => assert |s.done + {i}| == |s.done| + 1;
    case NextLevel =>
      assert s.done == s.begun == Manned(pending[s.level], handles);
      LevelsAddUp(pending, handles, s.level);
  }

  lemma LevelsAddUp(pending: seq<seq<string>>, handles: set<string>, k: nat)
    requires k < |pending|
    ensures Work(pending[..k + 1], handles) == Work(pending[..k], handles) + LevelWork(pending[k], handles)
  {
    var longer := pending[..k + 1];
    assert longer[..|longer| - 1] == pending[..k];
  }

  lemma {:induction false} StepsAreWork(g: Graph, pending: seq<seq<string>>, handles: set<string>, steps: seq<Step>)
    requires StartPlan(g, pending) && Run(pending, handles, steps)
    ensures var s := After(pending, steps); s.level <= |pending| && |steps| == WorkDone(pending, handles, s)
  {
    if steps != [] {
      var init := steps[..|steps| - 1];
      StepsAreWork(g, pending, handles, init);
      RunKeepsInvariant(g, pending, handles, init);
      StepIsWork(pending, handles, After(pending, init), steps[|steps| - 1]);
    }
  }

  lemma {:induction false} WorkGrows(pending: seq<seq<string>>, handles: set<string>, k: nat)
    requires k < |pending|
    ensures Work(pending[..k], handles) + LevelWork(pending[k], handles) <= Work(pending, handles)
  {
    var init := pending[..|pending| - 1];
    if k < |pending| - 1 {
      WorkGrows(init, handles, k);
      assert init[..k] == pending[..k];
    }
  }

  // StartPending ends in every run: no run is longer than the work there is,
  // one that is shorter can go on, and one that has done it all is past the
  // last level, with every pending plugin that has a handle started and
  // returned.
  lemma StartPendingEnds(g: Graph, pending: seq<seq<string>>, handles: set<string>, steps: seq<Step>)
    requires StartPlan(g, pending) && Run(pending, handles, steps)
    ensures |steps| <= Work(pending, handles)
    ensures |steps| < Work(pending, handles) <==> exists step :: Enabled(pending, handles, After(pending, steps), step)
    ensures |steps| == Work(pending, handles) <==> After(pending, steps).level == |pending|
    ensures |steps| == Work(pending, handles) ==>
      forall j, m :: 0 <= j < |pending| && m in pending[j] && m in handles ==>
        Began(m) in After(pending, steps).log && Returned(m) in After(pending, steps).log
  {
    var s := After(pending, steps);
    RunKeepsInvariant(g, pending, handles, steps);
    StepsAreWork(g, pending, handles, steps);
    if s.level < |pending| {
      WorkGrows(pending, handles, s.level);
      MannedSizes(pending[s.level], handles, s.begun, s.done);
      StartPendingProgress(g, pending, handles, steps);
    } else {
      assert pending[..s.level] == pending;
      SpawnedAtEnd(pending, steps, handles);
      forall j, m | 0 <= j < |pending| && m in pending[j] && m in handles ensures Began(m) in s.log && Returned(m) in s.log {
        assert Over(pending, handles, s.level, m);
      }
    }
  }

  lemma SpawnedAtEnd(pending: seq<seq<string>>, steps: seq<Step>, handles: set<string>)
    requires Run(pending, handles, steps) && After(pending, steps).level == |pending|
    ensures After(pending, steps).spawned == 0
  {
    if steps != [] {
      assert Enabled(pending, handles, After(pending, steps[..|steps| - 1]), steps[|steps| - 1]);
    }
  }

  lemma MannedSizes(level: seq<string>, handles: set<string>, begun: set<nat>, done: set<nat>)
    requires done <= begun <= Manned(level, handles)
    ensures |done| <= |begun| <= |Manned(level, handles)|
  {
    assert begun == done + (begun - done);
    assert Manned(level, handles) == begun + (Manned(level, handles) - begun);
  }

  // Up to the end there is always a next step.
  lemma StartPendingProgress(g: Graph, pending: seq<seq<string>>, handles: set<string>, steps: seq<Step>)
    requires StartPlan(g, pending) && Run(pending, handles, steps)
    ensures After(pending, steps).level < |pending| <==> exists step :: Enabled(pending, handles, After(pending, steps), step)
  {
    var s := After(pending, steps);
    RunKeepsInvariant(g, pending, handles, steps);
    if s.level < |pending| {
      var level := pending[s.level];
      if s.spawned < |level| {
        assert Enabled(pending, handles, s, Spawn);
      } else if i :| i in Manned(level, handles) && i !in s.done {
        assert Enabled(pending, handles, s, if i in s.begun then Return(i) else Begin(i));
      } else {
        assert Enabled(pending, handles, s, NextLevel);
      }
    }
  }

  datatype Loaded = Failed(culprit: string) | Pending(levels: seq<seq<string>>, reasons: map<string, Reason>)

  // LoadAll up to StartPending. `pass2` are the plugins that pass the checks
  // of the second pass (no auth provider, credential group and provider
  // usable), `prepared` those whose preparation succeeds and that need a
  // process. Loading fails exactly on a cycle among the live plugins; else
  // the pending levels hold every live, passed and prepared plugin, each once,
  // and form a plan StartPending can follow. A plugin's level is the length of
  // its longest dependency chain among the live and passed ones, so plugins
  // that do not depend on each other wait for nobody in between.
  method LoadAll(ps: Plugins, pass2: set<string>, prepared: set<string>) returns (r: Loaded)
    ensures r.Failed? <==> HasCycle(Live(ps))
    ensures r.Failed? ==> OnCycle(Live(ps), r.culprit)
    ensures r.Pending? ==> StartPlan(Edges(ps), r.levels)
    ensures r.Pending? ==> forall n :: n in Live(ps) && n in pass2 && n in prepared <==> IsPending(r.levels, n)
    ensures r.Pending? ==> ByDepth(ps, pass2, prepared, r.levels)
    ensures r.Pending? ==> forall n :: n in r.reasons <==> Unresolvable(ps, n)
  {
    var resolution := TopologicalSort(ps);
    if resolution.Circular? {
      return Failed(resolution.name);
    }
    var list := Filter(resolution.order, pass2);
    FilteredOrder(ps, resolution.order, pass2);
    var levels := DependencyLevels(ps, list);
    var pending := Prepare(levels, prepared);
    PreparedLevelsArePlan(Edges(ps), list, levels, prepared);
    PreparedMembers(Edges(ps), list, levels, prepared);
    DepthDecidesLevel(ps, list, levels, pass2, prepared);
    return Pending(pending, resolution.reasons);
  }

  // Level k holds the prepared plugins whose longest chain of live and passed
  // plugins has k edges; every such chain fits.
  ghost predicate ByDepth(ps: Plugins, pass2: set<string>, prepared: set<string>, levels: seq<seq<string>>) {
    exists list :: Listed(ps, pass2, list) && forall n, d: nat :: n in list && n in prepared && Depth(Edges(ps), list, n, d) ==>
                                                    d < |levels| && n in levels[d]
  }

  ghost predicate Listed(ps: Plugins, pass2: set<string>, list: seq<string>) {
    NoDup(list) && ListedDepsFirst(Edges(ps), list) && forall n :: n in list <==> n in Live(ps) && n in pass2
  }

  lemma DepthDecidesLevel(ps: Plugins, list: seq<string>, levels: seq<seq<string>>, pass2: set<string>, prepared: set<string>)
    requires Listed(ps, pass2, list) && AreLevels(Edges(ps), list, levels)
    ensures ByDepth(ps, pass2, prepared, Prepared(levels, prepared))
  {
    var depth :| DepthMap(Edges(ps), list, depth) && Grouped(depth, list, levels);
    var pending := Prepared(levels, prepared);
    forall n, d: nat | n in list && n in prepared && Depth(Edges(ps), list, n, d) ensures d < |pending| && n in pending[d] {
      DepthUnique(Edges(ps), list, n, d, depth[n]);
      LevelIsDepth(Edges(ps), list, levels, n, d);
      KeepMembers(levels[d], prepared);
    }
  }

  ghost predicate IsPending(levels: seq<seq<string>>, n: string) {
    exists k :: 0 <= k < |levels| && n in levels[k]
  }

  method Filter(names: seq<string>, kept: set<string>) returns (list: seq<string>)
    ensures list == Keep(names, kept)
  {
    list := [];
    for i := 0 to |names|
      invariant list == Keep(names[..i], kept)
    {
      assert names[..i + 1] == names[..i] + [names[i]];
      KeepAppend(names[..i], names[i], kept);
      if names[i] in kept {
        list := list + [names[i]];
      }
    }
    assert names[..|names|] == names;
  }

  lemma FilteredOrder(ps: Plugins, order: seq<string>, pass2: set<string>)
    requires TopologicalOrder(Live(ps), order)
    ensures var list := Keep(order, pass2);
            && NoDup(list) && ListedDepsFirst(Edges(ps), list)
            && forall n :: n in list <==> n in Live(ps) && n in pass2
  {
    KeepOrdered(Live(ps), order, pass2);
    KeepMembers(order, pass2);
    var list := Keep(order, pass2);
    forall i, d | 0 <= i < |list| && Edge(Edges(ps), list[i], d) && d in list ensures d in list[..i] {
      assert list[i] in list;
      assert Edge(Live(ps), list[i], d);
    }
  }

  method Prepare(levels: seq<seq<string>>, prepared: set<string>) returns (pending: seq<seq<string>>)
    ensures pending == Prepared(levels, prepared)
  {
    pending := [];
    for i := 0 to |levels|
      invariant pending == Prepared(levels[..i], prepared)
    {
      var kept := Filter(levels[i], prepared);
      pending := pending + [kept];
    }
    assert levels[..|levels|] == levels;
  }

  lemma PreparedMembers(g: Graph, list: seq<string>, levels: seq<seq<string>>, prepared: set<string>)
    requires AreLevels(g, list, levels)
    ensures var pending := Prepared(levels, prepared);
            forall n :: n in list && n in prepared <==> IsPending(pending, n)
  {
    var pending := Prepared(levels, prepared);
    var depth :| DepthMap(g, list, depth) && Grouped(depth, list, levels);
    forall n ensures n in list && n in prepared <==> IsPending(pending, n) {
      if n in list && n in prepared {
        LevelIsDepth(g, list, levels, n, depth[n]);
        KeepMembers(levels[depth[n]], prepared);
        assert n in pending[depth[n]];
      } else if k :| 0 <= k < |pending| && n in pending[k] {
        KeepMembers(levels[k], prepared);
        LevelIsDepth(g, list, levels, n, k);
      }
    }
  }
}
