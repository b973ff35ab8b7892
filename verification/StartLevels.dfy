/**
  Grouping a dependency order into start levels (dependencyLevels of
  internal/plugin/manager.go).
 */
module StartLevels {
  import opened Sequences
  import opened PluginGraph

  /* ----- filtering an order ----- */

  // What the pass-2 and preparation loops keep of a list.
  function Keep(s: seq<string>, kept: set<string>): seq<string> {
    if s == [] then []
    else (if s[0] in kept then [s[0]] else []) + Keep(s[1..], kept)
  }

  // Dependencies that are themselves listed come earlier in the list.
  ghost predicate ListedDepsFirst(g: Graph, s: seq<string>) {
    forall i, d :: 0 <= i < |s| && Edge(g, s[i], d) && d in s ==> d in s[..i]
  }

  lemma {:induction false} KeepMembers(s: seq<string>, kept: set<string>)
    ensures forall n :: n in Keep(s, kept) <==> n in s && n in kept
    ensures NoDup(s) ==> NoDup(Keep(s, kept))
  {
    if s != [] {
      KeepMembers(s[1..], kept);
      assert NoDup(s) ==> NoDup(s[1..]);
      assert s == [s[0]] + s[1..];
    }
  }

  lemma {:induction false} KeepAppend(s: seq<string>, n: string, kept: set<string>)
    ensures Keep(s + [n], kept) == Keep(s, kept) + (if n in kept then [n] else [])
  {
    if s == [] {
      assert s + [n] == [n] && Keep([n][1..], kept) == [];
    } else {
      var t := s + [n];
      assert t[0] == s[0] && t[1..] == s[1..] + [n];
      KeepAppend(s[1..], n, kept);
      var pre, mid, end := if s[0] in kept then [s[0]] else [], Keep(s[1..], kept), if n in kept then [n] else [];
      assert pre + (mid + end) == (pre + mid) + end;
    }
  }

  lemma {:induction false} KeepOrdered(g: Graph, s: seq<string>, kept: set<string>)
    requires NoDup(s) && DepsFirst(g, s)
    ensures NoDup(Keep(s, kept)) && ListedDepsFirst(g, Keep(s, kept))
  {
    KeepMembers(s, kept);
    if s != [] {
      var init, last := s[..|s| - 1], s[|s| - 1];
      assert s == init + [last];
      assert forall i :: 0 <= i < |init| ==> init[..i] == s[..i];
      KeepOrdered(g, init, kept);
      KeepAppend(init, last, kept);
      KeepMembers(init, kept);
      var t, t0 := Keep(s, kept), Keep(init, kept);
      forall i, d | 0 <= i < |t| && Edge(g, t[i], d) && d in t ensures d in t[..i] {
        if i < |t0| {
          assert t[..i] == t0[..i];
          InitDepsInside(g, init, last, t0[i], d);
        } else {
          assert t[..i] == t0;
          assert Edge(g, s[|s| - 1], d);
        }
      }
    }
  }

  lemma InitDepsInside(g: Graph, init: seq<string>, last: string, n: string, d: string)
    requires DepsFirst(g, init + [last]) && n in init && Edge(g, n, d)
    ensures d in init
  {
    var i :| 0 <= i < |init| && init[i] == n;
    assert (init + [last])[i] == n && (init + [last])[..i] == init[..i];
  }

  /* ----- chains and levels ----- */

  // A dependency chain inside the list, starting at n.
  ghost predicate Chain(g: Graph, list: seq<string>, p: seq<string>, n: string) {
    IsPath(g, p) && p[0] == n && forall i :: 0 <= i < |p| ==> p[i] in list
  }

  // The longest chain from n has d edges.
  ghost predicate Depth(g: Graph, list: seq<string>, n: string, d: nat) {
    && (exists p :: Chain(g, list, p, n) && |p| == d + 1)
    && (forall p :: Chain(g, list, p, n) ==> |p| <= d + 1)
  }

  ghost predicate DepthMap(g: Graph, list: seq<string>, depth: map<string, nat>) {
    forall n :: n in list ==> n in depth && Depth(g, list, n, depth[n])
  }

  // The names of `s` at depth k, in list order.
  function AtDepth(depth: map<string, nat>, s: seq<string>, k: nat): seq<string> {
    if s == [] then []
    else
      var last := s[|s| - 1];
      AtDepth(depth, s[..|s| - 1], k) + (if last in depth && depth[last] == k then [last] else [])
  }

  // Level k lists the names at depth k; every name has a level, and the last
  // level is in use.
  ghost predicate Grouped(depth: map<string, nat>, s: seq<string>, levels: seq<seq<string>>) {
    && (forall k :: 0 <= k < |levels| ==> levels[k] == AtDepth(depth, s, k))
    && (forall n :: n in s ==> n in depth && depth[n] < |levels|)
    && (levels != [] ==> levels[|levels| - 1] != [])
  }

  ghost predicate AreLevels(g: Graph, list: seq<string>, levels: seq<seq<string>>) {
    exists depth :: DepthMap(g, list, depth) && Grouped(depth, list, levels)
  }

  lemma DepthUnique(g: Graph, list: seq<string>, n: string, d: nat, e: nat)
    requires Depth(g, list, n, d) && Depth(g, list, n, e)
    ensures d == e
  {
    var p :| Chain(g, list, p, n) && |p| == d + 1;
    var q :| Chain(g, list, q, n) && |q| == e + 1;
  }

  lemma ChainStep(g: Graph, list: seq<string>, n: string, p: seq<string>)
    requires n in list && p != [] && Edge(g, n, p[0]) && Chain(g, list, p, p[0])
    ensures Chain(g, list, [n] + p, n)
  {
    assert ([n] + p)[1..] == p;
  }

  // The step of the depth loop: one more than the deepest listed dependency.
  lemma DepthFromDeps(g: Graph, list: seq<string>, n: string, depth: map<string, nat>, d: nat)
    requires n in list
    requires forall m :: m in depth ==> m in list && Depth(g, list, m, depth[m])
    requires forall m :: Edge(g, n, m) && m in list ==> m in depth && depth[m] + 1 <= d
    requires d == 0 || exists m :: Edge(g, n, m) && m in depth && depth[m] + 1 == d
    ensures Depth(g, list, n, d)
  {
    if d == 0 {
      assert Chain(g, list, [n], n);
    } else {
      var m :| Edge(g, n, m) && m in depth && depth[m] + 1 == d;
      var p :| Chain(g, list, p, m) && |p| == depth[m] + 1;
      ChainStep(g, list, n, p);
      assert |[n] + p| == d + 1;
    }
    forall p | Chain(g, list, p, n) ensures |p| <= d + 1 {
      if |p| > 1 {
        assert Edge(g, n, p[1]) && p[1] in list;
        assert Chain(g, list, p[1..], p[1]);
      }
    }
  }

  lemma {:induction false} AtDepthMembers(depth: map<string, nat>, s: seq<string>, k: nat)
    ensures forall n :: n in AtDepth(depth, s, k) <==> n in s && n in depth && depth[n] == k
  {
    if s != [] {
      AtDepthMembers(depth, s[..|s| - 1], k);
      assert s == s[..|s| - 1] + [s[|s| - 1]];
    }
  }

  ghost predicate DepthsSoFar(g: Graph, list: seq<string>, i: nat, depth: map<string, nat>)
    requires i <= |list|
  {
    && (forall n :: n in depth <==> n in list[..i])
    && (forall n :: n in depth ==> n in list && Depth(g, list, n, depth[n]))
  }

  lemma NextDepth(ps: Plugins, sorted: seq<string>, i: nat, depth: map<string, nat>, d: nat)
    requires (forall n :: n in sorted ==> n in ps) && ListedDepsFirst(Edges(ps), sorted)
    requires i < |sorted| && DepthsSoFar(Edges(ps), sorted, i, depth)
    requires forall m :: m in ps[sorted[i]].dependsOn && m in depth ==> depth[m] + 1 <= d
    requires d == 0 || exists m :: m in ps[sorted[i]].dependsOn && m in depth && depth[m] + 1 == d
    ensures DepthsSoFar(Edges(ps), sorted, i + 1, depth[sorted[i] := d])
  {
    var g := Edges(ps);
    DepsHaveDepth(g, sorted, i, depth);
    assert forall m :: Edge(g, sorted[i], m) <==> m in ps[sorted[i]].dependsOn;
    DepthFromDeps(g, sorted, sorted[i], depth, d);
    DepthsGrow(g, sorted, i, depth, d);
  }

  lemma DepsHaveDepth(g: Graph, list: seq<string>, i: nat, depth: map<string, nat>)
    requires ListedDepsFirst(g, list) && i < |list| && DepthsSoFar(g, list, i, depth)
    ensures forall m :: Edge(g, list[i], m) && m in list ==> m in depth
  {
  }

  lemma DepthsGrow(g: Graph, list: seq<string>, i: nat, depth: map<string, nat>, d: nat)
    requires i < |list| && DepthsSoFar(g, list, i, depth) && Depth(g, list, list[i], d)
    ensures DepthsSoFar(g, list, i + 1, depth[list[i] := d])
  {
    assert list[..i + 1] == list[..i] + [list[i]];
  }

  method DependencyLevels(ps: Plugins, sorted: seq<string>) returns (levels: seq<seq<string>>)
    requires forall n :: n in sorted ==> n in ps
    requires NoDup(sorted) && ListedDepsFirst(Edges(ps), sorted)
    ensures AreLevels(Edges(ps), sorted, levels)
  {
    ghost var g := Edges(ps);
    var depth: map<string, nat> := map[];
    for i := 0 to |sorted|
      invariant DepthsSoFar(g, sorted, i, depth)
    {
      var d := DeepestDep(ps[sorted[i]].dependsOn, depth);
      NextDepth(ps, sorted, i, depth, d);
      depth := depth[sorted[i] := d];
    }
    assert sorted[..|sorted|] == sorted;
    levels := GroupByDepth(sorted, depth);
    assert DepthMap(g, sorted, depth);
  }

  method DeepestDep(deps: seq<string>, depth: map<string, nat>) returns (d: nat)
    ensures forall m :: m in deps && m in depth ==> depth[m] + 1 <= d
    ensures d == 0 || exists m :: m in deps && m in depth && depth[m] + 1 == d
  {
    d := 0;
    for i := 0 to |deps|
      invariant forall j :: 0 <= j < i && deps[j] in depth ==> depth[deps[j]] + 1 <= d
      invariant d == 0 || exists m :: m in deps && m in depth && depth[m] + 1 == d
    {
      if deps[i] in depth && depth[deps[i]] + 1 > d {
        d := depth[deps[i]] + 1;
      }
    }
  }

  method GroupByDepth(sorted: seq<string>, depth: map<string, nat>) returns (levels: seq<seq<string>>)
    requires forall n :: n in sorted ==> n in depth
    ensures Grouped(depth, sorted, levels)
  {
    levels := [];
    for i := 0 to |sorted|
      invariant Grouped(depth, sorted[..i], levels)
    {
      var d := depth[sorted[i]];
      ghost var before := levels;
      levels := PadTo(levels, d);
      PlaceName(depth, sorted[..i], sorted[i], before, levels);
      levels := levels[d := levels[d] + [sorted[i]]];
      assert sorted[..i + 1] == sorted[..i] + [sorted[i]];
    }
    assert sorted[..|sorted|] == sorted;
  }

  method PadTo(levels: seq<seq<string>>, d: nat) returns (padded: seq<seq<string>>)
    ensures levels <= padded && d < |padded|
    ensures |padded| == if |levels| <= d then d + 1 else |levels|
    ensures forall k :: |levels| <= k < |padded| ==> padded[k] == []
  {
    padded := levels;
    while |padded| <= d
      invariant levels <= padded
      invariant |padded| <= d + 1 || padded == levels
      invariant forall k :: |levels| <= k < |padded| ==> padded[k] == []
    {
      padded := padded + [[]];
    }
  }

  lemma PlaceName(depth: map<string, nat>, s: seq<string>, name: string, before: seq<seq<string>>, padded: seq<seq<string>>)
    requires Grouped(depth, s, before) && name in depth
    requires before <= padded && |padded| == if |before| <= depth[name] then depth[name] + 1 else |before|
    requires forall k :: |before| <= k < |padded| ==> padded[k] == []
    ensures Grouped(depth, s + [name], padded[depth[name] := padded[depth[name]] + [name]])
  {
    var t := s + [name];
    assert t[..|t| - 1] == s && t[|t| - 1] == name;
    forall k: nat | |before| <= k ensures AtDepth(depth, s, k) == [] {
      NoneThatDeep(depth, s, k);
    }
    var after := padded[depth[name] := padded[depth[name]] + [name]];
    forall k | 0 <= k < |after| ensures after[k] == AtDepth(depth, t, k) {
      assert k < |before| ==> padded[k] == before[k];
    }
  }

  lemma {:induction false} NoneThatDeep(depth: map<string, nat>, s: seq<string>, k: nat)
    requires forall n :: n in s ==> n in depth && depth[n] < k
    ensures AtDepth(depth, s, k) == []
  {
    if s != [] {
      assert s == s[..|s| - 1] + [s[|s| - 1]];
      NoneThatDeep(depth, s[..|s| - 1], k);
    }
  }

  /* ----- what the levels promise ----- */

  // Every level is in use: a deeper level needs a shallower one.
  lemma LevelsNonEmpty(g: Graph, list: seq<string>, levels: seq<seq<string>>)
    requires AreLevels(g, list, levels)
    ensures forall k :: 0 <= k < |levels| ==> levels[k] != []
  {
    var depth :| DepthMap(g, list, depth) && Grouped(depth, list, levels);
    forall k | 0 <= k < |levels| ensures levels[k] != [] {
      LevelInUse(g, list, depth, levels, k);
    }
  }

  lemma {:induction false} LevelInUse(g: Graph, list: seq<string>, depth: map<string, nat>, levels: seq<seq<string>>, k: nat)
    requires DepthMap(g, list, depth) && Grouped(depth, list, levels) && k < |levels|
    ensures levels[k] != []
    decreases |levels| - k
  {
    if k < |levels| - 1 {
      LevelInUse(g, list, depth, levels, k + 1);
      ShallowerInUse(g, list, depth, k);
    }
  }

  lemma ShallowerInUse(g: Graph, list: seq<string>, depth: map<string, nat>, k: nat)
    requires DepthMap(g, list, depth) && AtDepth(depth, list, k + 1) != []
    ensures AtDepth(depth, list, k) != []
  {
    var deeper := AtDepth(depth, list, k + 1);
    AtDepthMembers(depth, list, k + 1);
    AtDepthMembers(depth, list, k);
    assert deeper[0] in deeper;
    var m := OneLevelLower(g, list, depth, deeper[0], k);
    assert m in AtDepth(depth, list, k);
  }

  lemma OneLevelLower(g: Graph, list: seq<string>, depth: map<string, nat>, n: string, k: nat) returns (m: string)
    requires DepthMap(g, list, depth) && n in list && depth[n] == k + 1
    ensures m in list && depth[m] == k
  {
    var p :| Chain(g, list, p, n) && |p| == k + 2;
    DepthBelow(g, list, n, k + 1, p);
    m := p[1];
    DepthUnique(g, list, m, k, depth[m]);
  }

  // The second name of a longest chain sits exactly one level lower.
  lemma DepthBelow(g: Graph, list: seq<string>, n: string, d: nat, p: seq<string>)
    requires Depth(g, list, n, d) && Chain(g, list, p, n) && |p| == d + 1 > 1
    ensures p[1] in list && Depth(g, list, p[1], d - 1)
  {
    assert Chain(g, list, p[1..], p[1]);
    forall q | Chain(g, list, q, p[1]) ensures |q| <= d {
      ChainStep(g, list, n, q);
    }
  }

  // A plugin's level is the length of its longest chain inside the list.
  lemma LevelIsDepth(g: Graph, list: seq<string>, levels: seq<seq<string>>, n: string, k: nat)
    requires AreLevels(g, list, levels) && k < |levels|
    ensures n in levels[k] <==> n in list && Depth(g, list, n, k)
  {
    var depth :| DepthMap(g, list, depth) && Grouped(depth, list, levels);
    AtDepthMembers(depth, list, k);
    if n in list && Depth(g, list, n, k) {
      DepthUnique(g, list, n, k, depth[n]);
    }
  }

  // A listed dependency is always in an earlier level.
  lemma DepsInEarlierLevels(g: Graph, list: seq<string>, levels: seq<seq<string>>, n: string, m: string, k: nat, j: nat)
    requires AreLevels(g, list, levels) && k < |levels| && j < |levels|
    requires n in levels[k] && m in levels[j] && Edge(g, n, m)
    ensures j < k
  {
    LevelIsDepth(g, list, levels, n, k);
    LevelIsDepth(g, list, levels, m, j);
    var p :| Chain(g, list, p, m) && |p| == j + 1;
    ChainStep(g, list, n, p);
    assert |[n] + p| == j + 2;
  }

  function Flatten(levels: seq<seq<string>>): seq<string> {
    if levels == [] then [] else Flatten(levels[..|levels| - 1]) + levels[|levels| - 1]
  }

  // Together the levels are a permutation of the list.
  lemma LevelsArePermutation(g: Graph, list: seq<string>, levels: seq<seq<string>>)
    requires AreLevels(g, list, levels)
    ensures multiset(Flatten(levels)) == multiset(list)
  {
    var depth :| DepthMap(g, list, depth) && Grouped(depth, list, levels);
    FlattenCounts(depth, list, |levels|);
    assert FirstLevels(depth, list, |levels|) == levels;
  }

  function FirstLevels(depth: map<string, nat>, s: seq<string>, m: nat): seq<seq<string>> {
    seq(m, k requires 0 <= k < m => AtDepth(depth, s, k))
  }

  lemma {:induction false} FlattenCounts(depth: map<string, nat>, s: seq<string>, m: nat)
    requires forall n :: n in s ==> n in depth && depth[n] < m
    ensures multiset(Flatten(FirstLevels(depth, s, m))) == multiset(s)
  {
    if s == [] {
      FlattenNone(depth, m);
    } else {
      assert s == s[..|s| - 1] + [s[|s| - 1]];
      FlattenCounts(depth, s[..|s| - 1], m);
      FlattenOneMore(depth, s, m);
    }
  }

  lemma {:induction false} FlattenNone(depth: map<string, nat>, m: nat)
    ensures Flatten(FirstLevels(depth, [], m)) == []
  {
    if m > 0 {
      assert FirstLevels(depth, [], m)[..m - 1] == FirstLevels(depth, [], m - 1);
      FlattenNone(depth, m - 1);
    }
  }

  // The last name adds one element, in its own level only.
  lemma {:induction false} FlattenOneMore(depth: map<string, nat>, s: seq<string>, m: nat)
    requires s != [] && s[|s| - 1] in depth
    ensures multiset(Flatten(FirstLevels(depth, s, m))) ==
            multiset(Flatten(FirstLevels(depth, s[..|s| - 1], m)))
            + (if depth[s[|s| - 1]] < m then multiset{s[|s| - 1]} else multiset{})
  {
    if m > 0 {
      var init := s[..|s| - 1];
      assert FirstLevels(depth, s, m)[..m - 1] == FirstLevels(depth, s, m - 1);
      assert FirstLevels(depth, init, m)[..m - 1] == FirstLevels(depth, init, m - 1);
      FlattenOneMore(depth, s, m - 1);
    }
  }
}
