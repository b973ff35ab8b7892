/**
  Dependency resolution of discovered plugins (internal/plugin/manager.go):
  skip propagation over `depends_on`, and the depth-first topological sort with
  cycle detection over the plugins in priority order.
 */
module PluginGraph {
  import opened Sequences

  datatype Manifest = Manifest(dependsOn: seq<string>, priority: int)

  type Plugins = map<string, Manifest>

  // Adjacency lists, the `deps` map of topologicalSort.
  type Graph = map<string, seq<string>>

  // Why a plugin is skipped; the source renders it as text and splices in the
  // reason of the dependency.
  datatype Reason = Unavailable(dep: string) | Disabled(dep: string, cause: Reason)

  function Edges(ps: Plugins): Graph {
    map n | n in ps :: ps[n].dependsOn
  }

  /* ----- paths ----- */

  ghost predicate Edge(g: Graph, a: string, b: string) {
    a in g && b in g[a]
  }

  ghost predicate IsPath(g: Graph, p: seq<string>) {
    |p| > 0 && (|p| > 1 ==> Edge(g, p[0], p[1]) && IsPath(g, p[1..]))
  }

  ghost predicate PathBetween(g: Graph, p: seq<string>, a: string, b: string) {
    IsPath(g, p) && p[0] == a && p[|p| - 1] == b
  }

  ghost predicate Reaches(g: Graph, a: string, b: string) {
    exists p :: PathBetween(g, p, a, b)
  }

  // A cycle through `n`: a path with at least one edge back to its start.
  ghost predicate OnCycle(g: Graph, n: string) {
    exists p :: |p| > 1 && PathBetween(g, p, n, n)
  }

  ghost predicate HasCycle(g: Graph) {
    exists n :: OnCycle(g, n)
  }

  lemma {:induction false} PathAppend(g: Graph, p: seq<string>, b: string)
    requires IsPath(g, p) && Edge(g, p[|p| - 1], b)
    ensures IsPath(g, p + [b])
  {
    if |p| == 1 {
      assert (p + [b])[1..] == [b];
    } else {
      PathAppend(g, p[1..], b);
      assert (p + [b])[1..] == p[1..] + [b];
    }
  }

  lemma {:induction false} PathSuffix(g: Graph, p: seq<string>, k: nat)
    requires IsPath(g, p) && k < |p|
    ensures IsPath(g, p[k..])
  {
    if k == 0 {
      assert p[0..] == p;
    } else {
      PathSuffix(g, p[1..], k - 1);
      assert p[1..][k - 1..] == p[k..];
    }
  }

  lemma ReachesStep(g: Graph, a: string, b: string, c: string)
    requires Edge(g, a, b) && Reaches(g, b, c)
    ensures Reaches(g, a, c)
  {
    var p :| PathBetween(g, p, b, c);
    assert ([a] + p)[1..] == p;
    assert PathBetween(g, [a] + p, a, c);
  }

  lemma ReachesSelf(g: Graph, a: string)
    ensures Reaches(g, a, a)
  {
    assert PathBetween(g, [a], a, a);
  }

  // Everything a path visits stays inside a set closed under the edges.
  lemma {:induction false} PathStaysInside(g: Graph, p: seq<string>, inside: set<string>)
    requires IsPath(g, p) && p[0] in inside
    requires forall n, d :: n in inside && Edge(g, n, d) ==> d in inside
    ensures p[|p| - 1] in inside
  {
    if |p| > 1 {
      PathStaysInside(g, p[1..], inside);
    }
  }

  /* ----- skip propagation ----- */

  // A plugin is unresolvable when a dependency path leads from it to a name
  // that was never discovered.
  ghost predicate Unresolvable(ps: Plugins, n: string) {
    n in ps && exists m :: m !in ps && Reaches(Edges(ps), n, m)
  }

  // The recorded reason describes a real dependency path that ends at an
  // undiscovered name.
  ghost predicate Explains(ps: Plugins, n: string, r: Reason)
    decreases r
  {
    && n in ps && r.dep in ps[n].dependsOn
    && match r
       case Unavailable(d) => d !in ps
       case Disabled(d, cause) => Explains(ps, d, cause)
  }

  lemma {:induction false} ExplainedIsUnresolvable(ps: Plugins, n: string, r: Reason)
    requires Explains(ps, n, r)
    ensures Unresolvable(ps, n)
    decreases r
  {
    var g := Edges(ps);
    match r
    case Unavailable(d) =>
      ReachesSelf(g, d);
      ReachesStep(g, n, d, d);
    case Disabled(d, cause) =>
      ExplainedIsUnresolvable(ps, d, cause);
      var m :| m !in ps && Reaches(g, d, m);
      ReachesStep(g, n, d, m);
  }

  // What the propagation loop leaves behind: every skipped plugin explained,
  // and no other plugin with a missing or skipped dependency.
  ghost predicate SkipFixpoint(ps: Plugins, reasons: map<string, Reason>) {
    && (forall n :: n in reasons ==> Explains(ps, n, reasons[n]))
    && (forall n, d :: n in ps && n !in reasons && d in ps[n].dependsOn ==> d in ps && d !in reasons)
  }

  // Any such result, whatever order the map was iterated in, skips exactly
  // the unresolvable plugins: it is the least fixpoint.
  lemma SkipFixpointIsLeast(ps: Plugins, reasons: map<string, Reason>)
    requires SkipFixpoint(ps, reasons)
    ensures forall n :: n in reasons <==> Unresolvable(ps, n)
  {
    var g := Edges(ps);
    forall n ensures n in reasons <==> Unresolvable(ps, n) {
      if n in reasons {
        ExplainedIsUnresolvable(ps, n, reasons[n]);
      } else if Unresolvable(ps, n) {
        var m :| m !in ps && Reaches(g, n, m);
        var p :| PathBetween(g, p, n, m);
        PathStaysInside(g, p, ps.Keys - reasons.Keys);
        assert false;
      }
    }
  }

  method PropagateSkips(ps: Plugins) returns (reasons: map<string, Reason>)
    ensures SkipFixpoint(ps, reasons)
    ensures forall n :: n in reasons <==> Unresolvable(ps, n)
  {
    reasons := map[];
    var changed := true;
    while changed
      invariant reasons.Keys <= ps.Keys
      invariant forall n :: n in reasons ==> Explains(ps, n, reasons[n])
      invariant !changed ==> SkipFixpoint(ps, reasons)
      decreases ps.Keys - reasons.Keys, changed
    {
      changed := false;
      ghost var before := reasons.Keys;
      var todo := ps.Keys;
      while todo != {}
        invariant todo <= ps.Keys
        invariant before <= reasons.Keys <= ps.Keys
        invariant forall n :: n in reasons ==> Explains(ps, n, reasons[n])
        invariant if changed then before < reasons.Keys else before == reasons.Keys
        invariant !changed ==> forall n, d :: n in ps && n !in todo && n !in reasons && d in ps[n].dependsOn ==> d in ps && d !in reasons
        decreases todo
      {
        var name :| name in todo;
        todo := todo - {name};
        if name in reasons {
          continue;
        }
        var r := SkipReason(ps, name, reasons);
        if r != [] {
          reasons := reasons[name := r[0]];
          changed := true;
        }
      }
    }
    SkipFixpointIsLeast(ps, reasons);
  }

  // The scan over one plugin's dependencies: the first that is undiscovered or
  // already skipped decides; an empty result means the plugin stays.
  method SkipReason(ps: Plugins, name: string, reasons: map<string, Reason>) returns (r: seq<Reason>)
    requires name in ps
    requires forall n :: n in reasons ==> Explains(ps, n, reasons[n])
    ensures |r| <= 1
    ensures r == [] <==> forall d :: d in ps[name].dependsOn ==> d in ps && d !in reasons
    ensures r != [] ==> Explains(ps, name, r[0])
  {
    var deps := ps[name].dependsOn;
    for i := 0 to |deps|
      invariant forall j :: 0 <= j < i ==> deps[j] in ps && deps[j] !in reasons
    {
      var dep := deps[i];
      if dep !in ps {
        return [Unavailable(dep)];
      }
      if dep in reasons {
        return [Disabled(dep, reasons[dep])];
      }
    }
    return [];
  }

  // The graph the sort works on: the plugins that were not skipped.
  ghost function Live(ps: Plugins): Graph {
    map n | n in ps && !Unresolvable(ps, n) :: ps[n].dependsOn
  }

  ghost predicate Closed(g: Graph) {
    forall n, d :: Edge(g, n, d) ==> d in g
  }

  lemma LiveIsClosed(ps: Plugins)
    ensures Closed(Live(ps))
  {
    var g := Edges(ps);
    forall n, d | Edge(Live(ps), n, d) ensures d in Live(ps) {
      assert Edge(g, n, d);
      ReachesSelf(g, d);
      if d !in ps {
        ReachesStep(g, n, d, d);
      } else if Unresolvable(ps, d) {
        var m :| m !in ps && Reaches(g, d, m);
        ReachesStep(g, n, d, m);
      }
    }
  }

  /* ----- topological sort ----- */

  // Every dependency of a listed plugin is listed before it.
  ghost predicate DepsFirst(g: Graph, s: seq<string>) {
    forall i, d :: 0 <= i < |s| && Edge(g, s[i], d) ==> d in s[..i]
  }

  ghost predicate TopologicalOrder(g: Graph, s: seq<string>) {
    NoDup(s) && (forall n :: n in s <==> n in g) && DepsFirst(g, s)
  }

  // What a list of roots needs, the roots themselves included.
  ghost predicate Needed(g: Graph, roots: seq<string>, n: string) {
    exists root :: root in roots && root in g && Reaches(g, root, n)
  }

  ghost predicate PrefixIsNeeded(g: Graph, roots: seq<string>, s: seq<string>, k: nat) {
    k <= |s| && forall n :: n in s[..k] <==> Needed(g, roots, n)
  }

  ghost predicate StartsWithNeeded(g: Graph, roots: seq<string>, s: seq<string>) {
    exists k: nat :: PrefixIsNeeded(g, roots, s, k)
  }

  // The list is built root by root: what the first i roots need is a prefix
  // of it, so nothing that only a later root needs comes before.
  ghost predicate RootByRoot(g: Graph, roots: seq<string>, s: seq<string>) {
    forall i :: 0 <= i <= |roots| ==> StartsWithNeeded(g, roots[..i], s)
  }

  lemma DepsFirstAppend(g: Graph, s: seq<string>, n: string)
    requires DepsFirst(g, s) && forall d :: Edge(g, n, d) ==> d in s
    ensures DepsFirst(g, s + [n])
  {
    var t := s + [n];
    forall i, d | 0 <= i < |t| && Edge(g, t[i], d) ensures d in t[..i] {
      if i < |s| {
        assert t[..i] == s[..i];
      } else {
        assert t[..i] == s;
      }
    }
  }

  // One more root: its list grew by exactly what that root adds.
  lemma NeededGrows(g: Graph, roots: seq<string>, name: string, s: seq<string>, t: seq<string>)
    requires DepsFirst(g, t) && s <= t && name in t && name in g
    requires forall n :: n in s <==> Needed(g, roots, n)
    requires forall n :: n in t && n !in s ==> Reaches(g, name, n)
    ensures forall n :: n in t <==> Needed(g, roots + [name], n)
  {
    forall n ensures n in t <==> Needed(g, roots + [name], n) {
      if n in s {
        var root :| root in roots && root in g && Reaches(g, root, n);
        assert root in roots + [name];
      } else if n in t {
        assert name in roots + [name];
      } else if Needed(g, roots + [name], n) {
        var root :| root in roots + [name] && root in g && Reaches(g, root, n);
        assert root != name ==> Needed(g, roots, n);
        var p :| PathBetween(g, p, name, n);
        PathStaysInside(g, p, set m | m in t);
        assert false;
      }
    }
  }

  // A path inside a list with dependencies first runs backwards through it.
  lemma {:induction false} PathDescends(g: Graph, s: seq<string>, p: seq<string>, i: nat)
    requires DepsFirst(g, s) && NoDup(s)
    requires IsPath(g, p) && i < |s| && s[i] == p[0]
    ensures p[|p| - 1] in s[..i + 1]
    ensures |p| > 1 ==> p[|p| - 1] in s[..i]
  {
    if |p| > 1 {
      assert Edge(g, s[i], p[1]);
      var j :| 0 <= j < i && s[j] == p[1];
      PathDescends(g, s, p[1..], j);
    }
  }

  lemma OrderedIsAcyclic(g: Graph, s: seq<string>)
    requires TopologicalOrder(g, s)
    ensures !HasCycle(g)
  {
    forall n, p | |p| > 1 && PathBetween(g, p, n, n) ensures false {
      assert Edge(g, n, p[1]);
      assert n in s;
      var i :| 0 <= i < |s| && s[i] == n;
      PathDescends(g, s, p, i);
    }
  }

  // The depth-first order: `done` with what visiting a name adds, while the
  // names of `open` are being visited.
  function Walk(g: Graph, name: string, done: seq<string>, open: set<string>): seq<string>
    decreases g.Keys - open, 0, 0
  {
    if name in done || name in open || name !in g then done
    else WalkAll(g, g[name], done, open + {name}) + [name]
  }

  function WalkAll(g: Graph, names: seq<string>, done: seq<string>, open: set<string>): seq<string>
    decreases g.Keys - open, 1, |names|
  {
    if names == [] then done
    else Walk(g, names[|names| - 1], WalkAll(g, names[..|names| - 1], done, open), open)
  }

  function DepthFirst(g: Graph, roots: seq<string>): seq<string> {
    WalkAll(g, roots, [], {})
  }

  // What a visit of `name` adds is reached from it.
  ghost predicate Adds(g: Graph, name: string, before: set<string>, after: set<string>) {
    forall n :: n in after && n !in before ==> Reaches(g, name, n)
  }

  lemma AddsMore(g: Graph, name: string, dep: string, before: set<string>, mid: set<string>, after: set<string>)
    requires Edge(g, name, dep) && Adds(g, name, before, mid) && Adds(g, dep, mid, after)
    ensures Adds(g, name, before, after)
  {
    forall n | n in after && n !in before ensures Reaches(g, name, n) {
      if n !in mid {
        ReachesStep(g, name, dep, n);
      }
    }
  }

  lemma WalkAllStep(g: Graph, names: seq<string>, i: nat, done: seq<string>, open: set<string>)
    requires i < |names|
    ensures WalkAll(g, names[..i + 1], done, open) == Walk(g, names[i], WalkAll(g, names[..i], done, open), open)
  {
    assert names[..i + 1][..i] == names[..i];
  }

  // The state `visit` closes over. `visiting` holds the names whose flag is
  // true in the source.
  class Sorter {
    const deps: Graph
    var visited: set<string>
    var visiting: set<string>
    var sorted: seq<string>

    ghost predicate Valid() reads this {
      && NoDup(sorted)
      && (forall n :: n in sorted <==> n in visited)
      && visited <= deps.Keys
      && DepsFirst(deps, sorted)
      && visited !! visiting
    }

    constructor (deps: Graph)
      ensures this.deps == deps && Valid() && visited == visiting == {} && sorted == []
    {
      this.deps, visited, visiting, sorted := deps, {}, {}, [];
    }

    // `stack` is the chain of calls in progress: a path of the graph that
    // ends at a dependent of `name`.
    method Visit(name: string, ghost stack: seq<string>) returns (ok: bool, culprit: string)
      requires Valid() && Closed(deps) && name in deps
      requires forall n :: n in stack <==> n in visiting
      requires IsPath(deps, stack + [name]) && visiting <= deps.Keys
      modifies this
      ensures !ok ==> OnCycle(deps, culprit)
      ensures ok ==> Valid() && visiting == old(visiting) && name in visited
      ensures ok ==> old(sorted) <= sorted && old(visited) <= visited
      ensures ok ==> sorted == Walk(deps, name, old(sorted), old(visiting))
      ensures ok ==> Adds(deps, name, old(visited), visited)
      decreases deps.Keys - visiting, 0
    {
      if name in visited {
        return true, "";
      }
      if name in visiting {
        CycleOnStack(deps, stack, name);
        return false, name;
      }
      visiting := visiting + {name};
      ok, culprit := VisitDeps(name, stack + [name]);
      if !ok {
        return;
      }
      visiting := visiting - {name};
      visited := visited + {name};
      DepsFirstAppend(deps, sorted, name);
      sorted := sorted + [name];
      ReachesSelf(deps, name);
    }

    // The loop of visit over the dependencies of `name`; `here` is the chain
    // of calls that ends at it.
    method VisitDeps(name: string, ghost here: seq<string>) returns (ok: bool, culprit: string)
      requires Valid() && Closed(deps) && name in deps
      requires forall n :: n in here <==> n in visiting
      requires IsPath(deps, here) && here[|here| - 1] == name && visiting <= deps.Keys
      modifies this
      ensures !ok ==> OnCycle(deps, culprit)
      ensures ok ==> Valid() && visiting == old(visiting)
      ensures ok ==> old(sorted) <= sorted && old(visited) <= visited
      ensures ok ==> sorted == WalkAll(deps, deps[name], old(sorted), visiting)
      ensures ok ==> (forall d :: Edge(deps, name, d) ==> d in visited) && Adds(deps, name, old(visited), visited)
      decreases deps.Keys - visiting, 1
    {
      ok, culprit := true, "";
      for i := 0 to |deps[name]|
        invariant Valid() && visiting == old(visiting) && ok
        invariant old(sorted) <= sorted && old(visited) <= visited
        invariant sorted == WalkAll(deps, deps[name][..i], old(sorted), visiting)
        invariant forall j :: 0 <= j < i ==> deps[name][j] in visited
        invariant Adds(deps, name, old(visited), visited)
      {
        var dep := deps[name][i];
        WalkAllStep(deps, deps[name], i, old(sorted), visiting);
        assert Edge(deps, name, dep);
        PathAppend(deps, here, dep);
        ghost var seen := visited;
        ok, culprit := Visit(dep, here);
        if !ok {
          return;
        }
        AddsMore(deps, name, dep, old(visited), seen, visited);
      }
      assert deps[name][..|deps[name]|] == deps[name];
    }
  }

  lemma CycleOnStack(g: Graph, stack: seq<string>, name: string)
    requires IsPath(g, stack + [name]) && name in stack
    ensures OnCycle(g, name)
  {
    var i :| 0 <= i < |stack| && stack[i] == name;
    var p := (stack + [name])[i..];
    PathSuffix(g, stack + [name], i);
    assert PathBetween(g, p, name, name);
  }

  datatype Resolution = Sorted(order: seq<string>, reasons: map<string, Reason>) | Circular(name: string)

  method TopologicalSort(ps: Plugins) returns (r: Resolution)
    ensures r.Circular? <==> HasCycle(Live(ps))
    ensures r.Circular? ==> OnCycle(Live(ps), r.name)
    ensures r.Sorted? ==> TopologicalOrder(Live(ps), r.order)
    ensures r.Sorted? ==> SkipFixpoint(ps, r.reasons) && forall n :: n in r.reasons <==> Unresolvable(ps, n)
    ensures r.Sorted? ==> exists names :: PriorityOrder(ps, names) && RootByRoot(Live(ps), names, r.order) && r.order == DepthFirst(Live(ps), names)
  {
    var reasons := PropagateSkips(ps);
    var deps := map n | n in ps && n !in reasons :: ps[n].dependsOn;
    assert deps == Live(ps);
    LiveIsClosed(ps);
    var names := SortedByPriority(ps);
    var ok, culprit, sorted := VisitRoots(deps, names);
    if !ok {
      return Circular(culprit);
    }
    OrderedIsAcyclic(deps, sorted);
    return Sorted(sorted, reasons);
  }

  // The final loop of topologicalSort; the graph holds the names not skipped.
  method VisitRoots(deps: Graph, names: seq<string>) returns (ok: bool, culprit: string, sorted: seq<string>)
    requires Closed(deps) && forall n :: n in deps ==> n in names
    ensures !ok ==> OnCycle(deps, culprit)
    ensures ok ==> TopologicalOrder(deps, sorted) && RootByRoot(deps, names, sorted) && sorted == DepthFirst(deps, names)
  {
    var s := new Sorter(deps);
    assert PrefixIsNeeded(deps, names[..0], s.sorted, 0);
    for i := 0 to |names|
      invariant s.Valid() && s.visiting == {}
      invariant VisitedRoots(deps, names, i, s.sorted)
      invariant s.sorted == DepthFirst(deps, names[..i])
    {
      var name := names[i];
      WalkAllStep(deps, names, i, [], {});
      ghost var before := s.sorted;
      if name !in deps {
        SkipsRoot(deps, names, i, before);
        continue;
      }
      ok, culprit := s.Visit(name, []);
      if !ok {
        return false, culprit, [];
      }
      VisitsRoot(deps, names, i, before, s.sorted);
    }
    assert names[..|names|] == names;
    EveryNameNeeded(deps, names, s.sorted);
    return true, "", s.sorted;
  }

  ghost predicate VisitedRoots(g: Graph, names: seq<string>, i: nat, s: seq<string>) {
    && i <= |names|
    && (forall n :: n in s <==> Needed(g, names[..i], n))
    && (forall j :: 0 <= j <= i ==> StartsWithNeeded(g, names[..j], s))
  }

  lemma SkipsRoot(g: Graph, names: seq<string>, i: nat, s: seq<string>)
    requires i < |names| && names[i] !in g && VisitedRoots(g, names, i, s)
    ensures VisitedRoots(g, names, i + 1, s)
  {
    assert names[..i + 1] == names[..i] + [names[i]];
    assert forall n :: Needed(g, names[..i + 1], n) <==> Needed(g, names[..i], n);
    assert s[..|s|] == s;
    assert PrefixIsNeeded(g, names[..i + 1], s, |s|);
  }

  lemma VisitsRoot(g: Graph, names: seq<string>, i: nat, s: seq<string>, t: seq<string>)
    requires i < |names| && names[i] in g && VisitedRoots(g, names, i, s)
    requires DepsFirst(g, t) && s <= t && names[i] in t
    requires forall n :: n in t && n !in s ==> Reaches(g, names[i], n)
    ensures VisitedRoots(g, names, i + 1, t)
  {
    assert names[..i + 1] == names[..i] + [names[i]];
    NeededGrows(g, names[..i], names[i], s, t);
    assert t[..|t|] == t;
    assert PrefixIsNeeded(g, names[..i + 1], t, |t|);
    forall j | 0 <= j <= i ensures StartsWithNeeded(g, names[..j], t) {
      var k: nat :| PrefixIsNeeded(g, names[..j], s, k);
      assert t[..k] == s[..k];
      assert PrefixIsNeeded(g, names[..j], t, k);
    }
  }

  lemma EveryNameNeeded(g: Graph, names: seq<string>, s: seq<string>)
    requires Closed(g) && forall n :: n in g ==> n in names
    requires forall n :: n in s <==> Needed(g, names, n)
    ensures forall n :: n in s <==> n in g
  {
    forall n ensures n in s <==> n in g {
      if n in g {
        ReachesSelf(g, n);
      } else if n in s {
        var root :| root in names && root in g && Reaches(g, root, n);
        var p :| PathBetween(g, p, root, n);
        PathStaysInside(g, p, g.Keys);
      }
    }
  }

  /* ----- priority order ----- */

  ghost predicate PriorityOrder(ps: Plugins, names: seq<string>) {
    && NoDup(names) && (forall n :: n in names <==> n in ps)
    && forall i, j :: 0 <= i < j < |names| ==> ps[names[i]].priority <= ps[names[j]].priority
  }

  datatype Entry = Entry(name: string, priority: int)

  ghost predicate Holds(s: seq<Entry>, n: string) {
    exists i :: 0 <= i < |s| && s[i].name == n
  }

  // A duplicate-free listing of some plugins with their priorities.
  ghost predicate Lists(ps: Plugins, names: set<string>, s: seq<Entry>) {
    && (forall i, j :: 0 <= i < j < |s| ==> s[i].name != s[j].name)
    && (forall i :: 0 <= i < |s| ==> s[i].name in names && s[i].name in ps && s[i].priority == ps[s[i].name].priority)
    && (forall n :: n in names ==> Holds(s, n))
  }

  ghost predicate OrderedUpTo(s: seq<Entry>, k: int) {
    forall x, y :: 0 <= x < y < k && y < |s| ==> s[x].priority <= s[y].priority
  }

  // Ordered up to k but for the element on its way down, now at position j.
  ghost predicate Sifting(s: seq<Entry>, k: int, j: int) {
    && (forall x, y :: 0 <= x < y < k && y < |s| && x != j && y != j ==> s[x].priority <= s[y].priority)
    && (forall y :: 0 <= j < y < k && y < |s| ==> s[j].priority <= s[y].priority)
  }

  function Exchanged(s: seq<Entry>, j: nat): seq<Entry>
    requires 0 < j < |s|
  {
    s[j := s[j - 1]][j - 1 := s[j]]
  }

  lemma ExchangeLists(ps: Plugins, names: set<string>, s: seq<Entry>, j: nat)
    requires Lists(ps, names, s) && 0 < j < |s|
    ensures Lists(ps, names, Exchanged(s, j))
  {
    var t := Exchanged(s, j);
    forall n | n in names ensures Holds(t, n) {
      var i :| 0 <= i < |s| && s[i].name == n;
      var k := if i == j then j - 1 else if i == j - 1 then j else i;
      assert t[k].name == n;
    }
  }

  method SortedByPriority(ps: Plugins) returns (names: seq<string>)
    ensures PriorityOrder(ps, names)
  {
    var entries := ListEntries(ps);
    var a := new Entry[|entries|](i requires 0 <= i < |entries| => entries[i]);
    assert a[..] == entries;
    SortEntries(ps, a);
    names := Names(a[..]);
    SortedListing(ps, a[..]);
  }

  function Names(s: seq<Entry>): seq<string> {
    seq(|s|, i requires 0 <= i < |s| => s[i].name)
  }

  lemma SortedListing(ps: Plugins, s: seq<Entry>)
    requires Lists(ps, ps.Keys, s) && OrderedUpTo(s, |s|)
    ensures PriorityOrder(ps, Names(s))
  {
    var names := Names(s);
    forall n ensures n in names <==> n in ps {
      if n in ps.Keys {
        assert Holds(s, n);
        var i :| 0 <= i < |s| && s[i].name == n;
        assert names[i] == n;
      }
    }
  }

  // The map is walked in no particular order.
  method ListEntries(ps: Plugins) returns (entries: seq<Entry>)
    ensures Lists(ps, ps.Keys, entries)
  {
    entries := [];
    var todo := ps.Keys;
    ghost var done := {};
    while todo != {}
      invariant todo + done == ps.Keys && todo !! done
      invariant Lists(ps, done, entries)
      decreases todo
    {
      var name :| name in todo;
      ghost var before := entries;
      todo, done := todo - {name}, done + {name};
      entries := entries + [Entry(name, ps[name].priority)];
      forall n | n in done ensures Holds(entries, n) {
        if n == name {
          assert entries[|before|].name == n;
        } else {
          assert Holds(before, n);
          var i :| 0 <= i < |before| && before[i].name == n;
          assert entries[i].name == n;
        }
      }
    }
    assert done == ps.Keys;
  }

  // Insertion sort by neighbour exchanges.
  method SortEntries(ps: Plugins, a: array<Entry>)
    requires Lists(ps, ps.Keys, a[..])
    modifies a
    ensures Lists(ps, ps.Keys, a[..]) && OrderedUpTo(a[..], a.Length)
  {
    var i := 1;
    while i < a.Length
      invariant 1 <= i
      invariant Lists(ps, ps.Keys, a[..]) && OrderedUpTo(a[..], i)
    {
      SiftDown(ps, a, i);
      i := i + 1;
    }
  }

  // The inner pass: exchange downwards while the element is smaller.
  method SiftDown(ps: Plugins, a: array<Entry>, i: nat)
    requires i < a.Length && Lists(ps, ps.Keys, a[..]) && OrderedUpTo(a[..], i)
    modifies a
    ensures a[..] == Sifted(old(a[..]), i)
    ensures Lists(ps, ps.Keys, a[..]) && OrderedUpTo(a[..], i + 1)
  {
    SiftBegins(a[..], i);
    SiftedLists(ps, a[..], i);
    SiftedOrders(a[..], i + 1, i);
    SiftLoop(a, i);
  }

  method SiftLoop(a: array<Entry>, i: nat)
    requires i < a.Length
    modifies a
    ensures a[..] == Sifted(old(a[..]), i)
  {
    var j := i;
    while j > 0 && a[j].priority < a[j - 1].priority
      invariant 0 <= j <= i
      invariant Sifted(a[..], j) == Sifted(old(a[..]), i)
    {
      ghost var s := a[..];
      assert a[j] == s[j] && a[j - 1] == s[j - 1];
      Exchange(a, j);
      assert a[..] == Exchanged(s, j);
      j := j - 1;
    }
    assert j > 0 ==> a[j] == a[..][j] && a[j - 1] == a[..][j - 1];
  }

  function Sifted(s: seq<Entry>, j: nat): seq<Entry>
    requires j < |s|
    decreases j
  {
    if j > 0 && s[j].priority < s[j - 1].priority then Sifted(Exchanged(s, j), j - 1) else s
  }

  lemma {:induction false} SiftedLists(ps: Plugins, s: seq<Entry>, j: nat)
    requires j < |s| && Lists(ps, ps.Keys, s)
    ensures Lists(ps, ps.Keys, Sifted(s, j))
    decreases j
  {
    if j > 0 && s[j].priority < s[j - 1].priority {
      ExchangeLists(ps, ps.Keys, s, j);
      SiftedLists(ps, Exchanged(s, j), j - 1);
    }
  }

  lemma {:induction false} SiftedOrders(s: seq<Entry>, k: int, j: nat)
    requires j < k <= |s| && Sifting(s, k, j)
    ensures OrderedUpTo(Sifted(s, j), k)
    decreases j
  {
    if j > 0 && s[j].priority < s[j - 1].priority {
      ExchangeSifts(s, k, j);
      SiftedOrders(Exchanged(s, j), k, j - 1);
    } else {
      SiftEnds(s, k, j);
    }
  }

  lemma SiftBegins(s: seq<Entry>, i: nat)
    requires i < |s| && OrderedUpTo(s, i)
    ensures Sifting(s, i + 1, i)
  {
  }

  lemma SiftEnds(s: seq<Entry>, k: int, j: nat)
    requires j < k <= |s| && Sifting(s, k, j) && (j == 0 || s[j - 1].priority <= s[j].priority)
    ensures OrderedUpTo(s, k)
  {
    forall x | 0 <= x < j ensures s[x].priority <= s[j].priority {
      if x < j - 1 {
        assert s[x].priority <= s[j - 1].priority;
      }
    }
  }

  method Exchange(a: array<Entry>, j: nat)
    requires 0 < j < a.Length
    modifies a
    ensures a[..] == Exchanged(old(a[..]), j)
  {
    a[j], a[j - 1] := a[j - 1], a[j];
  }

  lemma ExchangeSifts(s: seq<Entry>, k: int, j: nat)
    requires 0 < j < k <= |s| && Sifting(s, k, j) && s[j].priority < s[j - 1].priority
    ensures Sifting(Exchanged(s, j), k, j - 1)
  {
  }

  // The code calls this order deterministic. It is, but only when no two
  // plugins share a priority; on a tie the order of the map walk shows.
  ghost predicate DistinctPriorities(ps: Plugins) {
    forall m, n :: m in ps && n in ps && m != n ==> ps[m].priority != ps[n].priority
  }

  lemma PriorityOrderUniqueIff(ps: Plugins)
    ensures DistinctPriorities(ps) <==> forall s, t :: PriorityOrder(ps, s) && PriorityOrder(ps, t) ==> s == t
  {
    if DistinctPriorities(ps) {
      forall s, t | PriorityOrder(ps, s) && PriorityOrder(ps, t) ensures s == t {
        SameOrder(ps, s, t, |s|);
        SameOrder(ps, t, s, |t|);
        assert s[..|s|] == s && t[..|t|] == t;
      }
    } else {
      var m, n :| m in ps && n in ps && m != n && ps[m].priority == ps[n].priority;
      var s, t := TiedOrders(ps, m, n);
    }
  }

  lemma NextIsNoLater(ps: Plugins, s: seq<string>, t: seq<string>, k: nat)
    requires PriorityOrder(ps, s) && PriorityOrder(ps, t) && k < |s| && k <= |t| && s[..k] == t[..k]
    ensures k < |t| && ps[t[k]].priority <= ps[s[k]].priority
  {
    assert s[k] in t;
    var i :| 0 <= i < |t| && t[i] == s[k];
  }

  // Two sorted listings of the same names agree position by position.
  lemma {:induction false} SameOrder(ps: Plugins, s: seq<string>, t: seq<string>, k: nat)
    requires DistinctPriorities(ps) && PriorityOrder(ps, s) && PriorityOrder(ps, t) && k <= |s|
    ensures k <= |t| && s[..k] == t[..k]
  {
    if k > 0 {
      SameOrder(ps, s, t, k - 1);
      NextIsNoLater(ps, s, t, k - 1);
      NextIsNoLater(ps, t, s, k - 1);
      assert s[k - 1] == t[k - 1];
      assert s[..k] == s[..k - 1] + [s[k - 1]] && t[..k] == t[..k - 1] + [t[k - 1]];
    }
  }

  lemma {:induction false} LeastUrgent(ps: Plugins, names: set<string>) returns (last: string)
    requires names != {} && names <= ps.Keys
    ensures last in names && forall n :: n in names ==> ps[n].priority <= ps[last].priority
    decreases names
  {
    last :| last in names;
    if names != {last} {
      var other := LeastUrgent(ps, names - {last});
      if ps[last].priority < ps[other].priority {
        last := other;
      }
    }
  }

  lemma {:induction false} SomeOrder(ps: Plugins, names: set<string>) returns (s: seq<string>)
    requires names <= ps.Keys
    ensures NoDup(s) && (forall n :: n in s <==> n in names)
    ensures forall i, j :: 0 <= i < j < |s| ==> ps[s[i]].priority <= ps[s[j]].priority
    decreases names
  {
    if names == {} {
      s := [];
    } else {
      var last := LeastUrgent(ps, names);
      var rest := SomeOrder(ps, names - {last});
      s := rest + [last];
    }
  }

  lemma TiedOrders(ps: Plugins, m: string, n: string) returns (s: seq<string>, t: seq<string>)
    requires m in ps && n in ps && m != n && ps[m].priority == ps[n].priority
    ensures PriorityOrder(ps, s) && PriorityOrder(ps, t) && s != t
  {
    s := SomeOrder(ps, ps.Keys);
    assert PriorityOrder(ps, s);
    assert m in s && n in s;
    var i :| 0 <= i < |s| && s[i] == m;
    var j :| 0 <= j < |s| && s[j] == n;
    t := s[i := n][j := m];
    assert t[i] == n != s[i];
    if i < j {
      SwapTied(ps, s, i, j);
    } else {
      SwapTied(ps, s, j, i);
      assert t == s[j := m][i := n];
    }
  }

  lemma SwapTied(ps: Plugins, s: seq<string>, i: nat, j: nat)
    requires PriorityOrder(ps, s) && i < j < |s| && ps[s[i]].priority == ps[s[j]].priority
    ensures PriorityOrder(ps, s[i := s[j]][j := s[i]])
  {
    var t := s[i := s[j]][j := s[i]];
    forall x ensures x in t <==> x in ps {
      if x in ps {
        assert x in s;
        var k :| 0 <= k < |s| && s[k] == x;
        assert t[if k == i then j else if k == j then i else k] == x;
      }
    }
    forall x, y | 0 <= x < y < |t| ensures ps[t[x]].priority <= ps[t[y]].priority {
      assert ps[t[x]].priority == ps[s[x]].priority && ps[t[y]].priority == ps[s[y]].priority;
    }
  }
}
