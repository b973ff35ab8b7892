/**
  When the start order is determined (internal/plugin/manager.go): what the
  order of plugins with equal priorities, which depends on a map walk, does to
  the depth-first order.
 */
module StartOrder {
  import opened Sequences
  import opened PluginGraph

  /* ----- the depth-first order ----- */

  lemma {:induction false} WalkExtends(g: Graph, name: string, done: seq<string>, open: set<string>)
    ensures done <= Walk(g, name, done, open)
    decreases g.Keys - open, 0, 0
  {
    if !(name in done || name in open || name !in g) {
      WalkAllExtends(g, g[name], done, open + {name});
    }
  }

  lemma {:induction false} WalkAllExtends(g: Graph, names: seq<string>, done: seq<string>, open: set<string>)
    ensures done <= WalkAll(g, names, done, open)
    decreases g.Keys - open, 1, |names|
  {
    if names != [] {
      WalkAllExtends(g, names[..|names| - 1], done, open);
      WalkExtends(g, names[|names| - 1], WalkAll(g, names[..|names| - 1], done, open), open);
    }
  }

  lemma {:induction false} WalkAllAppend(g: Graph, names: seq<string>, more: seq<string>, done: seq<string>, open: set<string>)
    ensures WalkAll(g, names + more, done, open) == WalkAll(g, more, WalkAll(g, names, done, open), open)
    decreases |more|
  {
    if more == [] {
      assert names + more == names;
    } else {
      var init := more[..|more| - 1];
      assert (names + more)[..|names + more| - 1] == names + init;
      WalkAllAppend(g, names, init, done, open);
    }
  }

  lemma WalkAllOne(g: Graph, name: string, done: seq<string>)
    ensures WalkAll(g, [name], done, {}) == Walk(g, name, done, {})
  {
    assert [name][..0] == [];
  }

  lemma WalkAllTwo(g: Graph, a: string, b: string, done: seq<string>)
    ensures WalkAll(g, [a, b], done, {}) == Walk(g, b, Walk(g, a, done, {}), {})
  {
    assert [a, b][..1] == [a];
    WalkAllOne(g, a, done);
  }

  ghost predicate Avoids(s: seq<string>, open: set<string>) {
    forall n :: n in s ==> n !in open
  }

  lemma {:induction false} WalkNoDup(g: Graph, name: string, done: seq<string>, open: set<string>)
    requires NoDup(done) && Avoids(done, open)
    ensures NoDup(Walk(g, name, done, open)) && Avoids(Walk(g, name, done, open), open)
    decreases g.Keys - open, 0, 0
  {
    if !(name in done || name in open || name !in g) {
      WalkAllNoDup(g, g[name], done, open + {name});
    }
  }

  lemma {:induction false} WalkAllNoDup(g: Graph, names: seq<string>, done: seq<string>, open: set<string>)
    requires NoDup(done) && Avoids(done, open)
    ensures NoDup(WalkAll(g, names, done, open)) && Avoids(WalkAll(g, names, done, open), open)
    decreases g.Keys - open, 1, |names|
  {
    if names != [] {
      WalkAllNoDup(g, names[..|names| - 1], done, open);
      WalkNoDup(g, names[|names| - 1], WalkAll(g, names[..|names| - 1], done, open), open);
    }
  }

  // A visit changes nothing or ends with the name; afterwards the name is
  // there, if it is live.
  lemma WalkEnds(g: Graph, name: string, done: seq<string>)
    ensures var w := Walk(g, name, done, {}); w == done || (w != [] && w[|w| - 1] == name)
    ensures name in g ==> name in Walk(g, name, done, {})
    ensures Walk(g, name, Walk(g, name, done, {}), {}) == Walk(g, name, done, {})
  {
  }

  /* ----- one class of equal priorities ----- */

  // Visiting two plugins in either order gives the same list.
  predicate Commute(g: Graph, done: seq<string>, a: string, b: string) {
    WalkAll(g, [a, b], done, {}) == WalkAll(g, [b, a], done, {})
  }

  ghost predicate AllCommute(g: Graph, done: seq<string>, names: seq<string>) {
    forall a, b :: a in names && b in names ==> Commute(g, done, a, b)
  }

  // When every two commute, one visit does the work of all.
  ghost predicate IsTop(g: Graph, done: seq<string>, names: seq<string>, top: string) {
    && top in names && WalkAll(g, names, done, {}) == Walk(g, top, done, {})
    && forall x :: x in names ==> Walk(g, x, done, {}) <= Walk(g, top, done, {})
  }

  lemma {:induction false} SomeTop(g: Graph, done: seq<string>, names: seq<string>) returns (top: string)
    requires names != [] && AllCommute(g, done, names)
    ensures IsTop(g, done, names, top)
  {
    var init, x := names[..|names| - 1], names[|names| - 1];
    assert names == init + [x];
    if init == [] {
      top := x;
      WalkAllOne(g, x, done);
    } else {
      var m := SomeTop(g, done, init);
      assert m in names && x in names;
      top := Higher(g, done, m, x);
      WalkAllAppend(g, init, [x], done, {});
      WalkAllOne(g, x, WalkAll(g, init, done, {}));
    }
  }

  lemma Higher(g: Graph, done: seq<string>, m: string, x: string) returns (top: string)
    requires Commute(g, done, m, x)
    ensures top == m || top == x
    ensures Walk(g, x, Walk(g, m, done, {}), {}) == Walk(g, top, done, {})
    ensures Walk(g, m, done, {}) <= Walk(g, top, done, {}) && Walk(g, x, done, {}) <= Walk(g, top, done, {})
  {
    var first, other := Walk(g, m, done, {}), Walk(g, x, done, {});
    WalkAllTwo(g, m, x, done);
    WalkAllTwo(g, x, m, done);
    WalkExtends(g, x, first, {});
    WalkExtends(g, m, other, {});
    WalkEnds(g, x, first);
    WalkEnds(g, m, other);
    WalkEnds(g, m, done);
    top := if Walk(g, x, first, {}) == first then m else x;
  }

  // So the order inside the class does not matter.
  lemma ClassOrder(g: Graph, done: seq<string>, names: seq<string>, other: seq<string>)
    requires names != [] && other != [] && AllCommute(g, done, names) && forall n :: n in names <==> n in other
    ensures WalkAll(g, names, done, {}) == WalkAll(g, other, done, {})
  {
    var s := SomeTop(g, done, names);
    var t := SomeTop(g, done, other);
    assert Walk(g, s, done, {}) <= Walk(g, t, done, {}) <= Walk(g, s, done, {});
  }

  /* ----- priority orders ----- */

  function PriorityAt(ps: Plugins, names: seq<string>, i: nat): int
    requires i < |names|
  {
    if names[i] in ps then ps[names[i]].priority else 0
  }

  // Where the plugins with the priority of the i-th begin.
  function ClassStart(ps: Plugins, names: seq<string>, i: nat): (k: nat)
    requires i < |names|
    ensures k <= i
  {
    if i > 0 && PriorityAt(ps, names, i - 1) == PriorityAt(ps, names, i) then ClassStart(ps, names, i - 1) else i
  }

  lemma {:induction false} ClassStartMeans(ps: Plugins, names: seq<string>, i: nat)
    requires i < |names|
    ensures var k := ClassStart(ps, names, i);
            && (forall j :: k <= j <= i ==> PriorityAt(ps, names, j) == PriorityAt(ps, names, i))
            && (k > 0 ==> PriorityAt(ps, names, k - 1) != PriorityAt(ps, names, i))
  {
    if i > 0 && PriorityAt(ps, names, i - 1) == PriorityAt(ps, names, i) {
      ClassStartMeans(ps, names, i - 1);
    }
  }

  // Any two plugins of one priority commute once all smaller priorities are
  // done: one is listed already, or both orders list the same.
  ghost predicate TiesCommute(ps: Plugins, names: seq<string>) {
    forall i, j :: 0 <= i < j < |names| && PriorityAt(ps, names, i) == PriorityAt(ps, names, j) ==> TieCommutes(ps, names, i, j)
  }

  ghost predicate TieCommutes(ps: Plugins, names: seq<string>, i: nat, j: nat)
    requires i < |names| && j < |names|
  {
    Commute(Live(ps), DepthFirst(Live(ps), names[..ClassStart(ps, names, i)]), names[i], names[j])
  }

  lemma {:induction false} Elements(s: seq<string>)
    requires NoDup(s)
    ensures |set n | n in s| == |s|
  {
    if s != [] {
      var init, last := s[..|s| - 1], s[|s| - 1];
      Elements(init);
      assert s == init + [last];
      assert (set n | n in s) == (set n | n in init) + {last};
    }
  }

  ghost function Low(ps: Plugins, p: int): set<string> {
    set n | n in ps && ps[n].priority <= p
  }

  // The first m are those of priority at most p.
  ghost predicate LowFirst(ps: Plugins, names: seq<string>, p: int, m: nat) {
    m <= |names| && forall i :: 0 <= i < |names| ==> (PriorityAt(ps, names, i) <= p <==> i < m)
  }

  lemma LowMembers(ps: Plugins, names: seq<string>, p: int, m: nat)
    requires PriorityOrder(ps, names) && LowFirst(ps, names, p, m)
    ensures (forall n :: n in names[..m] <==> n in Low(ps, p)) && |Low(ps, p)| == m
  {
    forall n | n in Low(ps, p) ensures n in names[..m] {
      assert n in names;
      var i :| 0 <= i < |names| && names[i] == n;
      assert PriorityAt(ps, names, i) <= p;
    }
    forall n | n in names[..m] ensures n in Low(ps, p) {
      var i :| 0 <= i < m && names[i] == n;
      assert n in names && PriorityAt(ps, names, i) <= p;
    }
    Elements(names[..m]);
    assert (set n | n in names[..m]) == Low(ps, p);
  }

  lemma {:induction false} LowCount(ps: Plugins, names: seq<string>, p: int) returns (m: nat)
    requires forall i, j :: 0 <= i < j < |names| ==> PriorityAt(ps, names, i) <= PriorityAt(ps, names, j)
    ensures LowFirst(ps, names, p, m)
  {
    m := |names|;
    while m > 0 && PriorityAt(ps, names, m - 1) > p
      invariant m <= |names| && forall i :: m <= i < |names| ==> PriorityAt(ps, names, i) > p
    {
      m := m - 1;
    }
  }

  lemma OrderedByPriority(ps: Plugins, names: seq<string>)
    requires PriorityOrder(ps, names)
    ensures forall i, j :: 0 <= i < j < |names| ==> PriorityAt(ps, names, i) <= PriorityAt(ps, names, j)
  {
    forall i | 0 <= i < |names| ensures names[i] in ps {
      assert names[i] in names;
    }
  }

  // The plugins before a change of priority are the same in every order.
  lemma PrefixMembers(ps: Plugins, names: seq<string>, other: seq<string>, k: nat)
    requires PriorityOrder(ps, names) && PriorityOrder(ps, other) && k <= |names|
    requires 0 < k < |names| ==> PriorityAt(ps, names, k - 1) != PriorityAt(ps, names, k)
    ensures k <= |other| && forall n :: n in names[..k] <==> n in other[..k]
  {
    OrderedByPriority(ps, names);
    OrderedByPriority(ps, other);
    if k > 0 {
      var p := PriorityAt(ps, names, k - 1);
      var m := LowCount(ps, other, p);
      assert LowFirst(ps, names, p, k);
      LowMembers(ps, names, p, k);
      LowMembers(ps, other, p, m);
    }
  }

  /* ----- commuting ties determine the order ----- */

  lemma {:induction false} PrefixOrder(ps: Plugins, names: seq<string>, other: seq<string>, k: nat)
    requires PriorityOrder(ps, names) && PriorityOrder(ps, other) && TiesCommute(ps, names) && k <= |names|
    requires 0 < k < |names| ==> PriorityAt(ps, names, k - 1) != PriorityAt(ps, names, k)
    ensures k <= |other| && DepthFirst(Live(ps), names[..k]) == DepthFirst(Live(ps), other[..k])
    decreases k
  {
    PrefixMembers(ps, names, other, k);
    if k > 0 {
      var j := ClassStart(ps, names, k - 1);
      ClassStartMeans(ps, names, k - 1);
      PrefixOrder(ps, names, other, j);
      TiedMembers(ps, names, other, j, k);
      ClassCommutes(ps, names, j, k, Live(ps), DepthFirst(Live(ps), names[..j]));
      OneMoreClass(Live(ps), names, other, j, k);
    }
  }

  lemma TiedMembers(ps: Plugins, names: seq<string>, other: seq<string>, j: nat, k: nat)
    requires PriorityOrder(ps, names) && PriorityOrder(ps, other) && j < k <= |names|
    requires j > 0 ==> PriorityAt(ps, names, j - 1) != PriorityAt(ps, names, j)
    requires k < |names| ==> PriorityAt(ps, names, k - 1) != PriorityAt(ps, names, k)
    ensures k <= |other| && forall n :: n in names[j..k] <==> n in other[j..k]
  {
    PrefixMembers(ps, names, other, j);
    PrefixMembers(ps, names, other, k);
    ClassMembers(names, other, j, k);
  }

  lemma OneMoreClass(g: Graph, names: seq<string>, other: seq<string>, j: nat, k: nat)
    requires j < k <= |names| && k <= |other| && DepthFirst(g, names[..j]) == DepthFirst(g, other[..j])
    requires AllCommute(g, DepthFirst(g, names[..j]), names[j..k]) && forall n :: n in names[j..k] <==> n in other[j..k]
    ensures DepthFirst(g, names[..k]) == DepthFirst(g, other[..k])
  {
    assert names[..k] == names[..j] + names[j..k] && other[..k] == other[..j] + other[j..k];
    WalkAllAppend(g, names[..j], names[j..k], [], {});
    WalkAllAppend(g, other[..j], other[j..k], [], {});
    ClassOrder(g, DepthFirst(g, names[..j]), names[j..k], other[j..k]);
  }

  lemma ClassMembers(names: seq<string>, other: seq<string>, j: nat, k: nat)
    requires NoDup(names) && NoDup(other) && j <= k <= |names| && k <= |other|
    requires forall n :: n in names[..j] <==> n in other[..j]
    requires forall n :: n in names[..k] <==> n in other[..k]
    ensures forall n :: n in names[j..k] <==> n in other[j..k]
  {
    SplitMembers(names, j, k);
    SplitMembers(other, j, k);
  }

  lemma SplitMembers(s: seq<string>, j: nat, k: nat)
    requires NoDup(s) && j <= k <= |s|
    ensures forall n :: n in s[j..k] <==> n in s[..k] && n !in s[..j]
  {
    assert s[..k] == s[..j] + s[j..k];
    forall n | n in s[j..k] ensures n !in s[..j] {
      var i :| 0 <= i < k - j && s[j..k][i] == n;
      assert s[j + i] == n;
    }
  }

  lemma ClassCommutes(ps: Plugins, names: seq<string>, j: nat, k: nat, g: Graph, done: seq<string>)
    requires TiesCommute(ps, names) && j < k <= |names| && g == Live(ps) && done == DepthFirst(g, names[..j])
    requires forall i :: j <= i < k ==> PriorityAt(ps, names, i) == PriorityAt(ps, names, j)
    requires j > 0 ==> PriorityAt(ps, names, j - 1) != PriorityAt(ps, names, j)
    ensures AllCommute(g, done, names[j..k])
  {
    var tied := names[j..k];
    forall x, y | 0 <= x < |tied| && 0 <= y < |tied| ensures Commute(g, done, tied[x], tied[y]) {
      PairCommutes(ps, names, j, j + x, j + y);
    }
    CommuteByPosition(g, done, tied);
  }

  lemma CommuteByPosition(g: Graph, done: seq<string>, names: seq<string>)
    requires forall x, y :: 0 <= x < |names| && 0 <= y < |names| ==> Commute(g, done, names[x], names[y])
    ensures AllCommute(g, done, names)
  {
  }

  lemma PairCommutes(ps: Plugins, names: seq<string>, j: nat, x: nat, y: nat)
    requires TiesCommute(ps, names) && j <= x < |names| && j <= y < |names|
    requires forall i :: (j <= i <= x || j <= i <= y) ==> PriorityAt(ps, names, i) == PriorityAt(ps, names, j)
    requires j > 0 ==> PriorityAt(ps, names, j - 1) != PriorityAt(ps, names, j)
    ensures Commute(Live(ps), DepthFirst(Live(ps), names[..j]), names[x], names[y])
  {
    OneClassStart(ps, names, j, x);
    OneClassStart(ps, names, j, y);
    if x < y {
      assert TieCommutes(ps, names, x, y);
    } else if y < x {
      assert TieCommutes(ps, names, y, x);
    }
  }

  lemma {:induction false} OneClassStart(ps: Plugins, names: seq<string>, j: nat, i: nat)
    requires j <= i < |names| && forall x :: j <= x <= i ==> PriorityAt(ps, names, x) == PriorityAt(ps, names, i)
    requires j > 0 ==> PriorityAt(ps, names, j - 1) != PriorityAt(ps, names, i)
    ensures ClassStart(ps, names, i) == j
  {
    if i > j {
      OneClassStart(ps, names, j, i - 1);
    }
  }

  /* ----- a determined order makes ties commute ----- */

  // Moving a plugin to the front of its class.
  function Moved(names: seq<string>, k: nat, i: nat): seq<string>
    requires k <= i < |names|
  {
    names[..k] + [names[i]] + names[k..i] + names[i + 1..]
  }

  // Where the x-th of the moved list stood.
  function From(k: nat, i: nat, x: nat): nat {
    if x < k then x else if x == k then i else if x <= i then x - 1 else x
  }

  lemma MovedFrom(names: seq<string>, k: nat, i: nat)
    requires k <= i < |names|
    ensures var moved := Moved(names, k, i);
            |moved| == |names| && forall x :: 0 <= x < |names| ==> From(k, i, x) < |names| && moved[x] == names[From(k, i, x)]
  {
  }

  lemma MovedIsOrder(ps: Plugins, names: seq<string>, k: nat, i: nat)
    requires PriorityOrder(ps, names) && k <= i < |names| && PriorityAt(ps, names, k) == PriorityAt(ps, names, i)
    ensures PriorityOrder(ps, Moved(names, k, i))
  {
    var moved := Moved(names, k, i);
    MovedFrom(names, k, i);
    MovedMembers(names, k, i);
    OrderedByPriority(ps, names);
    forall x, y | 0 <= x < y < |moved| ensures moved[x] != moved[y] && ps[moved[x]].priority <= ps[moved[y]].priority {
      MovedPair(ps, names, k, i, x, y);
      assert moved[x] in names && moved[y] in names;
    }
  }

  lemma MovedMembers(names: seq<string>, k: nat, i: nat)
    requires k <= i < |names|
    ensures forall n :: n in Moved(names, k, i) <==> n in names
  {
    assert names == names[..k] + names[k..i] + [names[i]] + names[i + 1..];
  }

  lemma MovedPair(ps: Plugins, names: seq<string>, k: nat, i: nat, x: nat, y: nat)
    requires NoDup(names) && k <= i < |names| && x < y < |names| && PriorityAt(ps, names, k) == PriorityAt(ps, names, i)
    requires forall a, b :: 0 <= a < b < |names| ==> PriorityAt(ps, names, a) <= PriorityAt(ps, names, b)
    ensures var a, b := From(k, i, x), From(k, i, y);
            a < |names| && b < |names| && names[a] != names[b] && PriorityAt(ps, names, a) <= PriorityAt(ps, names, b)
  {
  }

  // Two members of a class can come first in it, in either order.
  lemma BothFirst(ps: Plugins, names: seq<string>, i: nat, j: nat) returns (one: seq<string>, two: seq<string>)
    requires PriorityOrder(ps, names) && i < j < |names| && PriorityAt(ps, names, i) == PriorityAt(ps, names, j)
    ensures PriorityOrder(ps, one) && PriorityOrder(ps, two)
    ensures var k := ClassStart(ps, names, i);
            names[..k] + [names[i], names[j]] <= one && names[..k] + [names[j], names[i]] <= two
  {
    var k := ClassStart(ps, names, i);
    ClassStartMeans(ps, names, i);
    two := FirstTwo(ps, names, k, i, j);
    one := FirstTwo(ps, names, k, j, i);
  }

  // The x-th moved to the front of its class, then the y-th.
  lemma FirstTwo(ps: Plugins, names: seq<string>, k: nat, x: nat, y: nat) returns (order: seq<string>)
    requires PriorityOrder(ps, names) && k <= x < |names| && k <= y < |names| && x != y
    requires PriorityAt(ps, names, k) == PriorityAt(ps, names, x) == PriorityAt(ps, names, y)
    ensures PriorityOrder(ps, order) && names[..k] + [names[y], names[x]] <= order
  {
    var once := Moved(names, k, x);
    var at := if y < x then y + 1 else y;
    MovedIsOrder(ps, names, k, x);
    MovedTo(names, k, x, at);
    assert names[if at <= x then at - 1 else at] == names[y];
    order := SecondMove(ps, once, k, at, names[x], names[y]);
  }

  lemma SecondMove(ps: Plugins, once: seq<string>, k: nat, at: nat, first: string, second: string) returns (order: seq<string>)
    requires PriorityOrder(ps, once) && k < at < |once| && once[k] == first && once[at] == second
    requires PriorityAt(ps, once, k) == PriorityAt(ps, once, at)
    ensures PriorityOrder(ps, order) && once[..k] + [second, first] <= order
  {
    order := Moved(once, k, at);
    MovedIsOrder(ps, once, k, at);
    MovedTo(once, k, at, k + 1);
    assert order[..k + 2] == order[..k] + [order[k], order[k + 1]];
  }

  // What a move puts where.
  lemma MovedTo(names: seq<string>, k: nat, i: nat, at: nat)
    requires k <= i < |names| && k < at < |names|
    ensures var moved := Moved(names, k, i);
            |moved| == |names| && moved[..k] == names[..k] && moved[k] == names[i] && moved[at] == names[if at <= i then at - 1 else at]
  {
  }

  // Two runs that start with the same pair, in either order, and end the same.
  lemma SameEndCommutes(g: Graph, done: seq<string>, a: string, b: string, full: seq<string>)
    requires NoDup(done) && WalkAll(g, [a, b], done, {}) <= full && WalkAll(g, [b, a], done, {}) <= full
    ensures Commute(g, done, a, b)
  {
    var u, v := WalkAll(g, [a, b], done, {}), WalkAll(g, [b, a], done, {});
    WalkAllNoDup(g, [a, b], done, {});
    WalkAllNoDup(g, [b, a], done, {});
    if |u| <= |v| {
      assert u <= v;
      NothingMore(g, done, a, b);
    } else {
      assert v <= u;
      NothingMore(g, done, b, a);
    }
  }

  lemma NothingMore(g: Graph, done: seq<string>, a: string, b: string)
    requires var u, v := WalkAll(g, [a, b], done, {}), WalkAll(g, [b, a], done, {}); u <= v && NoDup(v)
    ensures WalkAll(g, [a, b], done, {}) == WalkAll(g, [b, a], done, {})
  {
    var u, v := WalkAll(g, [a, b], done, {}), WalkAll(g, [b, a], done, {});
    WalkAllTwo(g, a, b, done);
    WalkAllTwo(g, b, a, done);
    var first, other := Walk(g, a, done, {}), Walk(g, b, done, {});
    WalkEnds(g, a, other);
    WalkEnds(g, b, done);
    WalkEnds(g, a, done);
    WalkEnds(g, b, first);
    WalkExtends(g, a, done, {});
    WalkExtends(g, b, first, {});
    LastIsOld(g, done, a, b);
    if v != done {
      PrefixWithLast(u, v);
    }
  }

  lemma PrefixWithLast(u: seq<string>, v: seq<string>)
    requires u <= v && NoDup(v) && v != [] && v[|v| - 1] in u
    ensures u == v
  {
    var x :| 0 <= x < |u| && u[x] == v[|v| - 1];
    assert x == |v| - 1;
  }

  // What the second list ends with is in the first.
  lemma LastIsOld(g: Graph, done: seq<string>, a: string, b: string)
    ensures var u, v := WalkAll(g, [a, b], done, {}), WalkAll(g, [b, a], done, {});
            v == done || (v != [] && v[|v| - 1] in u)
  {
    WalkAllTwo(g, a, b, done);
    WalkAllTwo(g, b, a, done);
    var first, other := Walk(g, a, done, {}), Walk(g, b, done, {});
    WalkEnds(g, a, other);
    WalkEnds(g, b, done);
    WalkEnds(g, a, done);
    WalkEnds(g, b, first);
    WalkExtends(g, b, first, {});
  }

  ghost predicate Determined(ps: Plugins) {
    forall s, t :: PriorityOrder(ps, s) && PriorityOrder(ps, t) ==> DepthFirst(Live(ps), s) == DepthFirst(Live(ps), t)
  }

  lemma DeterminedTiesCommute(ps: Plugins, names: seq<string>, i: nat, j: nat)
    requires Determined(ps) && PriorityOrder(ps, names)
    requires i < j < |names| && PriorityAt(ps, names, i) == PriorityAt(ps, names, j)
    ensures TieCommutes(ps, names, i, j)
  {
    var g, k := Live(ps), ClassStart(ps, names, i);
    var done := DepthFirst(g, names[..k]);
    var one, two := BothFirst(ps, names, i, j);
    StartsWith(g, one, names[..k], [names[i], names[j]]);
    StartsWith(g, two, names[..k], [names[j], names[i]]);
    WalkAllNoDup(g, names[..k], [], {});
    SameEndCommutes(g, done, names[i], names[j], DepthFirst(g, one));
  }

  lemma StartsWith(g: Graph, names: seq<string>, before: seq<string>, pair: seq<string>)
    requires before + pair <= names
    ensures WalkAll(g, pair, DepthFirst(g, before), {}) <= DepthFirst(g, names)
  {
    var rest := names[|before + pair|..];
    assert names == before + (pair + rest);
    WalkAllAppend(g, before, pair + rest, [], {});
    WalkAllAppend(g, pair, rest, DepthFirst(g, before), {});
    WalkAllExtends(g, rest, WalkAll(g, pair, DepthFirst(g, before), {}), {});
  }

  /* ----- the promise ----- */

  // The start order is the same for every order of the map walk exactly when
  // every two plugins of one priority commute.
  lemma StartOrderDeterminedIff(ps: Plugins, names: seq<string>)
    requires PriorityOrder(ps, names)
    ensures Determined(ps) <==> TiesCommute(ps, names)
  {
    if TiesCommute(ps, names) {
      forall t | PriorityOrder(ps, t) ensures DepthFirst(Live(ps), t) == DepthFirst(Live(ps), names) {
        PrefixOrder(ps, names, t, |names|);
        Elements(names);
        Elements(t);
        assert (set n | n in names) == (set n | n in t);
        assert names[..|names|] == names && t[..|t|] == t;
      }
    }
    if Determined(ps) {
      forall i, j | 0 <= i < j < |names| && PriorityAt(ps, names, i) == PriorityAt(ps, names, j)
        ensures TieCommutes(ps, names, i, j)
      {
        DeterminedTiesCommute(ps, names, i, j);
      }
    }
  }

  // In particular when no two plugins share a priority.
  lemma DistinctPrioritiesDetermine(ps: Plugins)
    requires DistinctPriorities(ps)
    ensures Determined(ps)
  {
    PriorityOrderUniqueIff(ps);
  }
}
