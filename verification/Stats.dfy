/**
  Usage statistics (internal/stats/stats.go, internal/stats/persist.go): the
  running totals of each tool beside its daily buckets, what a snapshot keeps,
  and the reports merged from either.
 */
module Stats {
  import opened Wrappers

  const MaxEntries: nat := 1000

  // The numeric fields of a running aggregate.
  datatype Counts = Counts(calls: int, errors: int, inTokens: int, outTokens: int, duration: int, maxOut: int)

  const Zero := Counts(0, 0, 0, 0, 0, 0)

  datatype Aggregate = Aggregate(plugin: string, counts: Counts)

  datatype ToolSummary = ToolSummary(tool: string, plugin: string, counts: Counts, avgIn: int, avgOut: int, avgDuration: int)

  datatype Entry = Entry(tool: string, plugin: string, date: string, duration: int, inTokens: int, outTokens: int, isError: bool)

  datatype Snapshot = Snapshot(aggregates: map<string, ToolSummary>, daily: map<string, map<string, ToolSummary>>)

  function Plus(a: Counts, b: Counts): Counts {
    Counts(a.calls + b.calls, a.errors + b.errors, a.inTokens + b.inTokens, a.outTokens + b.outTokens,
           a.duration + b.duration, if b.maxOut > a.maxOut then b.maxOut else a.maxOut)
  }

  // What one call adds.
  function OneCall(e: Entry): Counts {
    Counts(1, if e.isError then 1 else 0, e.inTokens, e.outTokens, e.duration, e.outTokens)
  }

  // Integer division truncates toward zero.
  function Quotient(a: int, b: int): int
    requires b > 0
  {
    if a >= 0 then a / b else -((-a) / b)
  }

  function ToSummary(tool: string, a: Aggregate): ToolSummary {
    if a.counts.calls > 0 then
      ToolSummary(tool, a.plugin, a.counts, Quotient(a.counts.inTokens, a.counts.calls),
                  Quotient(a.counts.outTokens, a.counts.calls), Quotient(a.counts.duration, a.counts.calls))
    else
      ToolSummary(tool, a.plugin, a.counts, 0, 0, 0)
  }

  // A snapshot without total durations has them rebuilt from the averages.
  function Restored(s: ToolSummary): Aggregate {
    if s.counts.duration == 0 && s.avgDuration > 0 then
      Aggregate(s.plugin, s.counts.(duration := s.avgDuration * s.counts.calls))
    else
      Aggregate(s.plugin, s.counts)
  }

  lemma RestoreUndoesSummary(tool: string, a: Aggregate)
    ensures Restored(ToSummary(tool, a)) == a
  {
    if a.counts.duration == 0 && a.counts.calls > 0 {
      assert Quotient(0, a.counts.calls) == 0;
    }
  }

  // What is lost when the total duration is missing: less than one
  // millisecond a call.
  lemma OldFormatLoss(tool: string, a: Aggregate)
    requires a.counts.calls > 0 && a.counts.duration >= 0
    ensures var s := ToSummary(tool, a);
            var older := s.(counts := s.counts.(duration := 0));
            0 <= a.counts.duration - Restored(older).counts.duration < a.counts.calls
  {
    var n, d := a.counts.calls, a.counts.duration;
    assert d == d / n * n + d % n;
    if d / n == 0 {
      assert d / n * n == 0;
    }
  }

  lemma PlusZero(a: Counts)
    requires a.maxOut >= 0
    ensures Plus(a, Zero) == a == Plus(Zero, a)
  {
  }

  lemma PlusCommutes(a: Counts, b: Counts)
    ensures Plus(a, b) == Plus(b, a)
  {
  }

  lemma PlusAssociates(a: Counts, b: Counts, c: Counts)
    ensures Plus(Plus(a, b), c) == Plus(a, Plus(b, c))
  {
  }

  lemma PlusSwaps(a: Counts, b: Counts, c: Counts)
    ensures Plus(a, Plus(b, c)) == Plus(b, Plus(a, c))
    ensures Plus(Plus(a, b), c) == Plus(Plus(a, c), b)
  {
  }

  // ------------------------------------------------------- daily buckets

  function CountsIn(day: map<string, Aggregate>, tool: string): Counts {
    if tool in day then day[tool].counts else Zero
  }

  function Bucket(daily: map<string, map<string, Aggregate>>, date: string, tool: string): Counts {
    if date in daily then CountsIn(daily[date], tool) else Zero
  }

  // The sum (for the largest output: the maximum) over the buckets of `dates`.
  ghost function DailyTotal(daily: map<string, map<string, Aggregate>>, dates: set<string>, tool: string): Counts
    decreases |dates|
  {
    if dates == {} then Zero
    else
      var d :| d in dates;
      Plus(Bucket(daily, d, tool), DailyTotal(daily, dates - {d}, tool))
  }

  lemma {:induction false} TotalTake(daily: map<string, map<string, Aggregate>>, dates: set<string>, tool: string, d: string)
    requires d in dates
    ensures DailyTotal(daily, dates, tool) == Plus(Bucket(daily, d, tool), DailyTotal(daily, dates - {d}, tool))
    decreases |dates|
  {
    var e :| e in dates && DailyTotal(daily, dates, tool) == Plus(Bucket(daily, e, tool), DailyTotal(daily, dates - {e}, tool));
    if d != e {
      TotalTake(daily, dates - {e}, tool, d);
      TotalTake(daily, dates - {d}, tool, e);
      assert dates - {e} - {d} == dates - {d} - {e};
      var x, y, rest := Bucket(daily, d, tool), Bucket(daily, e, tool), DailyTotal(daily, dates - {d} - {e}, tool);
      PlusSwaps(x, y, rest);
    }
  }

  lemma {:induction false} TotalHasMax(daily: map<string, map<string, Aggregate>>, dates: set<string>, tool: string)
    ensures DailyTotal(daily, dates, tool).maxOut >= 0
    decreases |dates|
  {
    if dates != {} {
      var d :| d in dates;
      TotalTake(daily, dates, tool, d);
      TotalHasMax(daily, dates - {d}, tool);
    }
  }

  lemma {:induction false} TotalCongruent(
      daily: map<string, map<string, Aggregate>>, other: map<string, map<string, Aggregate>>, dates: set<string>, tool: string)
    requires forall d :: d in dates ==> Bucket(daily, d, tool) == Bucket(other, d, tool)
    ensures DailyTotal(daily, dates, tool) == DailyTotal(other, dates, tool)
    decreases |dates|
  {
    if dates != {} {
      var d :| d in dates;
      TotalTake(daily, dates, tool, d);
      TotalTake(other, dates, tool, d);
      TotalCongruent(daily, other, dates - {d}, tool);
    }
  }

  lemma {:induction false} TotalUnion(daily: map<string, map<string, Aggregate>>, left: set<string>, right: set<string>, tool: string)
    requires left !! right
    ensures DailyTotal(daily, left + right, tool) == Plus(DailyTotal(daily, left, tool), DailyTotal(daily, right, tool))
    decreases |left|
  {
    if left == {} {
      assert left + right == right;
      TotalHasMax(daily, right, tool);
      PlusZero(DailyTotal(daily, right, tool));
    } else {
      var d :| d in left;
      TotalUnion(daily, left - {d}, right, tool);
      TotalTake(daily, left, tool, d);
      TotalTake(daily, left + right, tool, d);
      assert (left + right) - {d} == (left - {d}) + right;
      PlusAssociates(Bucket(daily, d, tool), DailyTotal(daily, left - {d}, tool), DailyTotal(daily, right, tool));
    }
  }

  // Tools with a bucket on one of `dates`.
  ghost predicate Seen(daily: map<string, map<string, Aggregate>>, dates: set<string>, tool: string) {
    exists date :: date in dates && Has(daily, date, tool)
  }

  predicate Has(daily: map<string, map<string, Aggregate>>, date: string, tool: string) {
    date in daily && tool in daily[date]
  }

  // A cumulative record is the sum of its daily buckets and of those that
  // pruning dropped.
  ghost predicate Balanced(
      aggregates: map<string, Aggregate>, daily: map<string, map<string, Aggregate>>, dropped: map<string, Counts>, tool: string) {
    && (tool in aggregates <==> (tool in dropped || Seen(daily, daily.Keys, tool)))
    && CountsIn(aggregates, tool) == Plus(DailyTotal(daily, daily.Keys, tool), Lost(dropped, tool))
  }

  ghost predicate Conserved(aggregates: map<string, Aggregate>, daily: map<string, map<string, Aggregate>>, dropped: map<string, Counts>) {
    forall tool :: Balanced(aggregates, daily, dropped, tool)
  }

  ghost function Lost(dropped: map<string, Counts>, tool: string): Counts {
    if tool in dropped then dropped[tool] else Zero
  }

  // One more call of a tool.
  function Bumped(m: map<string, Aggregate>, e: Entry): map<string, Aggregate> {
    m[e.tool := Aggregate(if e.tool in m then m[e.tool].plugin else e.plugin, Plus(CountsIn(m, e.tool), OneCall(e)))]
  }

  function BumpedDay(daily: map<string, map<string, Aggregate>>, e: Entry): map<string, map<string, Aggregate>> {
    daily[e.date := Bumped(if e.date in daily then daily[e.date] else map[], e)]
  }

  // Replacing one bucket shifts the total by the change of that bucket.
  lemma TotalShifts(daily: map<string, map<string, Aggregate>>, after: map<string, map<string, Aggregate>>, d: string, tool: string, x: Counts)
    requires after.Keys == daily.Keys + {d} && forall o :: o in daily && o != d ==> after[o] == daily[o]
    requires Bucket(after, d, tool) == Plus(Bucket(daily, d, tool), x)
    ensures DailyTotal(after, after.Keys, tool) == Plus(DailyTotal(daily, daily.Keys, tool), x)
  {
    var rest := daily.Keys - {d};
    assert after.Keys - {d} == rest;
    TotalTake(after, after.Keys, tool, d);
    TotalCongruent(after, daily, rest, tool);
    TotalSplits(daily, d, tool);
    PlusSwaps(Bucket(daily, d, tool), x, DailyTotal(daily, rest, tool));
  }

  lemma TotalSplits(daily: map<string, map<string, Aggregate>>, d: string, tool: string)
    ensures DailyTotal(daily, daily.Keys, tool) == Plus(Bucket(daily, d, tool), DailyTotal(daily, daily.Keys - {d}, tool))
  {
    if d in daily {
      TotalTake(daily, daily.Keys, tool, d);
    } else {
      assert daily.Keys - {d} == daily.Keys;
      TotalHasMax(daily, daily.Keys, tool);
      PlusZero(DailyTotal(daily, daily.Keys, tool));
    }
  }

  lemma TotalUnchanged(daily: map<string, map<string, Aggregate>>, after: map<string, map<string, Aggregate>>, d: string, tool: string)
    requires after.Keys == daily.Keys + {d} && forall o :: o in daily && o != d ==> after[o] == daily[o]
    requires Bucket(after, d, tool) == Bucket(daily, d, tool)
    ensures DailyTotal(after, after.Keys, tool) == DailyTotal(daily, daily.Keys, tool)
  {
    assert after.Keys - {d} == daily.Keys - {d};
    TotalSplits(daily, d, tool);
    TotalSplits(after, d, tool);
    TotalCongruent(after, daily, daily.Keys - {d}, tool);
  }

  lemma BumpTotals(daily: map<string, map<string, Aggregate>>, e: Entry, tool: string)
    ensures var after := BumpedDay(daily, e);
            DailyTotal(after, after.Keys, tool)
            == if tool == e.tool then Plus(DailyTotal(daily, daily.Keys, tool), OneCall(e)) else DailyTotal(daily, daily.Keys, tool)
  {
    if tool == e.tool {
      TotalShifts(daily, BumpedDay(daily, e), e.date, tool, OneCall(e));
    } else {
      TotalUnchanged(daily, BumpedDay(daily, e), e.date, tool);
    }
  }

  lemma RecordConserves(
      aggregates: map<string, Aggregate>, daily: map<string, map<string, Aggregate>>, dropped: map<string, Counts>, e: Entry, tool: string)
    requires Balanced(aggregates, daily, dropped, tool)
    ensures Balanced(Bumped(aggregates, e), BumpedDay(daily, e), dropped, tool)
  {
    var after := BumpedDay(daily, e);
    BumpTotals(daily, e, tool);
    BumpSeen(daily, e, tool);
    PlusSwaps(DailyTotal(daily, daily.Keys, tool), Lost(dropped, tool), OneCall(e));
  }

  lemma NothingConserves()
    ensures Conserved(map[], map[], map[])
  {
    var daily: map<string, map<string, Aggregate>> := map[];
    forall tool ensures Balanced(map[], daily, map[], tool) {
      NoDayIsZero(daily, tool);
    }
  }

  lemma NoDayIsZero(daily: map<string, map<string, Aggregate>>, tool: string)
    requires daily == map[]
    ensures DailyTotal(daily, daily.Keys, tool) == Zero && !Seen(daily, daily.Keys, tool)
  {
    UnseenIsZero(daily, daily.Keys, tool);
  }

  lemma AllRecordsConserve(
      aggregates: map<string, Aggregate>, daily: map<string, map<string, Aggregate>>, dropped: map<string, Counts>, e: Entry)
    requires Conserved(aggregates, daily, dropped)
    ensures Conserved(Bumped(aggregates, e), BumpedDay(daily, e), dropped)
  {
    forall tool ensures Balanced(Bumped(aggregates, e), BumpedDay(daily, e), dropped, tool) {
      RecordConserves(aggregates, daily, dropped, e, tool);
    }
  }

  lemma BumpSeen(daily: map<string, map<string, Aggregate>>, e: Entry, tool: string)
    ensures var after := BumpedDay(daily, e);
            Seen(after, after.Keys, tool) <==> (tool == e.tool || Seen(daily, daily.Keys, tool))
  {
    var after := BumpedDay(daily, e);
    if Seen(daily, daily.Keys, tool) {
      var d :| d in daily.Keys && Has(daily, d, tool);
      assert d in after.Keys && Has(after, d, tool);
    }
    assert e.date in after.Keys && Has(after, e.date, e.tool);
  }

  lemma {:induction false} UnseenIsZero(daily: map<string, map<string, Aggregate>>, dates: set<string>, tool: string)
    requires !Seen(daily, dates, tool)
    ensures DailyTotal(daily, dates, tool) == Zero
    decreases |dates|
  {
    if dates != {} {
      var d :| d in dates;
      TotalTake(daily, dates, tool, d);
      assert !Has(daily, d, tool);
      UnseenIsZero(daily, dates - {d}, tool);
    }
  }

  // ------------------------------------------------------------- pruning

  function Kept(daily: map<string, map<string, Aggregate>>, cutoff: string): map<string, map<string, Aggregate>> {
    map date | date in daily && !Before(date, cutoff) :: daily[date]
  }

  ghost function Drops(daily: map<string, map<string, Aggregate>>, cutoff: string, dropped: map<string, Counts>): map<string, Counts> {
    var doomed := daily.Keys - Kept(daily, cutoff).Keys;
    if doomed == {} then dropped
    else
      map tool | tool in dropped.Keys + (set d, t | d in doomed && t in daily[d] :: t) ::
        Plus(DailyTotal(daily, doomed, tool), Lost(dropped, tool))
  }

  lemma PruneConserves(
      aggregates: map<string, Aggregate>, daily: map<string, map<string, Aggregate>>, dropped: map<string, Counts>, cutoff: string, tool: string)
    requires Balanced(aggregates, daily, dropped, tool)
    ensures Balanced(aggregates, Kept(daily, cutoff), Drops(daily, cutoff, dropped), tool)
  {
    var kept := Kept(daily, cutoff);
    var doomed := daily.Keys - kept.Keys;
    var drops := Drops(daily, cutoff, dropped);
    assert daily.Keys == kept.Keys + doomed;
    if doomed == {} {
      assert kept == daily;
    } else {
      SeenSplit(daily, cutoff, tool);
      assert tool in drops <==> tool in dropped || Seen(daily, doomed, tool);
      TotalUnion(daily, kept.Keys, doomed, tool);
      TotalCongruent(daily, kept, kept.Keys, tool);
      if tool !in drops {
        UnseenIsZero(daily, doomed, tool);
      }
      assert Lost(drops, tool) == Plus(DailyTotal(daily, doomed, tool), Lost(dropped, tool));
      PlusAssociates(DailyTotal(kept, kept.Keys, tool), DailyTotal(daily, doomed, tool), Lost(dropped, tool));
    }
  }

  lemma PruningConserves(
      aggregates: map<string, Aggregate>, daily: map<string, map<string, Aggregate>>, dropped: map<string, Counts>, cutoff: string)
    requires Conserved(aggregates, daily, dropped)
    ensures Conserved(aggregates, Kept(daily, cutoff), Drops(daily, cutoff, dropped))
  {
    forall tool ensures Balanced(aggregates, Kept(daily, cutoff), Drops(daily, cutoff, dropped), tool) {
      PruneConserves(aggregates, daily, dropped, cutoff, tool);
    }
  }

  lemma SeenSplit(daily: map<string, map<string, Aggregate>>, cutoff: string, tool: string)
    ensures var kept := Kept(daily, cutoff);
            Seen(daily, daily.Keys, tool) <==> (Seen(kept, kept.Keys, tool) || Seen(daily, daily.Keys - kept.Keys, tool))
  {
    var kept := Kept(daily, cutoff);
    if Seen(daily, daily.Keys, tool) {
      var d :| d in daily && Has(daily, d, tool);
      assert if d in kept then Has(kept, d, tool) else d in daily.Keys - kept.Keys;
    }
    if Seen(kept, kept.Keys, tool) {
      var d :| d in kept && Has(kept, d, tool);
      assert Has(daily, d, tool);
    }
  }

  // -------------------------------------------------------- name ordering

  // The order of Go's `<` on strings.
  predicate Before(a: string, b: string) {
    if b == "" then false
    else if a == "" then true
    else a[0] < b[0] || (a[0] == b[0] && Before(a[1..], b[1..]))
  }

  lemma {:induction false} BeforeIsTotal(a: string, b: string)
    ensures Before(a, b) <==> a != b && !Before(b, a)
  {
    if a != "" && b != "" {
      BeforeIsTotal(a[1..], b[1..]);
      assert a == [a[0]] + a[1..] && b == [b[0]] + b[1..];
    }
  }

  lemma {:induction false} BeforeIsTransitive(a: string, b: string, c: string)
    requires Before(a, b) && Before(b, c)
    ensures Before(a, c)
  {
    if a != "" && a[0] == b[0] == c[0] {
      BeforeIsTransitive(a[1..], b[1..], c[1..]);
    }
  }

  ghost predicate Increasing(names: seq<string>) {
    forall i, j :: 0 <= i < j < |names| ==> Before(names[i], names[j])
  }

  // A set has one increasing listing.
  lemma {:induction false} OneListing(a: seq<string>, b: seq<string>)
    requires Increasing(a) && Increasing(b)
    requires (set n | n in a) == (set n | n in b)
    ensures a == b
  {
    var s, t := set n | n in a, set n | n in b;
    if a == [] {
      assert forall n :: n in b ==> n in t;
      ListingHasHead(b);
    } else {
      assert a[0] in s;
      assert b != [] && b[0] in t;
      FirstIsLeast(a, b[0]);
      FirstIsLeast(b, a[0]);
      BeforeIsTotal(a[0], b[0]);
      assert a[0] == b[0];
      ListingTail(a);
      ListingTail(b);
      assert (set n | n in a[1..]) == s - {a[0]} == t - {b[0]} == (set n | n in b[1..]);
      OneListing(a[1..], b[1..]);
      assert a == [a[0]] + a[1..] && b == [b[0]] + b[1..];
    }
  }

  lemma ListingHasHead(b: seq<string>)
    ensures |b| > 0 ==> exists n :: n in b
  {
    if |b| > 0 {
      assert b[0] in b;
    }
  }

  lemma FirstIsLeast(a: seq<string>, n: string)
    requires Increasing(a) && n in a
    ensures a[0] == n || Before(a[0], n)
  {
  }

  lemma ListingTail(a: seq<string>)
    requires Increasing(a) && a != []
    ensures Increasing(a[1..]) && (set n | n in a[1..]) == (set n | n in a) - {a[0]}
  {
    forall n ensures n in a[1..] <==> n in a && n != a[0] {
      if n in a[1..] {
        var j :| 0 <= j < |a| - 1 && a[1..][j] == n;
        assert Before(a[0], a[j + 1]);
        BeforeIsTotal(a[0], a[0]);
      }
      if n in a && n != a[0] {
        var j :| 0 <= j < |a| && a[j] == n;
        assert a[1..][j - 1] == n;
      }
    }
  }

  // ------------------------------------------------------------- reports

  ghost function Names(report: seq<ToolSummary>): seq<string> {
    seq(|report|, i requires 0 <= i < |report| => report[i].tool)
  }

  // One line per tool, by name, with the totals and averages of `aggregates`.
  ghost predicate IsReport(report: seq<ToolSummary>, aggregates: map<string, Aggregate>) {
    && Increasing(Names(report))
    && (set n | n in Names(report)) == aggregates.Keys
    && (forall i :: 0 <= i < |report| ==>
          report[i].tool in aggregates && report[i] == ToSummary(report[i].tool, aggregates[report[i].tool]))
  }

  // The same lines, up to the plugin's name.
  ghost predicate SameNumbers(a: seq<ToolSummary>, b: seq<ToolSummary>) {
    |a| == |b| && forall i :: 0 <= i < |a| ==> a[i] == b[i].(plugin := a[i].plugin)
  }

  lemma ReportsAgree(r: seq<ToolSummary>, a: map<string, Aggregate>, s: seq<ToolSummary>, b: map<string, Aggregate>)
    requires IsReport(r, a) && IsReport(s, b)
    requires a.Keys == b.Keys && forall tool :: tool in a ==> a[tool].counts == b[tool].counts
    ensures SameNumbers(r, s)
  {
    OneListing(Names(r), Names(s));
    forall i | 0 <= i < |r| ensures r[i] == s[i].(plugin := r[i].plugin) {
      assert Names(r)[i] == Names(s)[i];
    }
  }

  method InsertByName(report: seq<ToolSummary>, line: ToolSummary) returns (longer: seq<ToolSummary>)
    requires Increasing(Names(report)) && line.tool !in Names(report)
    ensures Increasing(Names(longer))
    ensures exists p :: 0 <= p <= |report| && longer == report[..p] + [line] + report[p..]
  {
    var p := 0;
    while p < |report| && Before(report[p].tool, line.tool)
      invariant 0 <= p <= |report|
      invariant forall i :: 0 <= i < p ==> Before(report[i].tool, line.tool)
    {
      p := p + 1;
    }
    longer := report[..p] + [line] + report[p..];
    InsertedInOrder(report, line, p);
  }

  lemma InsertedInOrder(report: seq<ToolSummary>, line: ToolSummary, p: nat)
    requires Increasing(Names(report)) && line.tool !in Names(report) && p <= |report|
    requires forall i :: 0 <= i < p ==> Before(report[i].tool, line.tool)
    requires p < |report| ==> !Before(report[p].tool, line.tool)
    ensures Increasing(Names(report[..p] + [line] + report[p..]))
  {
    var longer := report[..p] + [line] + report[p..];
    var names := Names(report);
    forall k | p <= k < |report| ensures Before(line.tool, report[k].tool) {
      assert names[p] == report[p].tool && names[k] == report[k].tool;
      BeforeIsTotal(line.tool, report[p].tool);
      if p < k {
        BeforeIsTransitive(line.tool, names[p], names[k]);
      }
    }
    forall i, j | 0 <= i < j < |longer| ensures Before(Names(longer)[i], Names(longer)[j]) {
      if i != p && j != p {
        assert Before(names[if i < p then i else i - 1], names[if j < p then j else j - 1]);
      }
    }
  }

  lemma InsertedNames(report: seq<ToolSummary>, line: ToolSummary, p: nat)
    requires p <= |report|
    ensures (set n | n in Names(report[..p] + [line] + report[p..])) == (set n | n in Names(report)) + {line.tool}
  {
    var longer := report[..p] + [line] + report[p..];
    forall n ensures n in Names(longer) <==> n in Names(report) || n == line.tool {
      if n in Names(report) {
        var i :| 0 <= i < |report| && Names(report)[i] == n;
        assert Names(longer)[if i < p then i else i + 1] == n;
      }
      assert Names(longer)[p] == line.tool;
      if n in Names(longer) {
        var i :| 0 <= i < |longer| && Names(longer)[i] == n;
        if i != p {
          assert Names(report)[if i < p then i else i - 1] == n;
        }
      }
    }
  }

  // The lines of a map of aggregates, sorted by name.
  method Report(aggregates: map<string, Aggregate>) returns (report: seq<ToolSummary>)
    ensures IsReport(report, aggregates)
  {
    report := [];
    var todo := aggregates.Keys;
    while todo != {}
      invariant todo <= aggregates.Keys
      invariant Increasing(Names(report))
      invariant (set n | n in Names(report)) == aggregates.Keys - todo
      invariant forall i :: 0 <= i < |report| ==>
                              report[i].tool in aggregates && report[i] == ToSummary(report[i].tool, aggregates[report[i].tool])
    {
      var name :| name in todo;
      var line := ToSummary(name, aggregates[name]);
      assert name !in (set n | n in Names(report));
      ghost var shorter := report;
      report := InsertByName(report, line);
      ghost var p :| 0 <= p <= |shorter| && report == shorter[..p] + [line] + shorter[p..];
      InsertedNames(shorter, line, p);
      todo := todo - {name};
    }
  }

  // ------------------------------------------------------- merging ranges

  predicate InRange(date: string, since: string, until: string) {
    (since == "" || !Before(date, since)) && (until == "" || !Before(until, date))
  }

  ghost function Dates(keys: set<string>, since: string, until: string): set<string> {
    set date | date in keys && InRange(date, since, until)
  }

  function Summarised(day: map<string, Aggregate>): map<string, ToolSummary> {
    map tool | tool in day :: ToSummary(tool, day[tool])
  }

  function SummarisedDays(daily: map<string, map<string, Aggregate>>): map<string, map<string, ToolSummary>> {
    map date | date in daily :: Summarised(daily[date])
  }

  // A summary read back as an aggregate, with its total duration as it stands.
  function Plain(day: map<string, ToolSummary>): map<string, Aggregate> {
    map tool | tool in day :: Aggregate(day[tool].plugin, day[tool].counts)
  }

  function PlainDays(daily: map<string, map<string, ToolSummary>>): map<string, map<string, Aggregate>> {
    map date | date in daily :: Plain(daily[date])
  }

  lemma PlainUndoesSummarised(daily: map<string, map<string, Aggregate>>)
    ensures PlainDays(SummarisedDays(daily)) == daily
  {
    forall date | date in daily ensures Plain(Summarised(daily[date])) == daily[date] {
    }
  }

  // Merged records: each tool of the range with the total over the range, and
  // the plugin name of one of its buckets there.
  ghost predicate IsMerge(merged: map<string, Aggregate>, daily: map<string, map<string, Aggregate>>, dates: set<string>)
  {
    && (forall tool :: tool in merged <==> Seen(daily, dates, tool))
    && (forall tool :: tool in merged ==> merged[tool].counts == DailyTotal(daily, dates, tool))
    && (forall tool :: tool in merged ==> exists d :: d in dates && Has(daily, d, tool) && daily[d][tool].plugin == merged[tool].plugin)
  }

  // The report of the merge of a range.
  ghost predicate IsRangeReport(report: seq<ToolSummary>, daily: map<string, map<string, Aggregate>>, since: string, until: string) {
    exists merged :: IsMerge(merged, daily, Dates(daily.Keys, since, until)) && IsReport(report, merged)
  }

  method Add(to: Counts, x: Counts) returns (c: Counts)
    ensures c == Plus(to, x)
  {
    c := to;
    c := c.(calls := c.calls + x.calls);
    c := c.(errors := c.errors + x.errors);
    c := c.(inTokens := c.inTokens + x.inTokens);
    c := c.(outTokens := c.outTokens + x.outTokens);
    c := c.(duration := c.duration + x.duration);
    if x.maxOut > c.maxOut {
      c := c.(maxOut := x.maxOut);
    }
  }

  method MergeDay(merged: map<string, Aggregate>, day: map<string, ToolSummary>) returns (more: map<string, Aggregate>)
    ensures more.Keys == merged.Keys + day.Keys
    ensures forall tool :: tool in more ==>
              more[tool].counts == if tool in day then Plus(CountsIn(merged, tool), day[tool].counts) else merged[tool].counts
    ensures forall tool :: tool in more ==>
              more[tool].plugin == if tool in merged then merged[tool].plugin else day[tool].plugin
  {
    more := merged;
    var todo := day.Keys;
    while todo != {}
      invariant todo <= day.Keys
      invariant more.Keys == merged.Keys + (day.Keys - todo)
      invariant forall tool :: tool in more ==>
                  more[tool].counts == if tool in day && tool !in todo then Plus(CountsIn(merged, tool), day[tool].counts) else merged[tool].counts
      invariant forall tool :: tool in more ==>
                  more[tool].plugin == if tool in merged then merged[tool].plugin else day[tool].plugin
    {
      var tool :| tool in todo;
      var s := day[tool];
      var m := if tool in more then more[tool] else Aggregate(s.plugin, Zero);
      var c := Add(m.counts, s.counts);
      more := more[tool := m.(counts := c)];
      todo := todo - {tool};
    }
  }

  lemma MergeStep(merged: map<string, Aggregate>, more: map<string, Aggregate>, daily: map<string, map<string, Aggregate>>, dates: set<string>, d: string)
    requires dates <= daily.Keys && d in daily && d !in dates && IsMerge(merged, daily, dates)
    requires more.Keys == merged.Keys + daily[d].Keys
    requires forall tool :: tool in more ==>
               more[tool].counts == if tool in daily[d] then Plus(CountsIn(merged, tool), daily[d][tool].counts) else merged[tool].counts
    requires forall tool :: tool in more ==>
               more[tool].plugin == if tool in merged then merged[tool].plugin else daily[d][tool].plugin
    ensures IsMerge(more, daily, dates + {d})
  {
    forall tool ensures Seen(daily, dates + {d}, tool) <==> Seen(daily, dates, tool) || tool in daily[d] {
      if Seen(daily, dates, tool) {
        var e :| e in dates && Has(daily, e, tool);
        assert e in dates + {d};
      }
      assert d in dates + {d} && (tool in daily[d] ==> Has(daily, d, tool));
    }
    forall tool | tool in more ensures more[tool].counts == DailyTotal(daily, dates + {d}, tool) {
      TotalTake(daily, dates + {d}, tool, d);
      assert (dates + {d}) - {d} == dates;
      if tool !in merged {
        UnseenIsZero(daily, dates, tool);
      }
      TotalHasMax(daily, dates, tool);
      PlusZero(DailyTotal(daily, dates, tool));
      PlusCommutes(Bucket(daily, d, tool), DailyTotal(daily, dates, tool));
    }
    forall tool | tool in more
      ensures exists e :: e in dates + {d} && Has(daily, e, tool) && daily[e][tool].plugin == more[tool].plugin
    {
      if tool in merged {
        var e :| e in dates && Has(daily, e, tool) && daily[e][tool].plugin == merged[tool].plugin;
        assert e in dates + {d};
      } else {
        assert d in dates + {d} && Has(daily, d, tool);
      }
    }
  }

  // The report over a range of dates is the report of its merge.
  method AggregateDailyRange(daily: map<string, map<string, ToolSummary>>, since: string, until: string)
    returns (report: seq<ToolSummary>)
    ensures IsRangeReport(report, PlainDays(daily), since, until)
  {
    var running: map<string, Aggregate> := map[];
    var todo := daily.Keys;
    ghost var plain := PlainDays(daily);
    ghost var dates := Dates(daily.Keys, since, until);
    while todo != {}
      invariant todo <= daily.Keys
      invariant IsMerge(running, plain, dates - todo)
    {
      var date :| date in todo;
      if InRange(date, since, until) {
        ghost var before := running;
        running := MergeDay(running, daily[date]);
        MergeStep(before, running, plain, dates - todo, date);
        assert dates - (todo - {date}) == (dates - todo) + {date};
      } else {
        assert dates - (todo - {date}) == dates - todo;
      }
      todo := todo - {date};
    }
    assert dates - todo == dates;
    report := Report(running);
    assert plain.Keys == daily.Keys;
  }

  // When the dates of `daily` split at a cut, the totals of the two ranges add
  // up to those of the whole.
  lemma AdjacentRangesAdd(daily: map<string, map<string, Aggregate>>, since: string, mid: string, next: string, until: string, tool: string)
    requires mid != "" && Before(mid, next)
    requires forall d :: d in daily ==> !(Before(mid, d) && Before(d, next))
    requires since == "" || !Before(next, since)
    requires until == "" || !Before(until, mid)
    ensures DailyTotal(daily, Dates(daily.Keys, since, until), tool)
            == Plus(DailyTotal(daily, Dates(daily.Keys, since, mid), tool), DailyTotal(daily, Dates(daily.Keys, next, until), tool))
  {
    var left, right := Dates(daily.Keys, since, mid), Dates(daily.Keys, next, until);
    forall d | d in daily ensures d in Dates(daily.Keys, since, until) <==> (d in left || d in right)
    {
      CutSplits(d, since, mid, next, until);
    }
    forall d | d in left ensures d !in right {
      CutSplits(d, since, mid, next, until);
    }
    assert Dates(daily.Keys, since, until) == left + right;
    TotalUnion(daily, left, right, tool);
  }

  lemma CutSplits(d: string, since: string, mid: string, next: string, until: string)
    requires mid != "" && Before(mid, next) && !(Before(mid, d) && Before(d, next))
    requires since == "" || !Before(next, since)
    requires until == "" || !Before(until, mid)
    ensures InRange(d, since, until) <==> (InRange(d, since, mid) || InRange(d, next, until))
    ensures !(InRange(d, since, mid) && InRange(d, next, until))
  {
    BeforeIsTotal(mid, d);
    BeforeIsTotal(d, next);
    BeforeIsTotal(mid, until);
    BeforeIsTotal(since, next);
    BeforeIsTotal(until, d);
    BeforeIsTotal(d, since);
    if Before(until, d) && until != "" && Before(mid, until) {
      BeforeIsTransitive(mid, until, d);
    }
    if Before(d, since) && Before(since, next) {
      BeforeIsTransitive(d, since, next);
    }
    if Before(mid, d) == false && d != mid {
      BeforeIsTransitive(d, mid, next);
    }
  }

  // ------------------------------------------------------------ collector

  // What the ring buffer holds after `history`: its last calls, each in the
  // slot of its number.
  ghost predicate RingHolds(slots: seq<Entry>, history: seq<Entry>)
    requires |slots| == MaxEntries
  {
    forall i :: 0 <= i < |history| && |history| - MaxEntries <= i ==> slots[i % MaxEntries] == history[i]
  }

  lemma RingAppend(slots: seq<Entry>, history: seq<Entry>, e: Entry)
    requires |slots| == MaxEntries && RingHolds(slots, history)
    ensures RingHolds(slots[|history| % MaxEntries := e], history + [e])
  {
    var n := |history|;
    var after := slots[n % MaxEntries := e];
    forall i | 0 <= i <= n && n + 1 - MaxEntries <= i ensures after[i % MaxEntries] == (history + [e])[i] {
      if i < n && i % MaxEntries == n % MaxEntries {
        SlotsDiffer(i, n);
      }
    }
  }

  lemma SlotsDiffer(i: nat, n: nat)
    requires i < n < i + MaxEntries
    ensures i % MaxEntries != n % MaxEntries
  {
  }

  class Collector {
    var closed: bool
    const entries: array<Entry>
    var head: nat
    var full: bool
    var aggregates: map<string, Aggregate>
    var daily: map<string, map<string, Aggregate>>
    var persisted: bool
    var retentionDays: int
    // Calls recorded since construction, and what pruning has dropped.
    ghost var history: seq<Entry>
    ghost var dropped: map<string, Counts>

    ghost predicate RingValid() reads this, entries {
      && entries.Length == MaxEntries
      && head == |history| % MaxEntries
      && full == (|history| >= MaxEntries)
      && RingHolds(entries[..], history)
    }

    ghost predicate Valid() reads this, entries {
      RingValid() && Conserved(aggregates, daily, dropped)
    }

    constructor (persisted: bool)
      ensures Valid() && fresh(entries) && !closed && this.persisted == persisted && retentionDays == 0
      ensures aggregates == map[] && daily == map[] && dropped == map[] && history == []
    {
      closed, head, full, retentionDays := false, 0, false, 0;
      this.persisted := persisted;
      entries := new Entry[MaxEntries](_ => Entry("", "", "", 0, 0, 0, false));
      aggregates, daily, dropped, history := map[], map[], map[], [];
      NothingConserves();
    }

    // The ring buffer step of Record.
    method Remember(e: Entry)
      requires RingValid()
      modifies this`head, this`full, this`history, entries
      ensures RingValid() && history == old(history) + [e]
    {
      RingAppend(entries[..], history, e);
      ghost var slots := entries[..];
      entries[head] := e;
      assert entries[..] == slots[head := e];
      head := (head + 1) % MaxEntries;
      if head == 0 {
        full := true;
      }
      history := history + [e];
    }

    method Record(e: Entry)
      requires Valid()
      modifies this`head, this`full, this`aggregates, this`daily, this`history, entries
      ensures Valid()
      ensures closed ==> aggregates == old(aggregates) && daily == old(daily) && history == old(history)
      ensures !closed ==> aggregates == Bumped(old(aggregates), e) && daily == BumpedDay(old(daily), e)
      ensures !closed ==> history == old(history) + [e]
    {
      if closed {
        return;
      }
      Remember(e);
      AllRecordsConserve(aggregates, daily, dropped, e);
      var agg := Bump(if e.tool in aggregates then aggregates[e.tool] else Aggregate(e.plugin, Zero), e);
      aggregates := aggregates[e.tool := agg];
      var day := if e.date in daily then daily[e.date] else map[];
      var dayAgg := Bump(if e.tool in day then day[e.tool] else Aggregate(e.plugin, Zero), e);
      daily := daily[e.date := day[e.tool := dayAgg]];
    }

    // Old buckets go; the totals keep what they counted.
    method Prune(cutoff: string)
      requires Valid()
      modifies this`daily, this`dropped
      ensures Valid()
      ensures daily == if retentionDays <= 0 then old(daily) else Kept(old(daily), cutoff)
      ensures dropped == if retentionDays <= 0 then old(dropped) else Drops(old(daily), cutoff, old(dropped))
    {
      if retentionDays <= 0 {
        return;
      }
      PruningConserves(aggregates, daily, dropped, cutoff);
      ghost var before := daily;
      dropped := Drops(daily, cutoff, dropped);
      var todo := daily.Keys;
      while todo != {}
        invariant todo <= before.Keys && dropped == Drops(before, cutoff, old(dropped))
        invariant daily.Keys == Kept(before, cutoff).Keys + todo
        invariant forall d :: d in daily ==> daily[d] == before[d]
      {
        var date :| date in todo;
        if Before(date, cutoff) {
          daily := daily - {date};
        }
        todo := todo - {date};
      }
      assert daily == Kept(before, cutoff);
    }

    // Saving writes the summaries of what is left after pruning.
    method Save(cutoff: string) returns (snapshot: Option<Snapshot>)
      requires Valid()
      modifies this`daily, this`dropped
      ensures Valid()
      ensures persisted && retentionDays > 0 ==> daily == Kept(old(daily), cutoff) && dropped == Drops(old(daily), cutoff, old(dropped))
      ensures !persisted || retentionDays <= 0 ==> daily == old(daily) && dropped == old(dropped)
      ensures snapshot == if persisted then Some(Snapshot(Summarised(aggregates), SummarisedDays(daily))) else None
    {
      if !persisted {
        return None;
      }
      Prune(cutoff);
      var totals := SummariseDay(aggregates);
      var days := SummariseDays(daily);
      return Some(Snapshot(totals, days));
    }

    // Loading lays the snapshot over what is there. `lost` is what the saved
    // collector had dropped.
    method Load(snapshot: Snapshot, ghost lost: map<string, Counts>)
      requires RingValid()
      modifies this`aggregates, this`daily, this`dropped
      ensures RingValid()
      ensures aggregates == old(aggregates) + RestoredDay(snapshot.aggregates)
      ensures daily == old(daily) + RestoredDays(snapshot.daily)
      ensures dropped == lost
    {
      var totals := RestoreDay(snapshot.aggregates);
      aggregates := aggregates + totals;
      daily := OverlayDays(daily, snapshot.daily);
      dropped := lost;
    }

    method Summary() returns (report: seq<ToolSummary>)
      ensures IsReport(report, aggregates)
    {
      report := Report(aggregates);
    }

    // Unbounded, the range report says what the summary says, as long as
    // nothing has been pruned.
    method SummaryForRange(since: string, until: string) returns (report: seq<ToolSummary>)
      requires Valid()
      ensures IsRangeReport(report, daily, since, until)
      ensures since == until == "" && dropped == map[] ==> AgreesWithSummary(report, aggregates)
    {
      var days := SummariseDays(daily);
      PlainUndoesSummarised(daily);
      report := AggregateDailyRange(days, since, until);
      if since == until == "" && dropped == map[] {
        assert Dates(daily.Keys, since, until) == daily.Keys;
        ghost var merged :| IsMerge(merged, daily, daily.Keys) && IsReport(report, merged);
        WholeReport(report, merged, aggregates, daily);
      }
    }
  }

  // The summary's lines, up to the plugin's name.
  ghost predicate AgreesWithSummary(report: seq<ToolSummary>, aggregates: map<string, Aggregate>) {
    forall summary :: IsReport(summary, aggregates) ==> SameNumbers(report, summary)
  }

  lemma WholeReport(report: seq<ToolSummary>, merged: map<string, Aggregate>, aggregates: map<string, Aggregate>, daily: map<string, map<string, Aggregate>>)
    requires Conserved(aggregates, daily, map[]) && IsMerge(merged, daily, daily.Keys) && IsReport(report, merged)
    ensures AgreesWithSummary(report, aggregates)
  {
    WholeMergeIsTotal(merged, aggregates, daily);
    forall summary | IsReport(summary, aggregates) ensures SameNumbers(report, summary) {
      ReportsAgree(report, merged, summary, aggregates);
    }
  }

  lemma WholeMergeIsTotal(merged: map<string, Aggregate>, aggregates: map<string, Aggregate>, daily: map<string, map<string, Aggregate>>)
    requires Conserved(aggregates, daily, map[]) && IsMerge(merged, daily, daily.Keys)
    ensures merged.Keys == aggregates.Keys
    ensures forall tool :: tool in merged ==> merged[tool].counts == aggregates[tool].counts
  {
    forall tool
      ensures tool in merged <==> tool in aggregates
      ensures tool in merged ==> merged[tool].counts == aggregates[tool].counts
    {
      assert Balanced(aggregates, daily, map[], tool);
      TotalHasMax(daily, daily.Keys, tool);
      PlusZero(DailyTotal(daily, daily.Keys, tool));
    }
  }

  method Bump(a: Aggregate, e: Entry) returns (b: Aggregate)
    ensures b == Aggregate(a.plugin, Plus(a.counts, OneCall(e)))
  {
    var c := a.counts;
    c := c.(calls := c.calls + 1);
    if e.isError {
      c := c.(errors := c.errors + 1);
    }
    c := c.(inTokens := c.inTokens + e.inTokens);
    c := c.(outTokens := c.outTokens + e.outTokens);
    c := c.(duration := c.duration + e.duration);
    if e.outTokens > c.maxOut {
      c := c.(maxOut := e.outTokens);
    }
    b := a.(counts := c);
  }

  method SummariseDay(day: map<string, Aggregate>) returns (s: map<string, ToolSummary>)
    ensures s == Summarised(day)
  {
    s := map[];
    var todo := day.Keys;
    while todo != {}
      invariant todo <= day.Keys && s.Keys == day.Keys - todo
      invariant forall t :: t in s ==> s[t] == ToSummary(t, day[t])
    {
      var name :| name in todo;
      s := s[name := ToSummary(name, day[name])];
      todo := todo - {name};
    }
  }

  method SummariseDays(daily: map<string, map<string, Aggregate>>) returns (days: map<string, map<string, ToolSummary>>)
    ensures days == SummarisedDays(daily)
  {
    days := map[];
    var todo := daily.Keys;
    while todo != {}
      invariant todo <= daily.Keys && days.Keys == daily.Keys - todo
      invariant forall d :: d in days ==> days[d] == Summarised(daily[d])
    {
      var date :| date in todo;
      var day := SummariseDay(daily[date]);
      days := days[date := day];
      todo := todo - {date};
    }
  }

  function RestoredDay(day: map<string, ToolSummary>): map<string, Aggregate> {
    map tool | tool in day :: Restored(day[tool])
  }

  function RestoredDays(daily: map<string, map<string, ToolSummary>>): map<string, map<string, Aggregate>> {
    map date | date in daily :: RestoredDay(daily[date])
  }

  method RestoreDay(day: map<string, ToolSummary>) returns (aggs: map<string, Aggregate>)
    ensures aggs == RestoredDay(day)
  {
    aggs := map[];
    var todo := day.Keys;
    while todo != {}
      invariant todo <= day.Keys && aggs.Keys == day.Keys - todo
      invariant forall t :: t in aggs ==> aggs[t] == Restored(day[t])
    {
      var name :| name in todo;
      aggs := aggs[name := Restored(day[name])];
      todo := todo - {name};
    }
  }

  method OverlayDays(base: map<string, map<string, Aggregate>>, saved: map<string, map<string, ToolSummary>>)
    returns (days: map<string, map<string, Aggregate>>)
    ensures days == base + RestoredDays(saved)
  {
    days := base;
    ghost var restored := RestoredDays(saved);
    var todo := saved.Keys;
    while todo != {}
      invariant todo <= saved.Keys && days.Keys == base.Keys + (saved.Keys - todo)
      invariant forall d :: d in days ==> days[d] == if d in restored && d !in todo then restored[d] else base[d]
    {
      var date :| date in todo;
      var day := RestoreDay(saved[date]);
      days := days[date := day];
      todo := todo - {date};
    }
    assert days == base + restored;
  }

  // Saving and loading lose nothing.
  lemma RestoreUndoesSave(aggregates: map<string, Aggregate>, daily: map<string, map<string, Aggregate>>)
    ensures RestoredDay(Summarised(aggregates)) == aggregates
    ensures RestoredDays(SummarisedDays(daily)) == daily
  {
    RestoreDayUndoes(aggregates);
    forall date | date in daily ensures RestoredDay(Summarised(daily[date])) == daily[date] {
      RestoreDayUndoes(daily[date]);
    }
  }

  lemma RestoreDayUndoes(day: map<string, Aggregate>)
    ensures RestoredDay(Summarised(day)) == day
  {
    forall tool | tool in day ensures Restored(ToSummary(tool, day[tool])) == day[tool] {
      RestoreUndoesSummary(tool, day[tool]);
    }
  }

  // ----------------------------------------------------------------- runs

  datatype Event = Call(entry: Entry) | SaveAndRestart

  // The calls of one tool on one date, straight from the run.
  ghost function CalledOn(run: seq<Event>, date: string, tool: string): Counts {
    if run == [] then Zero
    else
      var init, last := CalledOn(run[..|run| - 1], date, tool), run[|run| - 1];
      if last.Call? && last.entry.date == date && last.entry.tool == tool then Plus(init, OneCall(last.entry)) else init
  }

  ghost function Called(run: seq<Event>, tool: string): Counts {
    if run == [] then Zero
    else
      var init, last := Called(run[..|run| - 1], tool), run[|run| - 1];
      if last.Call? && last.entry.tool == tool then Plus(init, OneCall(last.entry)) else init
  }

  ghost predicate IsCalled(run: seq<Event>, tool: string) {
    exists i :: 0 <= i < |run| && run[i].Call? && run[i].entry.tool == tool
  }

  // The state agrees with a run, and its buckets sum to its totals.
  ghost predicate AgreesOn(aggregates: map<string, Aggregate>, daily: map<string, map<string, Aggregate>>, run: seq<Event>, tool: string) {
    && (tool in aggregates <==> IsCalled(run, tool))
    && CountsIn(aggregates, tool) == Called(run, tool) == DailyTotal(daily, daily.Keys, tool)
    && (forall date :: Bucket(daily, date, tool) == CalledOn(run, date, tool))
  }

  ghost predicate Agrees(aggregates: map<string, Aggregate>, daily: map<string, map<string, Aggregate>>, run: seq<Event>) {
    forall tool :: AgreesOn(aggregates, daily, run, tool)
  }

  // The state after a run: a restart changes nothing.
  function TotalsAfter(run: seq<Event>): map<string, Aggregate> {
    if run == [] then map[]
    else
      var before, last := TotalsAfter(run[..|run| - 1]), run[|run| - 1];
      if last.Call? then Bumped(before, last.entry) else before
  }

  function DaysAfter(run: seq<Event>): map<string, map<string, Aggregate>> {
    if run == [] then map[]
    else
      var before, last := DaysAfter(run[..|run| - 1]), run[|run| - 1];
      if last.Call? then BumpedDay(before, last.entry) else before
  }

  // After any run every total and every bucket is what the calls of that tool
  // and date add up to, and the buckets of a tool sum to its total.
  lemma {:induction false} RunConserves(run: seq<Event>)
    ensures Agrees(TotalsAfter(run), DaysAfter(run), run)
  {
    if run == [] {
      forall tool ensures AgreesOn(map[], map[], [], tool) {
        NoDayIsZero(map[], tool);
      }
    } else {
      var init, last := run[..|run| - 1], run[|run| - 1];
      RunConserves(init);
      assert run == init + [last];
      forall tool ensures AgreesOn(TotalsAfter(run), DaysAfter(run), run, tool) {
        assert AgreesOn(TotalsAfter(init), DaysAfter(init), init, tool);
        match last
        case Call(e) => CallAgrees(TotalsAfter(init), DaysAfter(init), init, e, tool);
        case SaveAndRestart => RestartAgrees(TotalsAfter(init), DaysAfter(init), init, tool);
      }
    }
  }

  lemma CallAgrees(aggregates: map<string, Aggregate>, daily: map<string, map<string, Aggregate>>, run: seq<Event>, e: Entry, tool: string)
    requires AgreesOn(aggregates, daily, run, tool)
    ensures AgreesOn(Bumped(aggregates, e), BumpedDay(daily, e), run + [Call(e)], tool)
  {
    var longer := run + [Call(e)];
    assert longer[..|run|] == run;
    BumpTotals(daily, e, tool);
    CallIsCalled(run, e, tool);
  }

  lemma CallIsCalled(run: seq<Event>, e: Entry, tool: string)
    ensures IsCalled(run + [Call(e)], tool) <==> IsCalled(run, tool) || tool == e.tool
  {
    var longer := run + [Call(e)];
    if IsCalled(run, tool) {
      var i :| 0 <= i < |run| && run[i].Call? && run[i].entry.tool == tool;
      assert longer[i].Call? && longer[i].entry.tool == tool;
    }
    assert longer[|run|].Call? && longer[|run|].entry.tool == e.tool;
  }

  lemma RestartAgrees(aggregates: map<string, Aggregate>, daily: map<string, map<string, Aggregate>>, run: seq<Event>, tool: string)
    requires AgreesOn(aggregates, daily, run, tool)
    ensures AgreesOn(aggregates, daily, run + [SaveAndRestart], tool)
  {
    var longer := run + [SaveAndRestart];
    assert longer[..|run|] == run;
    if IsCalled(run, tool) {
      var i :| 0 <= i < |run| && run[i].Call? && run[i].entry.tool == tool;
      assert longer[i].Call? && longer[i].entry.tool == tool;
    }
  }

  // A process ends with a save, the next one begins with a load.
  method Restart(c: Collector, cutoff: string) returns (d: Collector)
    requires c.Valid() && c.persisted && c.retentionDays <= 0
    modifies c
    ensures d.Valid() && fresh(d) && fresh(d.entries) && d.persisted && !d.closed && d.retentionDays == 0
    ensures d.aggregates == old(c.aggregates) && d.daily == old(c.daily) && d.dropped == old(c.dropped)
  {
    ghost var totals, days, lost := c.aggregates, c.daily, c.dropped;
    var snapshot := c.Save(cutoff);
    RestoreUndoesSave(totals, days);
    d := new Collector(true);
    d.Load(snapshot.value, lost);
    assert d.aggregates == totals && d.daily == days;
  }

  // From an empty collector with retention off, after any calls, saves and
  // restarts, the collector holds the totals and buckets of the run.
  method Run(run: seq<Event>, cutoff: string) returns (c: Collector)
    ensures c.Valid() && c.dropped == map[]
    ensures c.aggregates == TotalsAfter(run) && c.daily == DaysAfter(run)
    ensures Agrees(c.aggregates, c.daily, run)
  {
    c := new Collector(true);
    for i := 0 to |run|
      invariant c.Valid() && fresh(c) && fresh(c.entries) && c.persisted && !c.closed && c.retentionDays == 0
      invariant c.dropped == map[]
      invariant c.aggregates == TotalsAfter(run[..i]) && c.daily == DaysAfter(run[..i])
    {
      assert run[..i + 1][..i] == run[..i];
      match run[i]
      case Call(e) => c.Record(e);
      case SaveAndRestart => c := Restart(c, cutoff);
    }
    assert run[..|run|] == run;
    RunConserves(run);
  }
}
