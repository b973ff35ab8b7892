/**
  What the reported figures are, counted straight from the recorded calls
  (internal/stats/stats.go).
 */
module Figures {
  import opened Stats

  // The calls of a tool in a run, of all dates or of one.
  function CallsOf(run: seq<Event>, tool: string): seq<Entry> {
    if run == [] then []
    else
      var init, last := CallsOf(run[..|run| - 1], tool), run[|run| - 1];
      if last.Call? && last.entry.tool == tool then init + [last.entry] else init
  }

  function OnDate(calls: seq<Entry>, date: string): seq<Entry> {
    if calls == [] then []
    else OnDate(calls[..|calls| - 1], date) + if calls[|calls| - 1].date == date then [calls[|calls| - 1]] else []
  }

  function Failing(calls: seq<Entry>): seq<Entry> {
    if calls == [] then []
    else Failing(calls[..|calls| - 1]) + if calls[|calls| - 1].isError then [calls[|calls| - 1]] else []
  }

  function Sum(calls: seq<Entry>, part: Entry -> int): int {
    if calls == [] then 0 else Sum(calls[..|calls| - 1], part) + part(calls[|calls| - 1])
  }

  // The figures of a list of calls: how many, how many failed, the sums of
  // their tokens and durations, and the largest output.
  ghost predicate AreFigures(c: Counts, calls: seq<Entry>) {
    && c.calls == |calls| && c.errors == |Failing(calls)|
    && c.inTokens == Sum(calls, (e: Entry) => e.inTokens)
    && c.outTokens == Sum(calls, (e: Entry) => e.outTokens)
    && c.duration == Sum(calls, (e: Entry) => e.duration)
    && IsLargest(c.maxOut, calls)
  }

  // At least zero and every output, and one of these.
  ghost predicate IsLargest(m: int, calls: seq<Entry>) {
    && m >= 0 && (forall i :: 0 <= i < |calls| ==> calls[i].outTokens <= m)
    && (m == 0 || exists i :: 0 <= i < |calls| && calls[i].outTokens == m)
  }

  lemma OneMoreCall(c: Counts, calls: seq<Entry>, e: Entry)
    requires AreFigures(c, calls)
    ensures AreFigures(Plus(c, OneCall(e)), calls + [e])
  {
    var longer, m := calls + [e], Plus(c, OneCall(e)).maxOut;
    assert longer[..|calls|] == calls && longer[|calls|] == e;
    if m != 0 && m == c.maxOut {
      var i :| 0 <= i < |calls| && calls[i].outTokens == m;
      assert longer[i].outTokens == m;
    }
  }

  // The totals of a run are the figures of the tool's calls.
  lemma {:induction false} CalledAreFigures(run: seq<Event>, tool: string)
    ensures AreFigures(Called(run, tool), CallsOf(run, tool))
  {
    if run != [] {
      var init, last := run[..|run| - 1], run[|run| - 1];
      CalledAreFigures(init, tool);
      if last.Call? && last.entry.tool == tool {
        OneMoreCall(Called(init, tool), CallsOf(init, tool), last.entry);
      }
    }
  }

  lemma {:induction false} CalledOnAreFigures(run: seq<Event>, date: string, tool: string)
    ensures AreFigures(CalledOn(run, date, tool), OnDate(CallsOf(run, tool), date))
  {
    if run != [] {
      var init, last := run[..|run| - 1], run[|run| - 1];
      CalledOnAreFigures(init, date, tool);
      if last.Call? && last.entry.tool == tool {
        var calls := CallsOf(init, tool);
        OnDateAppend(calls, last.entry, date);
        if last.entry.date == date {
          OneMoreCall(CalledOn(init, date, tool), OnDate(calls, date), last.entry);
        }
      }
    }
  }

  lemma OnDateAppend(calls: seq<Entry>, e: Entry, date: string)
    ensures OnDate(calls + [e], date) == if e.date == date then OnDate(calls, date) + [e] else OnDate(calls, date)
  {
    assert (calls + [e])[..|calls|] == calls;
  }

  // So after any run each total and each bucket holds the figures of the calls
  // it stands for.
  lemma RunFigures(run: seq<Event>, tool: string)
    ensures AreFigures(CountsIn(TotalsAfter(run), tool), CallsOf(run, tool))
    ensures forall date :: AreFigures(Bucket(DaysAfter(run), date, tool), OnDate(CallsOf(run, tool), date))
  {
    RunConserves(run);
    assert AgreesOn(TotalsAfter(run), DaysAfter(run), run, tool);
    CalledAreFigures(run, tool);
    forall date ensures AreFigures(Bucket(DaysAfter(run), date, tool), OnDate(CallsOf(run, tool), date)) {
      CalledOnAreFigures(run, date, tool);
    }
  }

  // A total names the plugin of the tool's first call, a bucket that of its
  // first call of the day.
  ghost predicate NamesFirst(m: map<string, Aggregate>, tool: string, calls: seq<Entry>) {
    (tool in m <==> calls != []) && (calls != [] ==> m[tool].plugin == calls[0].plugin)
  }

  lemma BumpNamesFirst(m: map<string, Aggregate>, tool: string, calls: seq<Entry>, e: Entry)
    requires NamesFirst(m, tool, calls)
    ensures NamesFirst(Bumped(m, e), tool, if e.tool == tool then calls + [e] else calls)
  {
    FirstStaysFirst(calls, e);
  }

  lemma {:induction false} RunNamesFirst(run: seq<Event>, tool: string)
    ensures NamesFirst(TotalsAfter(run), tool, CallsOf(run, tool))
  {
    if run != [] {
      var init, last := run[..|run| - 1], run[|run| - 1];
      RunNamesFirst(init, tool);
      if last.Call? {
        BumpNamesFirst(TotalsAfter(init), tool, CallsOf(init, tool), last.entry);
      }
    }
  }

  function DayOf(daily: map<string, map<string, Aggregate>>, date: string): map<string, Aggregate> {
    if date in daily then daily[date] else map[]
  }

  lemma {:induction false} DaysNameFirst(run: seq<Event>, tool: string, date: string)
    ensures NamesFirst(DayOf(DaysAfter(run), date), tool, OnDate(CallsOf(run, tool), date))
  {
    if run != [] {
      var init, last := run[..|run| - 1], run[|run| - 1];
      DaysNameFirst(init, tool, date);
      if last.Call? {
        OnDateAppend(CallsOf(init, tool), last.entry, date);
        BumpNamesFirst(DayOf(DaysAfter(init), date), tool, OnDate(CallsOf(init, tool), date), last.entry);
      }
    }
  }

  lemma FirstStaysFirst(calls: seq<Entry>, e: Entry)
    ensures (calls + [e])[0] == if calls == [] then e else calls[0]
  {
  }

  // The quotient of a total, rounded toward zero.
  ghost predicate IsAverage(avg: int, total: int, calls: int) {
    if total >= 0 then avg * calls <= total < (avg + 1) * calls else (avg - 1) * calls < total <= avg * calls
  }

  lemma QuotientIsAverage(total: int, calls: int)
    requires calls > 0
    ensures IsAverage(Quotient(total, calls), total, calls)
  {
    var t := if total >= 0 then total else -total;
    var q, r := t / calls, t % calls;
    assert t == q * calls + r && 0 <= r < calls;
    assert (q + 1) * calls == q * calls + calls;
    if total < 0 {
      assert (-q - 1) * calls == -(q * calls) - calls && (-q) * calls == -(q * calls);
    }
  }

  // Each average of a line is the truncated quotient of its own total; a tool
  // that was never called has none.
  lemma AveragesOfLine(tool: string, a: Aggregate)
    ensures var s := ToSummary(tool, a);
            && s.tool == tool && s.plugin == a.plugin && s.counts == a.counts
            && (a.counts.calls > 0 ==>
                  && IsAverage(s.avgIn, a.counts.inTokens, a.counts.calls)
                  && IsAverage(s.avgOut, a.counts.outTokens, a.counts.calls)
                  && IsAverage(s.avgDuration, a.counts.duration, a.counts.calls))
            && (a.counts.calls <= 0 ==> s.avgIn == s.avgOut == s.avgDuration == 0)
  {
    if a.counts.calls > 0 {
      QuotientIsAverage(a.counts.inTokens, a.counts.calls);
      QuotientIsAverage(a.counts.outTokens, a.counts.calls);
      QuotientIsAverage(a.counts.duration, a.counts.calls);
    }
  }
}
