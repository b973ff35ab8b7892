/**
  The sliding-window limit on automatic restarts (restartAllowed,
  recordRestart and pruneRestarts of internal/plugin/dispatch.go).
 */
module Restart {
  const MaxRestartsPerWindow: nat := 3
  // One minute in nanoseconds.
  const RestartWindow: int := 60_000_000_000

  function Recent(times: seq<int>, cutoff: int): nat {
    if times == [] then 0
    else Recent(times[..|times| - 1], cutoff) + if times[|times| - 1] > cutoff then 1 else 0
  }

  function Pruned(times: seq<int>, cutoff: int): seq<int> {
    if times == [] then []
    else Pruned(times[..|times| - 1], cutoff) + if times[|times| - 1] > cutoff then [times[|times| - 1]] else []
  }

  ghost predicate Ordered(times: seq<int>) {
    forall i, j :: 0 <= i < j < |times| ==> times[i] <= times[j]
  }

  // Any gap + 1 successive restarts span at least the window.
  ghost predicate SpacedBy(times: seq<int>, gap: nat) {
    forall i :: 0 <= i && i + gap < |times| ==> times[i + gap] - times[i] >= RestartWindow
  }

  // Any four successive restarts do.
  ghost predicate Spaced(times: seq<int>) {
    SpacedBy(times, MaxRestartsPerWindow)
  }

  lemma {:induction false} RecentAppend(times: seq<int>, t: int, cutoff: int)
    ensures Recent(times + [t], cutoff) == Recent(times, cutoff) + if t > cutoff then 1 else 0
  {
    assert (times + [t])[..|times|] == times;
  }

  // What was pruned at one cutoff does not count at a later one.
  lemma {:induction false} PruningKeepsRecent(times: seq<int>, cutoff: int, later: int)
    requires cutoff <= later
    ensures Recent(Pruned(times, cutoff), later) == Recent(times, later)
  {
    if times != [] {
      var init, t := times[..|times| - 1], times[|times| - 1];
      PruningKeepsRecent(init, cutoff, later);
      if t > cutoff {
        RecentAppend(Pruned(init, cutoff), t, later);
      } else {
        assert Pruned(times, cutoff) == Pruned(init, cutoff);
      }
    }
  }

  // In order, if the k-th latest counts then so do all after it.
  lemma {:induction false} LatestCount(times: seq<int>, k: nat, cutoff: int)
    requires Ordered(times) && 0 < k <= |times| && times[|times| - k] > cutoff
    ensures Recent(times, cutoff) >= k
  {
    assert times[|times| - 1] >= times[|times| - k];
    if k > 1 {
      LatestCount(times[..|times| - 1], k - 1, cutoff);
    }
  }

  function Allows(times: seq<int>, now: int): bool {
    Recent(times, now - RestartWindow) < MaxRestartsPerWindow
  }

  function Recorded(times: seq<int>, now: int): seq<int> {
    Pruned(times, now - RestartWindow) + [now]
  }

  // From `clock` on the pruned list decides as the full history does.
  ghost predicate Decides(restarts: seq<int>, history: seq<int>, clock: int) {
    forall cutoff :: cutoff >= clock - RestartWindow ==> Recent(restarts, cutoff) == Recent(history, cutoff)
  }

  lemma RecordDecides(restarts: seq<int>, history: seq<int>, clock: int, now: int)
    requires Decides(restarts, history, clock) && clock <= now
    ensures Decides(Recorded(restarts, now), history + [now], now)
  {
    forall cutoff | cutoff >= now - RestartWindow
      ensures Recent(Recorded(restarts, now), cutoff) == Recent(history + [now], cutoff)
    {
      PruningKeepsRecent(restarts, now - RestartWindow, cutoff);
      RecentAppend(Pruned(restarts, now - RestartWindow), now, cutoff);
      RecentAppend(history, now, cutoff);
    }
  }

  // What an allowed check says about the history it saw.
  lemma AllowedHistory(history: seq<int>, now: int)
    requires Ordered(history) && Allows(history, now) && |history| >= MaxRestartsPerWindow
    ensures history[|history| - MaxRestartsPerWindow] <= now - RestartWindow
  {
    if history[|history| - MaxRestartsPerWindow] > now - RestartWindow {
      LatestCount(history, MaxRestartsPerWindow, now - RestartWindow);
    }
  }

  class Handle {
    var restarts: seq<int>
    // Every restart ever recorded.
    ghost var history: seq<int>

    // From `clock` on the pruned list decides as the full history would.
    ghost predicate Valid(clock: int) reads this {
      && Ordered(history) && Spaced(history)
      && (forall i :: 0 <= i < |history| ==> history[i] <= clock)
      && Decides(restarts, history, clock)
    }

    constructor (ghost clock: int)
      ensures history == [] && restarts == [] && Valid(clock)
    {
      restarts, history := [], [];
    }

    method RestartAllowed(now: int) returns (allowed: bool)
      ensures allowed == Allows(restarts, now)
    {
      var cutoff := now - RestartWindow;
      var recent := 0;
      for i := 0 to |restarts|
        invariant recent == Recent(restarts[..i], cutoff)
      {
        assert restarts[..i + 1][..i] == restarts[..i];
        if restarts[i] > cutoff {
          recent := recent + 1;
        }
      }
      assert restarts[..|restarts|] == restarts;
      return recent < MaxRestartsPerWindow;
    }

    method PruneRestarts(cutoff: int) returns (kept: seq<int>)
      ensures kept == Pruned(restarts, cutoff)
    {
      kept := [];
      for i := 0 to |restarts|
        invariant kept == Pruned(restarts[..i], cutoff)
      {
        assert restarts[..i + 1][..i] == restarts[..i];
        if restarts[i] > cutoff {
          kept := kept + [restarts[i]];
        }
      }
      assert restarts[..|restarts|] == restarts;
    }

    method RecordRestart(now: int)
      modifies this
      ensures restarts == Recorded(old(restarts), now) && history == old(history) + [now]
    {
      var kept := PruneRestarts(now - RestartWindow);
      restarts := kept + [now];
      history := history + [now];
    }

    // The restart step of CallTool for serialized calls: the answer is the one
    // the full history gives, and the recorded restarts stay spaced.
    method AutoRestart(ghost clock: int, allowAt: int, recordAt: int) returns (restarted: bool)
      requires Valid(clock) && clock <= allowAt <= recordAt
      modifies this
      ensures Valid(recordAt)
      ensures restarted == Allows(old(history), allowAt)
      ensures history == if restarted then old(history) + [recordAt] else old(history)
    {
      restarted := RestartAllowed(allowAt);
      if restarted {
        RecordDecides(restarts, history, clock, recordAt);
        if |history| >= MaxRestartsPerWindow {
          AllowedHistory(history, allowAt);
        }
        RecordRestart(recordAt);
      }
    }
  }

  /* ----- calls that interleave ----- */

  // An allowed check: when, and how many restarts had been recorded by then.
  datatype Ticket = Ticket(at: int, seen: nat)

  // Calls of one handle without its lock.  `cleared` are the calls between
  // their check and their record, `tickets` the checks behind the history.
  datatype State = State(restarts: seq<int>, history: seq<int>, clock: int, cleared: seq<Ticket>, tickets: seq<Ticket>)

  datatype Step = Check(now: int) | Record(k: nat, now: int)

  function Initial(clock: int): State {
    State([], [], clock, [], [])
  }

  ghost predicate Enabled(s: State, step: Step) {
    s.clock <= step.now && (step.Record? ==> step.k < |s.cleared|)
  }

  // A call that is not allowed ends; an allowed one records later.
  function Next(s: State, step: Step): State {
    match step
    case Check(now) =>
      if Allows(s.restarts, now) then s.(clock := now, cleared := s.cleared + [Ticket(now, |s.history|)]) else s.(clock := now)
    case Record(k, now) =>
      if k < |s.cleared| then
        State(Recorded(s.restarts, now), s.history + [now], now, s.cleared[..k] + s.cleared[k + 1..], s.tickets + [s.cleared[k]])
      else s
  }

  // A run in which at most `width` calls are between check and record.
  ghost predicate Run(width: nat, states: seq<State>, steps: seq<Step>) {
    && |states| == |steps| + 1 && states[0] == Initial(states[0].clock)
    && (forall i :: 0 <= i < |steps| ==> Enabled(states[i], steps[i]) && states[i + 1] == Next(states[i], steps[i]))
    && (forall i :: 0 <= i < |states| ==> |states[i].cleared| <= width)
  }

  // How many checks saw at most m restarts.
  function Early(ts: seq<Ticket>, m: nat): nat {
    if ts == [] then 0 else Early(ts[..|ts| - 1], m) + if ts[|ts| - 1].seen <= m then 1 else 0
  }

  lemma {:induction false} EarlyAppend(ts: seq<Ticket>, more: seq<Ticket>, m: nat)
    ensures Early(ts + more, m) == Early(ts, m) + Early(more, m)
  {
    if more == [] {
      assert ts + more == ts;
    } else {
      assert (ts + more)[..|ts + more| - 1] == ts + more[..|more| - 1];
      EarlyAppend(ts, more[..|more| - 1], m);
    }
  }

  lemma {:induction false} EarlyAll(ts: seq<Ticket>, m: nat)
    ensures Early(ts, m) <= |ts|
    ensures (forall i :: 0 <= i < |ts| ==> ts[i].seen <= m) ==> Early(ts, m) == |ts|
  {
    if ts != [] {
      EarlyAll(ts[..|ts| - 1], m);
    }
  }

  // Moving the k-th ticket to the end of another list.
  lemma EarlyMoves(cleared: seq<Ticket>, k: nat, m: nat)
    requires k < |cleared|
    ensures Early(cleared, m) == Early(cleared[..k] + cleared[k + 1..], m) + Early([cleared[k]], m)
  {
    assert cleared == cleared[..k] + ([cleared[k]] + cleared[k + 1..]);
    EarlyAppend(cleared[..k], [cleared[k]] + cleared[k + 1..], m);
    EarlyAppend([cleared[k]], cleared[k + 1..], m);
    EarlyAppend(cleared[..k], cleared[k + 1..], m);
  }

  // A ticket's check was allowed by the history it saw.
  ghost predicate TicketOk(history: seq<int>, t: Ticket) {
    t.seen <= |history| && (t.seen >= MaxRestartsPerWindow ==> history[t.seen - MaxRestartsPerWindow] <= t.at - RestartWindow)
  }

  // The calls that were between check and record just before the m-th record:
  // those recorded since, and those still there.
  function Between(s: State, m: nat): nat
    requires m <= |s.tickets|
  {
    Early(s.tickets[m..], m) + Early(s.cleared, m)
  }

  ghost predicate HistoryOk(s: State) {
    && Ordered(s.history) && (forall i :: 0 <= i < |s.history| ==> s.history[i] <= s.clock)
    && Decides(s.restarts, s.history, s.clock)
  }

  ghost predicate TicketsOk(s: State) {
    && |s.tickets| == |s.history|
    && (forall j :: 0 <= j < |s.tickets| ==> RecordOk(s.history, s.tickets[j], j))
    && (forall k :: 0 <= k < |s.cleared| ==> TicketOk(s.history, s.cleared[k]) && s.cleared[k].at <= s.clock)
  }

  // The j-th restart came after its own check.
  ghost predicate RecordOk(history: seq<int>, t: Ticket, j: nat)
    requires j < |history|
  {
    TicketOk(history, t) && t.seen <= j && t.at <= history[j]
  }

  ghost predicate WidthOk(width: nat, s: State) {
    |s.tickets| == |s.history| && forall m :: 0 <= m <= |s.history| ==> Between(s, m) <= width
  }

  lemma StepKeepsHistory(s: State, step: Step)
    requires HistoryOk(s) && Enabled(s, step)
    ensures HistoryOk(Next(s, step))
  {
    if step.Record? {
      RecordDecides(s.restarts, s.history, s.clock, step.now);
    }
  }

  lemma TicketStays(history: seq<int>, t: Ticket, now: int)
    requires TicketOk(history, t)
    ensures TicketOk(history + [now], t)
  {
  }

  lemma CheckKeepsTickets(s: State, now: int)
    requires HistoryOk(s) && TicketsOk(s) && Enabled(s, Check(now))
    ensures TicketsOk(Next(s, Check(now)))
  {
    if Allows(s.restarts, now) {
      assert Allows(s.history, now);
      if |s.history| >= MaxRestartsPerWindow {
        AllowedHistory(s.history, now);
      }
    }
  }

  lemma RecordKeepsTickets(s: State, k: nat, now: int)
    requires TicketsOk(s) && Enabled(s, Record(k, now))
    ensures TicketsOk(Next(s, Record(k, now)))
  {
    var t := Next(s, Record(k, now));
    forall j | 0 <= j < |t.tickets| ensures RecordOk(t.history, t.tickets[j], j) {
      if j < |s.tickets| {
        assert RecordOk(s.history, s.tickets[j], j);
        TicketStays(s.history, s.tickets[j], now);
      } else {
        TicketStays(s.history, s.cleared[k], now);
      }
    }
    forall l | 0 <= l < |t.cleared| ensures TicketOk(t.history, t.cleared[l]) && t.cleared[l].at <= now {
      TicketStays(s.history, s.cleared[if l < k then l else l + 1], now);
    }
  }

  lemma StepKeepsTickets(s: State, step: Step)
    requires HistoryOk(s) && TicketsOk(s) && Enabled(s, step)
    ensures TicketsOk(Next(s, step))
  {
    match step
    case Check(now) => CheckKeepsTickets(s, now);
    case Record(k, now) => RecordKeepsTickets(s, k, now);
  }

  lemma StepKeepsWidth(width: nat, s: State, step: Step)
    requires TicketsOk(s) && WidthOk(width, s) && Enabled(s, step) && |Next(s, step).cleared| <= width
    ensures WidthOk(width, Next(s, step))
  {
    var t := Next(s, step);
    var n := |s.history|;
    forall m | 0 <= m <= |t.history| ensures Between(t, m) <= width {
      EarlyAll(t.cleared, m);
      if m <= n {
        assert Between(s, m) <= width;
        if step.Record? {
          RecordKeepsBetween(s, step.k, step.now, m);
        } else if m < n && t.cleared != s.cleared {
          EarlyAppend(s.cleared, [Ticket(step.now, n)], m);
          assert Early([Ticket(step.now, n)], m) == 0;
        } else {
          assert m == n ==> t.tickets[m..] == [];
        }
      } else {
        assert t.tickets[m..] == [];
      }
    }
  }

  lemma RecordKeepsBetween(s: State, k: nat, now: int, m: nat)
    requires |s.tickets| == |s.history| && k < |s.cleared| && m <= |s.history|
    ensures Between(Next(s, Record(k, now)), m) == Between(s, m)
  {
    EarlyMoves(s.cleared, k, m);
    EarlyAppend(s.tickets[m..], [s.cleared[k]], m);
    assert (s.tickets + [s.cleared[k]])[m..] == s.tickets[m..] + [s.cleared[k]];
  }

  lemma {:induction false} RunKeeps(width: nat, states: seq<State>, steps: seq<Step>)
    requires Run(width, states, steps)
    ensures var s := states[|steps|]; HistoryOk(s) && TicketsOk(s) && WidthOk(width, s)
  {
    if steps != [] {
      var n := |steps| - 1;
      RunKeeps(width, states[..n + 1], steps[..n]);
      assert Enabled(states[n], steps[n]) && states[n + 1] == Next(states[n], steps[n]);
      assert |states[n + 1].cleared| <= width;
      StepKeepsHistory(states[n], steps[n]);
      StepKeepsTickets(states[n], steps[n]);
      StepKeepsWidth(width, states[n], steps[n]);
    }
  }

  // With at most `width` calls between check and record, any width + 3
  // successive restarts span the window; for one call at a time that is the
  // limit of three a window.
  lemma RestartsSpan(width: nat, states: seq<State>, steps: seq<Step>)
    requires Run(width, states, steps)
    ensures SpacedBy(states[|steps|].history, width + 2)
  {
    RunKeeps(width, states, steps);
    var s := states[|steps|];
    forall i | 0 <= i && i + width + 2 < |s.history| ensures s.history[i + width + 2] - s.history[i] >= RestartWindow {
      SpanAt(width, s, i);
    }
  }

  // Among the width + 1 restarts behind the second one, some check came after
  // the third of the group, and saw all three.
  lemma SpanAt(width: nat, s: State, i: nat)
    requires HistoryOk(s) && TicketsOk(s) && WidthOk(width, s) && i + width + 2 < |s.history|
    ensures s.history[i + width + 2] - s.history[i] >= RestartWindow
  {
    var m, last := i + 2, i + width + 2;
    assert Between(s, m) <= width;
    var g := LateInGroup(s.tickets, m, last + 1, width);
    LateCheckSpans(s, i, g, last);
  }

  lemma LateInGroup(ts: seq<Ticket>, m: nat, end: nat, width: nat) returns (g: nat)
    requires m + width < end <= |ts| && Early(ts[m..], m) <= width
    ensures m <= g < end && ts[g].seen > m
  {
    var group := ts[m..end];
    assert ts[m..] == group + ts[end..];
    EarlyAppend(group, ts[end..], m);
    g := LateTicket(group, m);
    g := m + g;
  }

  lemma {:induction false} LateTicket(ts: seq<Ticket>, m: nat) returns (g: nat)
    requires Early(ts, m) < |ts|
    ensures g < |ts| && ts[g].seen > m
  {
    g := |ts| - 1;
    if ts[g].seen <= m {
      g := LateTicket(ts[..g], m);
    }
  }

  lemma LateCheckSpans(s: State, i: nat, j: nat, last: nat)
    requires HistoryOk(s) && TicketsOk(s) && j <= last < |s.history| && s.tickets[j].seen >= i + MaxRestartsPerWindow
    ensures s.history[last] - s.history[i] >= RestartWindow
  {
    var t := s.tickets[j];
    assert RecordOk(s.history, t, j);
    assert s.history[i] <= s.history[t.seen - MaxRestartsPerWindow] <= t.at - RestartWindow;
    assert s.history[j] <= s.history[last];
  }

  /* ----- the bound is tight ----- */

  lemma Extend(width: nat, states: seq<State>, steps: seq<Step>, step: Step) returns (longer: seq<State>, more: seq<Step>)
    requires Run(width, states, steps) && Enabled(states[|steps|], step) && |Next(states[|steps|], step).cleared| <= width
    ensures Run(width, longer, more) && longer[|more|] == Next(states[|steps|], step)
  {
    longer, more := states + [Next(states[|steps|], step)], steps + [step];
  }

  // Two restarts, then `width` checks, then their records, all at one time:
  // every restart follows its own allowed check, and width + 2 of them fall
  // into one window.
  lemma BoundIsTight(width: nat) returns (states: seq<State>, steps: seq<Step>)
    requires width > 0
    ensures Run(width, states, steps) && |states[|steps|].history| == width + 2
    ensures !SpacedBy(states[|steps|].history, width + 1)
  {
    states, steps := [Initial(0)], [];
    states, steps := Checks(width, states, steps, 1);
    states, steps := Records(width, states, steps, 1);
    states, steps := Checks(width, states, steps, 1);
    states, steps := Records(width, states, steps, 1);
    states, steps := Checks(width, states, steps, width);
    states, steps := Records(width, states, steps, width);
    var history := states[|steps|].history;
    assert history[0 + (width + 1)] - history[0] == 0;
  }

  ghost predicate AllAt(s: State, time: int) {
    s.clock == time && forall i :: 0 <= i < |s.history| ==> s.history[i] == time
  }

  lemma {:induction false} Checks(width: nat, states: seq<State>, steps: seq<Step>, n: nat) returns (longer: seq<State>, more: seq<Step>)
    requires Run(width, states, steps)
    requires var s := states[|steps|]; AllAt(s, 0) && |s.restarts| < MaxRestartsPerWindow && |s.cleared| + n <= width
    ensures Run(width, longer, more)
    ensures var s, t := states[|steps|], longer[|more|];
            t.restarts == s.restarts && t.history == s.history && AllAt(t, 0) && |t.cleared| == |s.cleared| + n
    decreases n
  {
    longer, more := states, steps;
    if n > 0 {
      CountsAreBounded(states[|steps|].restarts, 0 - RestartWindow);
      longer, more := Extend(width, states, steps, Check(0));
      longer, more := Checks(width, longer, more, n - 1);
    }
  }

  lemma {:induction false} Records(width: nat, states: seq<State>, steps: seq<Step>, n: nat) returns (longer: seq<State>, more: seq<Step>)
    requires Run(width, states, steps)
    requires var s := states[|steps|]; AllAt(s, 0) && |s.cleared| == n
    ensures Run(width, longer, more)
    ensures var s, t := states[|steps|], longer[|more|];
            |t.restarts| <= |s.restarts| + n && |t.history| == |s.history| + n && AllAt(t, 0) && t.cleared == []
    decreases n
  {
    longer, more := states, steps;
    if n > 0 {
      CountsAreBounded(states[|steps|].restarts, 0 - RestartWindow);
      longer, more := Extend(width, states, steps, Record(0, 0));
      longer, more := Records(width, longer, more, n - 1);
    }
  }

  lemma {:induction false} CountsAreBounded(times: seq<int>, cutoff: int)
    ensures Recent(times, cutoff) <= |times| && |Pruned(times, cutoff)| <= |times|
  {
    if times != [] {
      CountsAreBounded(times[..|times| - 1], cutoff);
    }
  }
}
