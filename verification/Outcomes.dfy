/**
  What every caller of the plugin transport is told, in terms of the run alone
  (internal/plugin/transport.go and callPersistent of
  internal/plugin/dispatch.go): whose message it returns, or which event made
  it give up.
 */
module Outcomes {
  import opened Wrappers
  import opened Routing

  /* ----- events of a run ----- */

  // The i-th step is a reply of the plugin to caller c, which has registered
  // its channel and not removed it.
  ghost predicate RepliesTo(states: seq<State>, steps: seq<Step>, i: nat, c: nat)
    requires |states| == |steps| + 1
  {
    && i < |steps| && steps[i].PluginReply? && c < |states[i].calls|
    && MayBePending(states[i].calls[c].pc) && steps[i].msg.id == states[i].calls[c].id
  }

  // None of the first n steps is.
  ghost predicate NoReply(states: seq<State>, steps: seq<Step>, n: nat, c: nat)
    requires |states| == |steps| + 1
  {
    forall i: nat :: i < n ==> !RepliesTo(states, steps, i, c)
  }

  // Of the first n steps the first that is carries this message.
  ghost predicate FirstReply(states: seq<State>, steps: seq<Step>, n: nat, c: nat, msg: Message)
    requires |states| == |steps| + 1
  {
    exists i: nat :: i < n && RepliesTo(states, steps, i, c) && NoReply(states, steps, i, c) && steps[i].msg == msg
  }

  // The drain has closed the caller's channel.
  ghost predicate ChannelClosed(states: seq<State>, steps: seq<Step>, n: nat, c: nat)
    requires |states| == |steps| + 1
  {
    exists i: nat :: i < n && i < |steps| && steps[i].SweepClose? && ClosesChannelOf(states[i], c)
  }

  ghost predicate ClosesChannelOf(s: State, c: nat) {
    s.reader.Sweeping? && s.reader.current.Picked? && s.reader.current.call == c
  }

  ghost predicate Happened(steps: seq<Step>, n: nat, step: Step) {
    exists i: nat :: i < n && i < |steps| && steps[i] == step
  }

  // The k-th step makes caller c leave with this outcome.
  ghost predicate LeavesWith(states: seq<State>, steps: seq<Step>, k: nat, c: nat, o: Outcome)
    requires |states| == |steps| + 1 && k < |steps|
  {
    match o
    case Reply(msg) => steps[k] == Receive(c) && FirstReply(states, steps, k, c, msg)
    case PluginExited => steps[k] == Receive(c) && NoReply(states, steps, k, c) && ChannelClosed(states, steps, k, c)
    case TransportClosed => steps[k] == ObserveDone(c) && Happened(steps, k, CloseDone)
    case SendFailed => steps[k] == Send(c, false)
    case TimedOut =>
      if steps[k] == Timeout(c) then c < |states[k].calls| && states[k].calls[c].kind != Tool
      else (steps[k] == DrainReceive(c) || steps[k] == DrainTimer(c)) && Happened(steps, k, Timeout(c))
  }

  ghost predicate HasLeft(states: seq<State>, steps: seq<Step>, n: nat, c: nat, o: Outcome)
    requires |states| == |steps| + 1
  {
    exists k: nat :: k < n && k < |steps| && LeavesWith(states, steps, k, c, o)
  }

  // What a caller that has left its wait will return, or has returned.
  function Decided(call: Call): Option<Outcome> {
    match call.pc
    case Leaving(o) => Some(o)
    case Unregistered(o) => Some(o)
    case Returned(o) => Some(o)
    case _ => None
  }

  /* ----- the history behind a state ----- */

  ghost predicate CallHistory(states: seq<State>, steps: seq<Step>, n: nat, c: nat)
    requires |states| == |steps| + 1 && n <= |steps| && c < |states[n].calls|
  {
    var s, call := states[n], states[n].calls[c];
    && (call.slot.Some? ==> FirstReply(states, steps, n, c, call.slot.value))
    && (call.closed ==> NoReply(states, steps, n, c) && ChannelClosed(states, steps, n, c) && !s.reader.Reading? && !s.reader.Delivering?)
    && (!HasRegistered(call.pc) || (call.id in s.pending && s.pending[call.id] == c) ==> NoReply(states, steps, n, c))
    && (call.pc.Draining? ==> Happened(steps, n, Timeout(c)))
    && (Decided(call).Some? ==> HasLeft(states, steps, n, c, Decided(call).value))
  }

  ghost predicate ReaderHistory(states: seq<State>, steps: seq<Step>, n: nat)
    requires |states| == |steps| + 1 && n <= |steps|
  {
    match states[n].reader
    case Delivering(c, msg) => FirstReply(states, steps, n, c, msg)
    case Sweeping(_, _, Picked(_, c)) => NoReply(states, steps, n, c)
    case Exited(_) => Happened(steps, n, CloseDone)
    case _ => true
  }

  ghost predicate History(states: seq<State>, steps: seq<Step>, n: nat)
    requires |states| == |steps| + 1 && n <= |steps|
  {
    && ReaderHistory(states, steps, n)
    && (forall c :: 0 <= c < |states[n].calls| ==> CallHistory(states, steps, n, c))
    && (forall i :: 0 <= i <= n ==> |states[i].calls| <= |states[n].calls|)
  }

  // What has happened stays so.
  lemma EventsStay(states: seq<State>, steps: seq<Step>, n: nat, c: nat)
    requires |states| == |steps| + 1 && n < |steps|
    ensures forall msg :: FirstReply(states, steps, n, c, msg) ==> FirstReply(states, steps, n + 1, c, msg)
    ensures ChannelClosed(states, steps, n, c) ==> ChannelClosed(states, steps, n + 1, c)
    ensures forall o :: HasLeft(states, steps, n, c, o) ==> HasLeft(states, steps, n + 1, c, o)
    ensures forall step :: Happened(steps, n, step) ==> Happened(steps, n + 1, step)
    ensures NoReply(states, steps, n, c) && !RepliesTo(states, steps, n, c) ==> NoReply(states, steps, n + 1, c)
    ensures NoReply(states, steps, n, c) && RepliesTo(states, steps, n, c) ==> FirstReply(states, steps, n + 1, c, steps[n].msg)
    ensures Happened(steps, n + 1, steps[n])
  {
  }

  // A caller that the n-th step leaves alone.
  lemma BystanderHistory(states: seq<State>, steps: seq<Step>, n: nat, c: nat)
    requires |states| == |steps| + 1 && n < |steps| && c < |states[n].calls| && c < |states[n + 1].calls|
    requires CallHistory(states, steps, n, c) && !RepliesTo(states, steps, n, c)
    requires var s, t, call := states[n], states[n + 1], states[n].calls[c];
             && t.calls[c] == call
             && (call.id in t.pending && t.pending[call.id] == c ==> !HasRegistered(call.pc) || (call.id in s.pending && s.pending[call.id] == c))
             && (call.closed ==> !t.reader.Reading? && !t.reader.Delivering?)
    ensures CallHistory(states, steps, n + 1, c)
  {
    EventsStay(states, steps, n, c);
  }

  lemma OthersHistory(states: seq<State>, steps: seq<Step>, n: nat, c: nat)
    requires |states| == |steps| + 1 && n < |steps| && |states[n].calls| == |states[n + 1].calls|
    requires History(states, steps, n) && !steps[n].PluginReply?
    requires var s, t := states[n], states[n + 1];
             && t.reader == s.reader
             && (forall d :: 0 <= d < |s.calls| && d != c ==> t.calls[d] == s.calls[d])
             && (forall id :: id in t.pending && t.pending[id] != c ==> id in s.pending && s.pending[id] == t.pending[id])
    ensures var m := n + 1; forall d: nat :: d < |states[n].calls| && d != c ==> CallHistory(states, steps, m, d)
    ensures ReaderHistory(states, steps, n + 1)
  {
    var m := n + 1;
    forall d: nat | d < |states[n].calls| && d != c ensures CallHistory(states, steps, m, d) {
      assert CallHistory(states, steps, n, d);
      BystanderHistory(states, steps, n, d);
    }
    var s := states[n];
    if s.reader.Delivering? {
      EventsStay(states, steps, n, s.reader.call);
    } else if s.reader.Sweeping? && s.reader.current.Picked? {
      EventsStay(states, steps, n, s.reader.current.call);
    } else {
      EventsStay(states, steps, n, c);
    }
  }

  // The caller that takes the n-th step.
  lemma ActorHistory(states: seq<State>, steps: seq<Step>, n: nat, c: nat)
    requires |states| == |steps| + 1 && n < |steps| && c < |states[n].calls| && CallHistory(states, steps, n, c)
    requires Enabled(states[n], steps[n]) && states[n + 1] == Apply(states[n], steps[n]) && ReaderHistory(states, steps, n)
    requires TablesOk(states[n]) && !IsReaderStep(steps[n]) && !steps[n].NewCall? && steps[n].c == c
    ensures CallHistory(states, steps, n + 1, c)
  {
    EventsStay(states, steps, n, c);
    ActorMoves(states[n], steps[n]);
    ActorDecides(states, steps, n, c);
    var o := Decided(states[n + 1].calls[c]);
    if o.Some? {
      assert Decided(states[n].calls[c]).Some? || LeavesWith(states, steps, n, c, o.value);
      assert HasLeft(states, steps, n + 1, c, o.value);
    }
  }

  lemma ActorMoves(s: State, step: Step)
    requires Enabled(s, step) && !IsReaderStep(step) && !step.NewCall? && step.c < |s.calls|
    ensures var t, c := Apply(s, step), step.c;
            && |t.calls| == |s.calls| && t.reader == s.reader
            && t.calls[c].closed == s.calls[c].closed && (t.calls[c].slot == s.calls[c].slot || t.calls[c].slot == None)
            && (!HasRegistered(t.calls[c].pc) ==> !HasRegistered(s.calls[c].pc))
            && (t.calls[c].id in t.pending && t.pending[t.calls[c].id] == c ==>
                  !HasRegistered(s.calls[c].pc) || (s.calls[c].id in s.pending && s.pending[s.calls[c].id] == c))
            && (t.calls[c].pc.Draining? ==> step == Timeout(c))
  {
  }

  // When it leaves its wait, it leaves with what the run says.
  lemma ActorDecides(states: seq<State>, steps: seq<Step>, n: nat, c: nat)
    requires |states| == |steps| + 1 && n < |steps| && c < |states[n].calls| && CallHistory(states, steps, n, c)
    requires Enabled(states[n], steps[n]) && states[n + 1] == Apply(states[n], steps[n]) && ReaderHistory(states, steps, n)
    requires TablesOk(states[n]) && !IsReaderStep(steps[n]) && !steps[n].NewCall? && steps[n].c == c
    ensures var o := Decided(states[n + 1].calls[c]);
            o.Some? && Decided(states[n].calls[c]).None? ==> LeavesWith(states, steps, n, c, o.value)
    ensures Decided(states[n].calls[c]).Some? ==> Decided(states[n + 1].calls[c]) == Decided(states[n].calls[c])
  {
  }

  lemma CallerStepHistory(states: seq<State>, steps: seq<Step>, n: nat)
    requires |states| == |steps| + 1 && n < |steps| && History(states, steps, n) && TablesOk(states[n])
    requires Enabled(states[n], steps[n]) && states[n + 1] == Apply(states[n], steps[n])
    requires !IsReaderStep(steps[n]) && !steps[n].NewCall?
    ensures History(states, steps, n + 1)
  {
    var c := steps[n].c;
    OthersHistory(states, steps, n, c);
    assert CallHistory(states, steps, n, c);
    ActorHistory(states, steps, n, c);
  }

  lemma NewCallHistory(states: seq<State>, steps: seq<Step>, n: nat)
    requires |states| == |steps| + 1 && n < |steps| && History(states, steps, n)
    requires steps[n].NewCall? && Enabled(states[n], steps[n]) && states[n + 1] == Apply(states[n], steps[n])
    ensures History(states, steps, n + 1)
  {
    var s, t := states[n], states[n + 1];
    var m := n + 1;
    forall d: nat | d < |t.calls| ensures CallHistory(states, steps, m, d) {
      if d < |s.calls| {
        assert CallHistory(states, steps, n, d);
        BystanderHistory(states, steps, n, d);
      } else {
        assert NoReply(states, steps, n + 1, d);
      }
    }
    if s.reader.Delivering? {
      EventsStay(states, steps, n, s.reader.call);
    } else if s.reader.Sweeping? && s.reader.current.Picked? {
      EventsStay(states, steps, n, s.reader.current.call);
    } else {
      EventsStay(states, steps, n, 0);
    }
  }

  // A reply goes to the one caller it is addressed to, if that still has its
  // channel in the table.
  lemma ReplyHistory(states: seq<State>, steps: seq<Step>, n: nat)
    requires |states| == |steps| + 1 && n < |steps| && History(states, steps, n) && TablesOk(states[n]) && IdsDiffer(states[n])
    requires steps[n].PluginReply? && Enabled(states[n], steps[n]) && states[n + 1] == Apply(states[n], steps[n])
    ensures History(states, steps, n + 1)
  {
    var s, t, msg := states[n], states[n + 1], steps[n].msg;
    var m := n + 1;
    forall d: nat | d < |t.calls| ensures CallHistory(states, steps, m, d) {
      assert CallHistory(states, steps, n, d);
      EventsStay(states, steps, n, d);
      if RepliesTo(states, steps, n, d) && msg.id in s.pending {
        assert s.pending[msg.id] == d;
      }
    }
    if msg.id in s.pending {
      var c := s.pending[msg.id];
      assert CallHistory(states, steps, n, c);
      EventsStay(states, steps, n, c);
    }
  }

  lemma DeliverHistory(states: seq<State>, steps: seq<Step>, n: nat)
    requires |states| == |steps| + 1 && n < |steps| && History(states, steps, n) && TablesOk(states[n])
    requires steps[n] == Deliver && Enabled(states[n], Deliver) && states[n + 1] == Apply(states[n], Deliver)
    ensures History(states, steps, n + 1)
  {
    var s, t := states[n], states[n + 1];
    var m := n + 1;
    forall d: nat | d < |t.calls| ensures CallHistory(states, steps, m, d) {
      assert CallHistory(states, steps, n, d);
      EventsStay(states, steps, n, d);
    }
  }

  lemma SweepCloseHistory(states: seq<State>, steps: seq<Step>, n: nat)
    requires |states| == |steps| + 1 && n < |steps| && History(states, steps, n) && TablesOk(states[n])
    requires steps[n] == SweepClose && Enabled(states[n], SweepClose) && states[n + 1] == Apply(states[n], SweepClose)
    ensures History(states, steps, n + 1)
  {
    var s, t := states[n], states[n + 1];
    var m := n + 1;
    forall d: nat | d < |t.calls| ensures CallHistory(states, steps, m, d) {
      assert CallHistory(states, steps, n, d);
      EventsStay(states, steps, n, d);
      if d == s.reader.current.call {
        assert ChannelClosed(states, steps, n + 1, d);
      }
    }
  }

  lemma ReaderStepHistory(states: seq<State>, steps: seq<Step>, n: nat)
    requires |states| == |steps| + 1 && n < |steps| && History(states, steps, n) && TablesOk(states[n])
    requires Enabled(states[n], steps[n]) && states[n + 1] == Apply(states[n], steps[n])
    requires IsReaderStep(steps[n]) && !steps[n].PluginReply? && !steps[n].Deliver? && !steps[n].SweepClose?
    ensures History(states, steps, n + 1)
  {
    var s, t := states[n], states[n + 1];
    var m := n + 1;
    forall d: nat | d < |t.calls| ensures CallHistory(states, steps, m, d) {
      assert CallHistory(states, steps, n, d);
      BystanderHistory(states, steps, n, d);
    }
    if t.reader.Sweeping? && t.reader.current.Picked? {
      assert CallHistory(states, steps, n, t.reader.current.call);
      EventsStay(states, steps, n, t.reader.current.call);
    } else {
      EventsStay(states, steps, n, 0);
    }
  }

  lemma {:induction false} RunHistory(states: seq<State>, steps: seq<Step>, n: nat)
    requires Run(states, steps) && n <= |steps|
    ensures History(states, steps, n)
  {
    if n > 0 {
      RunHistory(states, steps, n - 1);
      RunKeeps(states[..n], steps[..n - 1]);
      var step := steps[n - 1];
      if step.PluginReply? {
        ReplyHistory(states, steps, n - 1);
      } else if step.Deliver? {
        DeliverHistory(states, steps, n - 1);
      } else if step.SweepClose? {
        SweepCloseHistory(states, steps, n - 1);
      } else if IsReaderStep(step) {
        ReaderStepHistory(states, steps, n - 1);
      } else if step.NewCall? {
        NewCallHistory(states, steps, n - 1);
      } else {
        CallerStepHistory(states, steps, n - 1);
      }
    }
  }

  /* ----- the promises ----- */

  // What a caller has left with stays its last word.
  ghost predicate KeepsDecision(s: State, t: State, c: nat) {
    c < |s.calls| && Decided(s.calls[c]).Some? ==> c < |t.calls| && Decided(t.calls[c]) == Decided(s.calls[c])
  }

  lemma StepKeepsDecision(s: State, step: Step, c: nat)
    requires Enabled(s, step)
    ensures KeepsDecision(s, Apply(s, step), c)
  {
  }

  lemma {:induction false} DecisionStays(states: seq<State>, k: nat, n: nat, c: nat, o: Outcome)
    requires k <= n < |states| && forall i: nat {:trigger states[i]} :: i < n ==> KeepsDecision(states[i], states[i + 1], c)
    requires c < |states[k].calls| && Decided(states[k].calls[c]) == Some(o)
    ensures c < |states[n].calls| && Decided(states[n].calls[c]) == Some(o)
  {
    if k < n {
      DecisionStays(states, k, n - 1, c, o);
      assert KeepsDecision(states[n - 1], states[n - 1 + 1], c);
    }
  }

  lemma LeavingDecides(states: seq<State>, steps: seq<Step>, k: nat, c: nat, o: Outcome)
    requires Run(states, steps) && k < |steps| && LeavesWith(states, steps, k, c, o)
    ensures c < |states[k + 1].calls| && Decided(states[k + 1].calls[c]) == Some(o)
  {
    assert Enabled(states[k], steps[k]) && states[k + 1] == Apply(states[k], steps[k]);
    RunHistory(states, steps, k);
    assert CallHistory(states, steps, k, c);
  }

  // In every run a caller has left with an outcome if and only if the run says
  // so: with a reply when it received after a reply of the plugin was addressed
  // to it, and then with the first such message, id and body; with the news
  // that the plugin exited when it received and there was none, because the
  // drain closed its channel; and with the other outcomes when it observed the
  // end of the reader, could not send, or timed out.
  lemma OutcomeIff(states: seq<State>, steps: seq<Step>, c: nat, o: Outcome)
    requires Run(states, steps)
    ensures var s := states[|steps|];
            (c < |s.calls| && Decided(s.calls[c]) == Some(o)) <==> HasLeft(states, steps, |steps|, c, o)
  {
    RunHistory(states, steps, |steps|);
    var s := states[|steps|];
    if c < |s.calls| && Decided(s.calls[c]) == Some(o) {
      assert CallHistory(states, steps, |steps|, c);
    }
    if HasLeft(states, steps, |steps|, c, o) {
      var k: nat :| k < |steps| && LeavesWith(states, steps, k, c, o);
      LeavingDecides(states, steps, k, c, o);
      forall i: nat | i < |steps| ensures KeepsDecision(states[i], states[i + 1], c) {
        StepKeepsDecision(states[i], steps[i], c);
      }
      DecisionStays(states, k + 1, |steps|, c, o);
    }
  }

  // In particular a caller that receives gets the first message addressed to
  // it, or learns that the plugin exited, and never has to guess which.
  lemma ReceiverGetsTheReply(states: seq<State>, steps: seq<Step>, k: nat, c: nat)
    requires Run(states, steps) && k < |steps| && steps[k] == Receive(c)
    ensures c < |states[k + 1].calls|
    ensures forall msg :: FirstReply(states, steps, k, c, msg) <==> states[k + 1].calls[c].pc == Leaving(Reply(msg))
    ensures NoReply(states, steps, k, c) && ChannelClosed(states, steps, k, c) <==> states[k + 1].calls[c].pc == Leaving(PluginExited)
  {
    assert Enabled(states[k], steps[k]) && states[k + 1] == Apply(states[k], steps[k]);
    RunHistory(states, steps, k);
    assert CallHistory(states, steps, k, c);
  }

  // Once the reader has handed over a reply, its caller can go on: at once if
  // it waits, and if it has timed out its extra wait is over.
  lemma RepliedCanLeave(states: seq<State>, steps: seq<Step>, c: nat)
    requires Run(states, steps) && c < |states[|steps|].calls| && !NoReply(states, steps, |steps|, c)
    requires var s := states[|steps|]; !(s.reader.Delivering? && s.reader.call == c)
    ensures var s := states[|steps|];
            && (s.calls[c].pc == Waiting ==> Enabled(s, Receive(c)))
            && (s.calls[c].pc == Draining ==> Enabled(s, DrainReceive(c)))
  {
    RunHistory(states, steps, |steps|);
    RunKeeps(states, steps);
    assert CallHistory(states, steps, |steps|, c);
    assert CallOk(states[|steps|], c);
  }
}
