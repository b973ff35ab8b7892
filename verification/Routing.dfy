/**
  The core side of the plugin wire protocol (internal/plugin/transport.go and
  callPersistent of internal/plugin/dispatch.go) as a state machine: callers
  that register a one-slot channel, the reader loop that routes replies and
  service requests, timeouts, and the drain when the plugin's output ends.
  Every step is one atomic action of the source, so a run is one interleaving.
 */
module Routing {
  import opened Wrappers

  /* ----- message ids ----- */

  function Decimal(n: nat): string {
    (if n < 10 then "" else Decimal(n / 10)) + ["0123456789"[n % 10]]
  }

  // GenerateID: the prefix differs between callers, the counter is shared.
  function MakeId(prefix: string, n: nat): string {
    prefix + "-" + Decimal(n)
  }

  lemma {:induction false} DecimalDigits(n: nat)
    ensures '-' !in Decimal(n) && Decimal(n) != ""
  {
    if n >= 10 {
      DecimalDigits(n / 10);
    }
  }

  lemma {:induction false} DecimalInjective(m: nat, n: nat)
    requires Decimal(m) == Decimal(n)
    ensures m == n
  {
    var a, b := Decimal(m), Decimal(n);
    assert a[|a| - 1] == "0123456789"[m % 10] && b[|b| - 1] == "0123456789"[n % 10];
    assert m % 10 == n % 10;
    assert a[..|a| - 1] == (if m < 10 then "" else Decimal(m / 10));
    assert b[..|b| - 1] == (if n < 10 then "" else Decimal(n / 10));
    if m >= 10 {
      DecimalDigits(m / 10);
    }
    if n >= 10 {
      DecimalDigits(n / 10);
    }
    if m >= 10 && n >= 10 {
      DecimalInjective(m / 10, n / 10);
    }
  }

  // What follows the last dash.
  function Tail(s: string): string {
    if s == "" || s[|s| - 1] == '-' then "" else Tail(s[..|s| - 1]) + [s[|s| - 1]]
  }

  lemma {:induction false} TailOfId(p: string, a: string)
    requires '-' !in a
    ensures Tail(p + "-" + a) == a
  {
    if a != "" {
      var init := a[..|a| - 1];
      assert (p + "-" + a)[..|p + "-" + a| - 1] == p + "-" + init;
      TailOfId(p, init);
    }
  }

  // Ids with different counters differ, whatever the prefixes.
  lemma IdsDistinct(p: string, m: nat, q: string, n: nat)
    requires MakeId(p, m) == MakeId(q, n)
    ensures m == n
  {
    DecimalDigits(m);
    DecimalDigits(n);
    TailOfId(p, Decimal(m));
    TailOfId(q, Decimal(n));
    DecimalInjective(m, n);
  }

  /* ----- state ----- */

  datatype Message = Message(id: string, body: string)

  // What the caller may do with the plugin's tools; service requests that
  // name no call are demoted to Read.
  datatype Access = Read | Full

  // callPersistent; SendAndWait under a read-only context (init, resources);
  // SendAndWait without a context (shutdown).
  datatype Kind = Tool | Query | Bare

  datatype Outcome = Reply(msg: Message) | PluginExited | TransportClosed | TimedOut | SendFailed

  // Where a caller is in its code.  Draining is the extra wait of a tool call
  // that timed out.
  datatype Pc =
    | Starting
    | HasId
    | HasContext
    | Registered
    | Waiting
    | Draining
    | Leaving(outcome: Outcome)
    | Unregistered(outcome: Outcome)
    | Returned(outcome: Outcome)

  // A caller with its id and its one-slot channel.
  datatype Call = Call(kind: Kind, access: Access, prefix: string, num: nat, id: string, pc: Pc, slot: Option<Message>, closed: bool)

  // Where the drain is with one table entry: it has been read from the table,
  // or its channel has been closed.
  datatype Visit = Between | Picked(id: string, call: nat) | Closed(id: string)

  // The reader goroutine.  `known` are the ids registered when the drain
  // began, `seen` those it has visited.
  datatype Reader =
    | Reading
    | Delivering(call: nat, msg: Message)
    | Sweeping(known: set<string>, seen: set<string>, current: Visit)
    | Clearing(known: set<string>)
    | Closing(known: set<string>)
    | Exited(known: set<string>)

  // `panicked` records a send on a closed channel or a second close.
  datatype State = State(
    calls: seq<Call>,
    lastId: nat,
    pending: map<string, nat>,
    contexts: map<string, nat>,
    reader: Reader,
    done: bool,
    panicked: bool)

  const Initial := State([], 0, map[], map[], Reading, false, false)

  datatype Step =
    | NewCall(kind: Kind, access: Access, prefix: string)
    | GenerateId(c: nat)
    | SetContext(c: nat)
    | Register(c: nat)
    | Send(c: nat, ok: bool)
    | Receive(c: nat)
    | Timeout(c: nat)
    | ObserveDone(c: nat)
    | DrainReceive(c: nat)
    | DrainTimer(c: nat)
    | Unregister(c: nat)
    | ClearContext(c: nat)
    | PluginReply(msg: Message)
    | Deliver
    | PluginRequest(parent: string)
    | Eof
    | SweepPick(id: string)
    | SweepClose
    | SweepDelete
    | SweepEnd
    | ClearContexts
    | CloseDone

  ghost predicate At(s: State, c: nat, pc: Pc) {
    c < |s.calls| && s.calls[c].pc == pc
  }

  ghost predicate Enabled(s: State, step: Step) {
    match step
    case NewCall(kind, access, _) => kind == Tool || access == Read
    case GenerateId(c) => At(s, c, Starting)
    case SetContext(c) => At(s, c, HasId) && s.calls[c].kind != Bare
    case Register(c) => At(s, c, HasContext) || (At(s, c, HasId) && s.calls[c].kind == Bare)
    case Send(c, _) => At(s, c, Registered)
    case Receive(c) => At(s, c, Waiting) && (s.calls[c].slot.Some? || s.calls[c].closed)
    case Timeout(c) => At(s, c, Waiting)
    case ObserveDone(c) => At(s, c, Waiting) && s.calls[c].kind != Tool && s.done
    case DrainReceive(c) => At(s, c, Draining) && (s.calls[c].slot.Some? || s.calls[c].closed)
    case DrainTimer(c) => At(s, c, Draining)
    case Unregister(c) => c < |s.calls| && s.calls[c].pc.Leaving?
    case ClearContext(c) => c < |s.calls| && s.calls[c].pc.Unregistered?
    case PluginReply(_) => s.reader.Reading?
    case Deliver => s.reader.Delivering? && s.reader.call < |s.calls| && (s.calls[s.reader.call].closed || s.calls[s.reader.call].slot.None?)
    case PluginRequest(_) => s.reader.Reading?
    case Eof => s.reader.Reading?
    case SweepPick(id) => s.reader.Sweeping? && s.reader.current.Between? && id in s.pending && id !in s.reader.seen
    case SweepClose => s.reader.Sweeping? && s.reader.current.Picked? && s.reader.current.call < |s.calls|
    case SweepDelete => s.reader.Sweeping? && s.reader.current.Closed?
    case SweepEnd => s.reader.Sweeping? && s.reader.current.Between? && s.reader.known * s.pending.Keys <= s.reader.seen
    case ClearContexts => s.reader.Clearing?
    case CloseDone => s.reader.Closing?
  }

  function SetCall(s: State, c: nat, call: Call): State
    requires c < |s.calls|
  {
    s.(calls := s.calls[c := call])
  }

  function MovePc(s: State, c: nat, pc: Pc): State
    requires c < |s.calls|
  {
    SetCall(s, c, s.calls[c].(pc := pc))
  }

  // Which call's context a service request runs under, and with what access
  // (ToolContext): the named call, or for an unnamed request the only active
  // one, demoted to read access.
  ghost function ServedUnder(s: State, parent: string): Option<(nat, Access)>
    requires forall id :: id in s.contexts ==> s.contexts[id] < |s.calls|
  {
    if parent != "" then
      if parent in s.contexts then Some((s.contexts[parent], s.calls[s.contexts[parent]].access)) else None
    else if |s.contexts| == 1 then
      var id :| id in s.contexts; Some((s.contexts[id], Read))
    else None
  }

  ghost function Apply(s: State, step: Step): State
    requires Enabled(s, step)
  {
    match step
    case NewCall(kind, access, prefix) =>
      s.(calls := s.calls + [Call(kind, access, prefix, 0, "", Starting, None, false)])
    case GenerateId(c) =>
      var n := s.lastId + 1;
      SetCall(s, c, s.calls[c].(num := n, id := MakeId(s.calls[c].prefix, n), pc := HasId)).(lastId := n)
    case SetContext(c) =>
      MovePc(s, c, HasContext).(contexts := s.contexts[s.calls[c].id := c])
    case Register(c) =>
      MovePc(s, c, Registered).(pending := s.pending[s.calls[c].id := c])
    case Send(c, ok) =>
      MovePc(s, c, if ok then Waiting else Leaving(SendFailed))
    case Receive(c) =>
      var call := s.calls[c];
      SetCall(s, c, call.(slot := None, pc := Leaving(if call.slot.Some? then Reply(call.slot.value) else PluginExited)))
    case Timeout(c) =>
      MovePc(s, c, if s.calls[c].kind == Tool then Draining else Leaving(TimedOut))
    case ObserveDone(c) => MovePc(s, c, Leaving(TransportClosed))
    case DrainReceive(c) => SetCall(s, c, s.calls[c].(slot := None, pc := Leaving(TimedOut)))
    case DrainTimer(c) => MovePc(s, c, Leaving(TimedOut))
    case Unregister(c) =>
      MovePc(s, c, Unregistered(s.calls[c].pc.outcome)).(pending := s.pending - {s.calls[c].id})
    case ClearContext(c) =>
      MovePc(s, c, Returned(s.calls[c].pc.outcome))
        .(contexts := if s.calls[c].kind == Bare then s.contexts else s.contexts - {s.calls[c].id})
    case PluginReply(msg) =>
      if msg.id in s.pending
      then s.(pending := s.pending - {msg.id}, reader := Delivering(s.pending[msg.id], msg))
      else s
    case Deliver =>
      var c, msg := s.reader.call, s.reader.msg;
      if s.calls[c].closed then s.(panicked := true)
      else SetCall(s, c, s.calls[c].(slot := Some(msg))).(reader := Reading)
    case PluginRequest(_) => s
    case Eof => s.(reader := Sweeping(s.pending.Keys, {}, Between))
    case SweepPick(id) =>
      s.(reader := s.reader.(seen := s.reader.seen + {id}, current := Picked(id, s.pending[id])))
    case SweepClose =>
      var c := s.reader.current.call;
      SetCall(s, c, s.calls[c].(closed := true))
        .(panicked := s.panicked || s.calls[c].closed, reader := s.reader.(current := Closed(s.reader.current.id)))
    case SweepDelete =>
      s.(pending := s.pending - {s.reader.current.id}, reader := s.reader.(current := Between))
    case SweepEnd => s.(reader := Clearing(s.reader.known))
    case ClearContexts => s.(contexts := map[], reader := Closing(s.reader.known))
    case CloseDone => s.(done := true, reader := Exited(s.reader.known))
  }

  ghost predicate Run(states: seq<State>, steps: seq<Step>) {
    && |states| == |steps| + 1 && states[0] == Initial
    && forall i :: 0 <= i < |steps| ==> Enabled(states[i], steps[i]) && states[i + 1] == Apply(states[i], steps[i])
  }

  /* ----- what every run keeps ----- */

  predicate HasNumber(pc: Pc) {
    !pc.Starting?
  }

  // The caller has stored its channel in the pending table.
  predicate HasRegistered(pc: Pc) {
    !(pc.Starting? || pc.HasId? || pc.HasContext?)
  }

  // The caller has not yet removed it.
  predicate MayBePending(pc: Pc) {
    pc.Registered? || pc.Waiting? || pc.Draining? || pc.Leaving?
  }

  // Between SetToolContext and ClearToolContext.
  predicate InFlight(call: Call) {
    call.kind != Bare && (call.pc.HasContext? || MayBePending(call.pc) || call.pc.Unregistered?)
  }

  ghost predicate NumbersOk(s: State) {
    && (forall c :: 0 <= c < |s.calls| && HasNumber(s.calls[c].pc) ==>
          0 < s.calls[c].num <= s.lastId && s.calls[c].id == MakeId(s.calls[c].prefix, s.calls[c].num))
    && (forall c, d :: 0 <= c < d < |s.calls| && HasNumber(s.calls[c].pc) && HasNumber(s.calls[d].pc) ==> s.calls[c].num != s.calls[d].num)
  }

  ghost predicate IdsDiffer(s: State) {
    forall c, d :: 0 <= c < d < |s.calls| && HasNumber(s.calls[c].pc) && HasNumber(s.calls[d].pc) ==> s.calls[c].id != s.calls[d].id
  }

  ghost predicate PendingOk(s: State) {
    forall id :: id in s.pending ==>
      && s.pending[id] < |s.calls|
      && var call := s.calls[s.pending[id]];
         && call.id == id && MayBePending(call.pc) && call.slot.None?
         && (call.closed <==> s.reader.Sweeping? && s.reader.current == Closed(id))
  }

  ghost predicate ContextsOk(s: State) {
    forall id :: id in s.contexts ==>
      s.contexts[id] < |s.calls| && s.calls[s.contexts[id]].id == id && InFlight(s.calls[s.contexts[id]])
  }

  // Nothing has been sent to the caller's channel and it is open.
  predicate AwaitsAnswer(call: Call) {
    (call.pc.Registered? || call.pc.Waiting? || call.pc.Draining?) && call.slot.None? && !call.closed
  }

  ghost predicate CallOk(s: State, c: nat)
    requires c < |s.calls|
  {
    var call := s.calls[c];
    && (!HasRegistered(call.pc) ==> call.slot.None? && !call.closed)
    && (call.slot.Some? ==> call.slot.value.id == call.id)
    && (call.pc.Leaving? && call.pc.outcome.Reply? ==> call.pc.outcome.msg.id == call.id)
    && (call.pc.Unregistered? && call.pc.outcome.Reply? ==> call.pc.outcome.msg.id == call.id)
    && (call.pc.Returned? && call.pc.outcome.Reply? ==> call.pc.outcome.msg.id == call.id)
    && (call.kind != Tool ==> call.access == Read)
    && (call.kind == Bare ==> !call.pc.HasContext?)
    // Until the reader clears them, every call in flight has its context.
    && (InFlight(call) && !s.reader.Closing? && !s.reader.Exited? ==> call.id in s.contexts && s.contexts[call.id] == c)
    // A channel nobody has answered or closed is still in the table.
    && (AwaitsAnswer(call) && !(s.reader.Delivering? && s.reader.call == c) ==> call.id in s.pending)
  }

  // The entry in hand is an open channel of the call it was stored for, which
  // may have given up meanwhile.
  ghost predicate VisitOk(s: State, current: Visit) {
    match current
    case Picked(id, c) =>
      c < |s.calls| && HasRegistered(s.calls[c].pc) && s.calls[c].id == id && !s.calls[c].closed && (id in s.pending ==> s.pending[id] == c)
    case _ => true
  }

  ghost predicate ReaderOk(s: State) {
    match s.reader
    case Delivering(c, msg) =>
      c < |s.calls| && HasRegistered(s.calls[c].pc) && msg.id == s.calls[c].id && s.calls[c].slot.None? && !s.calls[c].closed
      && msg.id !in s.pending
    case Sweeping(known, seen, current) =>
      && VisitOk(s, current) && (!current.Between? ==> current.id in seen)
      && (forall id :: id in seen && id in s.pending ==> !current.Between? && current.id == id)
    case Clearing(known) => known !! s.pending.Keys
    case Closing(known) => known !! s.pending.Keys
    case Exited(known) => known !! s.pending.Keys
    case Reading => true
  }

  // The ids the drain found registered or visited belong to callers past registration.
  ghost predicate Issued(s: State, id: string) {
    exists c :: 0 <= c < |s.calls| && HasRegistered(s.calls[c].pc) && s.calls[c].id == id
  }

  function KnownIds(r: Reader): set<string> {
    if r.Sweeping? then r.known + r.seen
    else if r.Clearing? || r.Closing? || r.Exited? then r.known
    else {}
  }

  ghost predicate TablesOk(s: State) {
    && PendingOk(s) && ContextsOk(s) && ReaderOk(s)
    && (forall id :: id in KnownIds(s.reader) ==> Issued(s, id))
    && (forall c :: 0 <= c < |s.calls| ==> CallOk(s, c))
    && !s.panicked && (s.done <==> s.reader.Exited?)
  }

  lemma NumberedIdsDiffer(s: State)
    requires NumbersOk(s)
    ensures IdsDiffer(s)
  {
    forall c, d | 0 <= c < d < |s.calls| && HasNumber(s.calls[c].pc) && HasNumber(s.calls[d].pc)
      ensures s.calls[c].id != s.calls[d].id
    {
      if s.calls[c].id == s.calls[d].id {
        IdsDistinct(s.calls[c].prefix, s.calls[c].num, s.calls[d].prefix, s.calls[d].num);
      }
    }
  }

  // The numbered calls of t are numbered in s, with the same number.
  ghost predicate SameNumbers(s: State, t: State) {
    t.lastId == s.lastId &&
    forall c :: 0 <= c < |t.calls| && HasNumber(t.calls[c].pc) ==>
      && c < |s.calls| && HasNumber(s.calls[c].pc)
      && t.calls[c].num == s.calls[c].num && t.calls[c].id == s.calls[c].id && t.calls[c].prefix == s.calls[c].prefix
  }

  lemma SameNumbersOk(s: State, t: State)
    requires NumbersOk(s) && SameNumbers(s, t)
    ensures NumbersOk(t)
  {
  }

  lemma GeneratedNumberOk(s: State, c: nat)
    requires NumbersOk(s) && Enabled(s, GenerateId(c))
    ensures NumbersOk(Apply(s, GenerateId(c)))
  {
    var t := Apply(s, GenerateId(c));
    assert forall d :: 0 <= d < |t.calls| && d != c ==> t.calls[d] == s.calls[d];
    assert t.calls[c].num == t.lastId == s.lastId + 1;
  }

  predicate IsReaderStep(step: Step) {
    || step.PluginReply? || step.Deliver? || step.PluginRequest? || step.Eof? || step.SweepPick? || step.SweepClose?
    || step.SweepDelete? || step.SweepEnd? || step.ClearContexts? || step.CloseDone?
  }

  lemma ReaderNumbersNothing(s: State, step: Step)
    requires Enabled(s, step) && IsReaderStep(step)
    ensures SameNumbers(s, Apply(s, step))
  {
  }

  lemma CallerNumbersNothing(s: State, step: Step)
    requires Enabled(s, step) && !IsReaderStep(step) && !step.GenerateId?
    ensures SameNumbers(s, Apply(s, step))
  {
  }

  lemma StepKeepsNumbers(s: State, step: Step)
    requires NumbersOk(s) && Enabled(s, step)
    ensures NumbersOk(Apply(s, step))
  {
    if step.GenerateId? {
      GeneratedNumberOk(s, step.c);
    } else {
      if IsReaderStep(step) {
        ReaderNumbersNothing(s, step);
      } else {
        CallerNumbersNothing(s, step);
      }
      SameNumbersOk(s, Apply(s, step));
    }
  }

  lemma IssuedStays(s: State, t: State)
    requires |s.calls| <= |t.calls|
    requires forall c :: 0 <= c < |s.calls| && HasRegistered(s.calls[c].pc) ==> HasRegistered(t.calls[c].pc) && t.calls[c].id == s.calls[c].id
    ensures forall id :: Issued(s, id) ==> Issued(t, id)
  {
    forall id | Issued(s, id) ensures Issued(t, id) {
      var c :| 0 <= c < |s.calls| && HasRegistered(s.calls[c].pc) && s.calls[c].id == id;
      assert t.calls[c].id == id;
    }
  }

  // A step of one registered caller that touches nothing but its own place and
  // empties or leaves its slot.
  ghost predicate CallerStep(s: State, t: State, c: nat) {
    && c < |s.calls| == |t.calls| && t == SetCall(s, c, t.calls[c])
    && var call, moved := s.calls[c], t.calls[c];
       && MayBePending(call.pc) && MayBePending(moved.pc) && (AwaitsAnswer(moved) ==> AwaitsAnswer(call))
       && moved == call.(pc := moved.pc, slot := moved.slot) && (moved.slot == call.slot || moved.slot == None)
       && (moved.pc.Leaving? && moved.pc.outcome.Reply? ==> moved.pc.outcome.msg.id == call.id)
  }

  lemma CallerStepKeepsCall(s: State, t: State, c: nat, d: nat)
    requires TablesOk(s) && CallerStep(s, t, c) && d < |t.calls|
    ensures CallOk(t, d)
  {
    assert CallOk(s, d);
  }

  lemma CallerStepKeepsTables(s: State, t: State, c: nat)
    requires TablesOk(s) && CallerStep(s, t, c)
    ensures PendingOk(t) && ContextsOk(t) && ReaderOk(t)
  {
    assert forall d :: 0 <= d < |t.calls| && d != c ==> t.calls[d] == s.calls[d];
  }

  lemma KeepsCallerStep(s: State, t: State, c: nat)
    requires TablesOk(s) && CallerStep(s, t, c)
    ensures TablesOk(t)
  {
    IssuedStays(s, t);
    CallerStepKeepsTables(s, t, c);
    forall d | 0 <= d < |t.calls| ensures CallOk(t, d) {
      CallerStepKeepsCall(s, t, c, d);
    }
  }

  lemma KeepsSend(s: State, c: nat, ok: bool)
    requires TablesOk(s) && IdsDiffer(s) && Enabled(s, Send(c, ok))
    ensures TablesOk(Apply(s, Send(c, ok)))
  {
    var t := Apply(s, Send(c, ok));
    KeepsCallerStep(s, t, c);
  }

  lemma KeepsReceive(s: State, c: nat)
    requires TablesOk(s) && IdsDiffer(s) && Enabled(s, Receive(c))
    ensures TablesOk(Apply(s, Receive(c)))
  {
    var t := Apply(s, Receive(c));
    assert CallOk(s, c);
    KeepsCallerStep(s, t, c);
  }

  // Timeouts, the end of the wait after one, and the closed transport.
  lemma KeepsGivingUp(s: State, step: Step)
    requires TablesOk(s) && IdsDiffer(s) && Enabled(s, step)
    requires step.Timeout? || step.ObserveDone? || step.DrainReceive? || step.DrainTimer?
    ensures TablesOk(Apply(s, step))
  {
    var t := Apply(s, step);
    KeepsCallerStep(s, t, step.c);
  }

  lemma KeepsNewCall(s: State, kind: Kind, access: Access, prefix: string)
    requires TablesOk(s) && IdsDiffer(s) && Enabled(s, NewCall(kind, access, prefix))
    ensures TablesOk(Apply(s, NewCall(kind, access, prefix)))
  {
    var t := Apply(s, NewCall(kind, access, prefix));
    IssuedStays(s, t);
    forall d | 0 <= d < |t.calls| ensures CallOk(t, d) {
      assert d < |s.calls| ==> CallOk(s, d);
    }
  }

  // A new id: the call was in no table and in nobody's hands.
  lemma NumberingKeepsCall(s: State, t: State, c: nat, d: nat)
    requires TablesOk(s) && Numbered(s, t, c) && d < |t.calls|
    ensures CallOk(t, d)
  {
    assert CallOk(s, d);
  }

  ghost predicate Numbered(s: State, t: State, c: nat) {
    && c < |s.calls| == |t.calls| && s.calls[c].pc == Starting
    && t == s.(calls := s.calls[c := s.calls[c].(num := t.calls[c].num, id := t.calls[c].id, pc := HasId)], lastId := t.lastId)
  }

  lemma NumberingKeepsTables(s: State, t: State, c: nat)
    requires TablesOk(s) && Numbered(s, t, c)
    ensures PendingOk(t) && ContextsOk(t) && ReaderOk(t)
  {
    assert forall d :: 0 <= d < |t.calls| && d != c ==> t.calls[d] == s.calls[d];
  }

  lemma KeepsGenerateId(s: State, c: nat)
    requires TablesOk(s) && Enabled(s, GenerateId(c))
    ensures TablesOk(Apply(s, GenerateId(c)))
  {
    var t := Apply(s, GenerateId(c));
    NumberingKeeps(s, t, c);
  }

  lemma NumberingKeeps(s: State, t: State, c: nat)
    requires TablesOk(s) && Numbered(s, t, c)
    ensures TablesOk(t)
  {
    IssuedStays(s, t);
    NumberingKeepsTables(s, t, c);
    forall d | 0 <= d < |t.calls| ensures CallOk(t, d) {
      NumberingKeepsCall(s, t, c, d);
    }
  }

  lemma SetContextKeepsCall(s: State, c: nat, d: nat)
    requires TablesOk(s) && IdsDiffer(s) && Enabled(s, SetContext(c)) && d < |Apply(s, SetContext(c)).calls|
    ensures CallOk(Apply(s, SetContext(c)), d)
  {
    assert CallOk(s, d);
  }

  lemma SetContextKeepsTables(s: State, c: nat)
    requires TablesOk(s) && IdsDiffer(s) && Enabled(s, SetContext(c))
    ensures var t := Apply(s, SetContext(c));
            PendingOk(t) && ContextsOk(t) && ReaderOk(t) && !t.panicked && (t.done <==> t.reader.Exited?)
  {
  }

  lemma KeepsSetContext(s: State, c: nat)
    requires TablesOk(s) && IdsDiffer(s) && Enabled(s, SetContext(c))
    ensures TablesOk(Apply(s, SetContext(c)))
  {
    var t := Apply(s, SetContext(c));
    IssuedStays(s, t);
    SetContextKeepsTables(s, c);
    forall d | 0 <= d < |t.calls| ensures CallOk(t, d) {
      SetContextKeepsCall(s, c, d);
    }
  }

  lemma RegisterKeepsCall(s: State, c: nat, d: nat)
    requires TablesOk(s) && IdsDiffer(s) && Enabled(s, Register(c)) && d < |Apply(s, Register(c)).calls|
    ensures CallOk(Apply(s, Register(c)), d)
  {
    assert CallOk(s, d);
  }

  // A call that registers has not been in the table before.
  lemma RegisterIsNew(s: State, c: nat)
    requires TablesOk(s) && IdsDiffer(s) && Enabled(s, Register(c))
    ensures var id := s.calls[c].id;
            id !in s.pending && id !in KnownIds(s.reader) && s.calls[c].slot.None? && !s.calls[c].closed
  {
    assert !Issued(s, s.calls[c].id) && CallOk(s, c);
  }

  lemma RegisterKeepsPending(s: State, c: nat)
    requires TablesOk(s) && IdsDiffer(s) && Enabled(s, Register(c))
    ensures PendingOk(Apply(s, Register(c))) && ContextsOk(Apply(s, Register(c)))
  {
    RegisterIsNew(s, c);
    var t := Apply(s, Register(c));
    assert forall d :: 0 <= d < |t.calls| && d != c ==> t.calls[d] == s.calls[d];
  }

  lemma RegisterKeepsTables(s: State, c: nat)
    requires TablesOk(s) && IdsDiffer(s) && Enabled(s, Register(c))
    ensures var t := Apply(s, Register(c));
            PendingOk(t) && ContextsOk(t) && ReaderOk(t) && !t.panicked && (t.done <==> t.reader.Exited?)
  {
    RegisterIsNew(s, c);
    RegisterKeepsPending(s, c);
  }

  lemma KeepsRegister(s: State, c: nat)
    requires TablesOk(s) && IdsDiffer(s) && Enabled(s, Register(c))
    ensures TablesOk(Apply(s, Register(c)))
  {
    var t := Apply(s, Register(c));
    IssuedStays(s, t);
    RegisterKeepsTables(s, c);
    forall d | 0 <= d < |t.calls| ensures CallOk(t, d) {
      RegisterKeepsCall(s, c, d);
    }
  }

  lemma UnregisterKeepsCall(s: State, c: nat, d: nat)
    requires TablesOk(s) && IdsDiffer(s) && Enabled(s, Unregister(c)) && d < |Apply(s, Unregister(c)).calls|
    ensures CallOk(Apply(s, Unregister(c)), d)
  {
    assert CallOk(s, d);
  }

  lemma UnregisterKeepsTables(s: State, c: nat)
    requires TablesOk(s) && IdsDiffer(s) && Enabled(s, Unregister(c))
    ensures var t := Apply(s, Unregister(c));
            PendingOk(t) && ContextsOk(t) && ReaderOk(t) && !t.panicked && (t.done <==> t.reader.Exited?)
  {
  }

  lemma KeepsUnregister(s: State, c: nat)
    requires TablesOk(s) && IdsDiffer(s) && Enabled(s, Unregister(c))
    ensures TablesOk(Apply(s, Unregister(c)))
  {
    var t := Apply(s, Unregister(c));
    IssuedStays(s, t);
    UnregisterKeepsTables(s, c);
    forall d | 0 <= d < |t.calls| ensures CallOk(t, d) {
      UnregisterKeepsCall(s, c, d);
    }
  }

  lemma ClearContextKeepsCall(s: State, c: nat, d: nat)
    requires TablesOk(s) && IdsDiffer(s) && Enabled(s, ClearContext(c)) && d < |Apply(s, ClearContext(c)).calls|
    ensures CallOk(Apply(s, ClearContext(c)), d)
  {
    assert CallOk(s, d);
    ContextCleared(s, c);
  }

  lemma ClearContextKeepsTables(s: State, c: nat)
    requires TablesOk(s) && IdsDiffer(s) && Enabled(s, ClearContext(c))
    ensures var t := Apply(s, ClearContext(c));
            PendingOk(t) && ContextsOk(t) && ReaderOk(t) && !t.panicked && (t.done <==> t.reader.Exited?)
  {
    ContextCleared(s, c);
  }

  lemma KeepsClearContext(s: State, c: nat)
    requires TablesOk(s) && IdsDiffer(s) && Enabled(s, ClearContext(c))
    ensures TablesOk(Apply(s, ClearContext(c)))
  {
    var t := Apply(s, ClearContext(c));
    IssuedStays(s, t);
    ClearContextKeepsTables(s, c);
    forall d | 0 <= d < |t.calls| ensures CallOk(t, d) {
      ClearContextKeepsCall(s, c, d);
    }
  }

  lemma ContextCleared(s: State, c: nat)
    requires ContextsOk(s) && IdsDiffer(s) && Enabled(s, ClearContext(c))
    ensures ContextsOk(Apply(s, ClearContext(c)))
    ensures forall d :: 0 <= d < |s.calls| && d != c && InFlight(s.calls[d]) && s.calls[d].id in s.contexts
              ==> s.calls[d].id in Apply(s, ClearContext(c)).contexts
  {
  }

  lemma KeepsPluginReply(s: State, msg: Message)
    requires TablesOk(s) && IdsDiffer(s) && Enabled(s, PluginReply(msg))
    ensures TablesOk(Apply(s, PluginReply(msg)))
  {
    var t := Apply(s, PluginReply(msg));
    IssuedStays(s, t);
    forall d | 0 <= d < |t.calls| ensures CallOk(t, d) {
      assert d < |s.calls| ==> CallOk(s, d);
    }
  }

  lemma KeepsDeliver(s: State)
    requires TablesOk(s) && IdsDiffer(s) && Enabled(s, Deliver)
    ensures TablesOk(Apply(s, Deliver))
  {
    var t := Apply(s, Deliver);
    IssuedStays(s, t);
    forall d | 0 <= d < |t.calls| ensures CallOk(t, d) {
      assert d < |s.calls| ==> CallOk(s, d);
    }
  }

  lemma KeepsEof(s: State)
    requires TablesOk(s) && IdsDiffer(s) && Enabled(s, Eof)
    ensures TablesOk(Apply(s, Eof))
  {
    var t := Apply(s, Eof);
    IssuedStays(s, t);
    forall d | 0 <= d < |t.calls| ensures CallOk(t, d) {
      assert d < |s.calls| ==> CallOk(s, d);
    }
  }

  lemma KeepsSweepPick(s: State, id: string)
    requires TablesOk(s) && IdsDiffer(s) && Enabled(s, SweepPick(id))
    ensures TablesOk(Apply(s, SweepPick(id)))
  {
    var t := Apply(s, SweepPick(id));
    IssuedStays(s, t);
    assert Issued(s, id) by {
      assert s.calls[s.pending[id]].id == id;
    }
    forall d | 0 <= d < |t.calls| ensures CallOk(t, d) {
      assert CallOk(s, d);
    }
  }

  lemma SweepCloseKeepsCall(s: State, d: nat)
    requires TablesOk(s) && Enabled(s, SweepClose) && d < |s.calls|
    ensures CallOk(Apply(s, SweepClose), d)
  {
    assert CallOk(s, d);
  }

  lemma SweepCloseKeepsPending(s: State)
    requires PendingOk(s) && ReaderOk(s) && Enabled(s, SweepClose)
    ensures PendingOk(Apply(s, SweepClose))
  {
    var t, c := Apply(s, SweepClose), s.reader.current.call;
    forall other | other in t.pending && other != s.reader.current.id ensures t.calls[t.pending[other]] == s.calls[s.pending[other]] {
      assert s.calls[s.pending[other]].id != s.calls[c].id;
    }
  }

  lemma KeepsSweepClose(s: State)
    requires TablesOk(s) && Enabled(s, SweepClose)
    ensures TablesOk(Apply(s, SweepClose))
  {
    var t, c := Apply(s, SweepClose), s.reader.current.call;
    assert t.calls[c] == s.calls[c].(closed := true) && forall d :: 0 <= d < |t.calls| && d != c ==> t.calls[d] == s.calls[d];
    IssuedStays(s, t);
    SweepCloseKeepsPending(s);
    forall d | 0 <= d < |t.calls| ensures CallOk(t, d) {
      SweepCloseKeepsCall(s, d);
    }
  }

  lemma KeepsSweepDelete(s: State)
    requires TablesOk(s) && IdsDiffer(s) && Enabled(s, SweepDelete)
    ensures TablesOk(Apply(s, SweepDelete))
  {
    var t := Apply(s, SweepDelete);
    IssuedStays(s, t);
    forall d | 0 <= d < |t.calls| ensures CallOk(t, d) {
      assert d < |s.calls| ==> CallOk(s, d);
    }
  }

  lemma KeepsSweepEnd(s: State)
    requires TablesOk(s) && IdsDiffer(s) && Enabled(s, SweepEnd)
    ensures TablesOk(Apply(s, SweepEnd))
  {
    var t := Apply(s, SweepEnd);
    IssuedStays(s, t);
    forall d | 0 <= d < |t.calls| ensures CallOk(t, d) {
      assert d < |s.calls| ==> CallOk(s, d);
    }
  }

  lemma KeepsClearContexts(s: State)
    requires TablesOk(s) && IdsDiffer(s) && Enabled(s, ClearContexts)
    ensures TablesOk(Apply(s, ClearContexts))
  {
    var t := Apply(s, ClearContexts);
    IssuedStays(s, t);
    forall d | 0 <= d < |t.calls| ensures CallOk(t, d) {
      assert d < |s.calls| ==> CallOk(s, d);
    }
  }

  lemma KeepsCloseDone(s: State)
    requires TablesOk(s) && IdsDiffer(s) && Enabled(s, CloseDone)
    ensures TablesOk(Apply(s, CloseDone))
  {
    var t := Apply(s, CloseDone);
    IssuedStays(s, t);
    forall d | 0 <= d < |t.calls| ensures CallOk(t, d) {
      assert d < |s.calls| ==> CallOk(s, d);
    }
  }

  lemma StepKeepsTables(s: State, step: Step)
    requires TablesOk(s) && NumbersOk(s) && Enabled(s, step)
    ensures TablesOk(Apply(s, step)) && NumbersOk(Apply(s, step))
  {
    StepKeepsNumbers(s, step);
    NumberedIdsDiffer(s);
    match step
    case NewCall(kind, access, prefix) => KeepsNewCall(s, kind, access, prefix);
    case GenerateId(c) => KeepsGenerateId(s, c);
    case SetContext(c) => KeepsSetContext(s, c);
    case Register(c) => KeepsRegister(s, c);
    case Send(c, ok) => KeepsSend(s, c, ok);
    case Receive(c) => KeepsReceive(s, c);
    case Timeout(_) => KeepsGivingUp(s, step);
    case ObserveDone(_) => KeepsGivingUp(s, step);
    case DrainReceive(_) => KeepsGivingUp(s, step);
    case DrainTimer(_) => KeepsGivingUp(s, step);
    case Unregister(c) => KeepsUnregister(s, c);
    case ClearContext(c) => KeepsClearContext(s, c);
    case PluginReply(msg) => KeepsPluginReply(s, msg);
    case Deliver => KeepsDeliver(s);
    case PluginRequest(_) =>
    case Eof => KeepsEof(s);
    case SweepPick(id) => KeepsSweepPick(s, id);
    case SweepClose => KeepsSweepClose(s);
    case SweepDelete => KeepsSweepDelete(s);
    case SweepEnd => KeepsSweepEnd(s);
    case ClearContexts => KeepsClearContexts(s);
    case CloseDone => KeepsCloseDone(s);
  }

  lemma {:induction false} RunKeeps(states: seq<State>, steps: seq<Step>)
    requires Run(states, steps)
    ensures TablesOk(states[|steps|]) && NumbersOk(states[|steps|]) && IdsDiffer(states[|steps|])
  {
    if steps != [] {
      var n := |steps| - 1;
      RunKeeps(states[..n + 1], steps[..n]);
      StepKeepsTables(states[n], steps[n]);
    }
    NumberedIdsDiffer(states[|steps|]);
  }

  /* ----- the promises ----- */

  // No message id is ever given to two calls, and a caller only ever returns
  // with a reply that bears its own id.
  lemma RepliesReachTheirCaller(states: seq<State>, steps: seq<Step>)
    requires Run(states, steps)
    ensures IdsDiffer(states[|steps|])
    ensures var s := states[|steps|];
            forall c :: 0 <= c < |s.calls| && s.calls[c].pc.Returned? && s.calls[c].pc.outcome.Reply? ==>
              s.calls[c].pc.outcome.msg.id == s.calls[c].id
  {
    RunKeeps(states, steps);
    var s := states[|steps|];
    forall c | 0 <= c < |s.calls| && s.calls[c].pc.Returned? && s.calls[c].pc.outcome.Reply?
      ensures s.calls[c].pc.outcome.msg.id == s.calls[c].id
    {
      assert CallOk(s, c);
    }
  }

  // The reader never sends on a closed channel, never closes one twice and
  // never waits for room: whenever it has a reply to hand over, the channel is
  // open and its slot free, so the hand-over happens.
  lemma ReaderNeverPanicsOrBlocks(states: seq<State>, steps: seq<Step>)
    requires Run(states, steps)
    ensures var s := states[|steps|];
            && !s.panicked
            && (s.reader.Delivering? ==>
                  && Enabled(s, Deliver)
                  && !s.calls[s.reader.call].closed && s.calls[s.reader.call].slot == None
                  && Apply(s, Deliver).calls[s.reader.call].slot == Some(s.reader.msg))
  {
    RunKeeps(states, steps);
  }

  // A reply that comes after its caller gave up reaches nobody.
  lemma LateReplyIsDropped(states: seq<State>, steps: seq<Step>, msg: Message, c: nat)
    requires Run(states, steps)
    requires var s := states[|steps|]; c < |s.calls| && msg.id == s.calls[c].id && (s.calls[c].pc.Unregistered? || s.calls[c].pc.Returned?)
    requires Enabled(states[|steps|], PluginReply(msg))
    ensures Apply(states[|steps|], PluginReply(msg)) == states[|steps|]
  {
    RunKeeps(states, steps);
    var s := states[|steps|];
  }

  // A service request is served only under the context of a call in flight:
  // the one it names, with that call's access, or, when it names none, the
  // only call in flight, with read access.
  lemma ServiceRunsUnderLiveCall(states: seq<State>, steps: seq<Step>, parent: string)
    requires Run(states, steps) && Enabled(states[|steps|], PluginRequest(parent))
    ensures var s := states[|steps|];
            && (forall id :: id in s.contexts ==> s.contexts[id] < |s.calls|)
            && match ServedUnder(s, parent)
               case Some((c, access)) =>
                 && c < |s.calls| && InFlight(s.calls[c])
                 && (parent != "" ==> s.calls[c].id == parent && access == s.calls[c].access)
                 && (parent == "" ==> access == Read && forall d :: 0 <= d < |s.calls| && InFlight(s.calls[d]) ==> d == c)
               case None =>
                 if parent != "" then forall d :: 0 <= d < |s.calls| && InFlight(s.calls[d]) ==> s.calls[d].id != parent
                 else forall c :: 0 <= c < |s.calls| && InFlight(s.calls[c]) ==> exists d :: 0 <= d < |s.calls| && d != c && InFlight(s.calls[d])
  {
    RunKeeps(states, steps);
    var s := states[|steps|];
    forall d | 0 <= d < |s.calls| && InFlight(s.calls[d]) ensures s.calls[d].id in s.contexts && s.contexts[s.calls[d].id] == d {
      assert CallOk(s, d);
    }
    if parent == "" {
      UnnamedRequest(s);
    }
  }

  lemma UnnamedRequest(s: State)
    requires ContextsOk(s)
    requires forall d :: 0 <= d < |s.calls| && InFlight(s.calls[d]) ==> s.calls[d].id in s.contexts && s.contexts[s.calls[d].id] == d
    ensures |s.contexts| == 1 ==> forall id, d :: id in s.contexts && 0 <= d < |s.calls| && InFlight(s.calls[d]) ==> s.contexts[id] == d
    ensures |s.contexts| != 1 ==> forall c :: 0 <= c < |s.calls| && InFlight(s.calls[c]) ==> exists d :: 0 <= d < |s.calls| && d != c && InFlight(s.calls[d])
  {
    if |s.contexts| == 1 {
      var only :| only in s.contexts;
      assert s.contexts.Keys - {only} == {} by {
        assert |s.contexts.Keys - {only}| == 0;
      }
      assert forall id :: id in s.contexts.Keys ==> id == only;
    } else {
      forall c | 0 <= c < |s.calls| && InFlight(s.calls[c]) ensures exists d :: 0 <= d < |s.calls| && d != c && InFlight(s.calls[d]) {
        var id := s.calls[c].id;
        assert |{id}| == 1 != |s.contexts.Keys|;
        assert {id} != s.contexts.Keys;
        var other :| other in s.contexts.Keys && other != id;
        assert s.contexts[other] != c;
      }
    }
  }

  // Once the reader has exited, every SendAndWait caller can return at once.
  // A tool call can exactly when its channel has left the table, which holds
  // for every call that was registered when the drain began.
  lemma WaitersReturnAfterExit(states: seq<State>, steps: seq<Step>, c: nat)
    requires Run(states, steps) && states[|steps|].done && At(states[|steps|], c, Waiting)
    ensures var s := states[|steps|];
            && s.reader.Exited?
            && if s.calls[c].kind != Tool then Enabled(s, ObserveDone(c))
            else (Enabled(s, Receive(c)) <==> s.calls[c].id !in s.pending)
                 && (s.calls[c].id in s.reader.known ==> Enabled(s, Receive(c)))
  {
    RunKeeps(states, steps);
    assert CallOk(states[|steps|], c);
  }

  // A tool call in the table of a reader that has exited.
  ghost predicate IsLate(s: State, c: nat) {
    s.done && At(s, c, Waiting) && s.calls[c].kind == Tool && s.calls[c].id in s.pending
  }

  // The exception: a tool call that registered behind the drain waits for its
  // timeout, and nothing but that timeout changes this.
  lemma LateToolCallWaitsForTimeout(states: seq<State>, steps: seq<Step>, c: nat, step: Step)
    requires Run(states, steps) && states[|steps|].done && At(states[|steps|], c, Waiting)
    requires var s := states[|steps|]; s.calls[c].kind == Tool && s.calls[c].id in s.pending
    requires Enabled(states[|steps|], step) && step != Timeout(c)
    ensures var t := Apply(states[|steps|], step);
            At(t, c, Waiting) && t.calls[c].id in t.pending && !Enabled(t, Receive(c)) && t.done
  {
    RunKeeps(states, steps);
    var s := states[|steps|];
    assert CallOk(s, c);
    StaysWaiting(s, c, step);
  }

  lemma StaysWaiting(s: State, c: nat, step: Step)
    requires IdsDiffer(s) && s.reader.Exited? && s.done && At(s, c, Waiting)
    requires s.calls[c].kind == Tool && s.calls[c].id in s.pending && s.calls[c].slot.None? && !s.calls[c].closed
    requires Enabled(s, step) && step != Timeout(c)
    ensures var t := Apply(s, step);
            c < |t.calls| && t.calls[c] == s.calls[c] && s.calls[c].id in t.pending && t.done
  {
    if step.Unregister? {
      assert s.calls[step.c].id != s.calls[c].id;
    }
  }

  lemma Extend(states: seq<State>, steps: seq<Step>, step: Step, next: State) returns (longer: seq<State>, more: seq<Step>)
    requires Run(states, steps) && Enabled(states[|steps|], step) && next == Apply(states[|steps|], step)
    ensures Run(longer, more) && longer[|more|] == next
  {
    longer, more := states + [next], steps + [step];
  }

  // It happens: a tool call that begins before the drain and registers after
  // it.
  lemma LateToolCallIsReachable(prefix: string, access: Access)
    ensures exists states: seq<State>, steps: seq<Step> :: Run(states, steps) && IsLate(states[|steps|], 0)
  {
    var call := Call(Tool, access, prefix, 0, "", Starting, None, false);
    var s1 := Initial.(calls := [call]);
    var states, steps := Extend([Initial], [], NewCall(Tool, access, prefix), s1);
    call := call.(num := 1, id := MakeId(prefix, 1), pc := HasId);
    var s2 := s1.(calls := [call], lastId := 1);
    states, steps := Extend(states, steps, GenerateId(0), s2);
    DrainThenRegister(states, steps, call);
  }

  lemma DrainThenRegister(states: seq<State>, steps: seq<Step>, call: Call)
    requires Run(states, steps) && states[|steps|] == Initial.(calls := [call], lastId := 1)
    requires call.kind == Tool && call.pc == HasId && call.slot.None? && !call.closed
    ensures exists states: seq<State>, steps: seq<Step> :: Run(states, steps) && IsLate(states[|steps|], 0)
  {
    var more, done := states, steps;
    var s := Initial.(calls := [call.(pc := HasContext)], lastId := 1, contexts := map[call.id := 0]);
    more, done := Extend(more, done, SetContext(0), s);
    assert s.pending.Keys == {};
    s := s.(reader := Sweeping({}, {}, Between));
    more, done := Extend(more, done, Eof, s);
    s := s.(reader := Clearing({}));
    more, done := Extend(more, done, SweepEnd, s);
    s := s.(contexts := map[], reader := Closing({}));
    more, done := Extend(more, done, ClearContexts, s);
    s := s.(done := true, reader := Exited({}));
    more, done := Extend(more, done, CloseDone, s);
    s := s.(calls := [call.(pc := Registered)], pending := map[call.id := 0]);
    more, done := Extend(more, done, Register(0), s);
    s := s.(calls := [call.(pc := Waiting)]);
    more, done := Extend(more, done, Send(0, true), s);
    assert Run(more, done) && IsLate(more[|done|], 0);
  }
}
