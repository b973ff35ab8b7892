/**
  A whole session between the core and a plugin written with the SDK, for a
  plugin with concurrency 1: CallTool and ReadLoop on one side
  (internal/plugin/dispatch.go, internal/plugin/transport.go), Run,
  handleToolCall and waitFor on the other (pkg/handler/handler.go,
  pkg/handler/services.go), joined by two pipes.  Calls do not time out and no
  resource query interleaves.  Every message may fail to be encoded where it is
  written, and every message of the plugin may fail to be decoded by the core.
 */
module Session {
  import opened Wrappers
  import opened Routing

  // The messages on the pipes, down to their ids.
  datatype Wire = ToolCall(id: string) | Response(id: string) | Request(id: string, parent: string) | Result(id: string)

  // The caller that holds the handle's mutex, if any.
  datatype Caller = Free | Prepared(id: string) | Awaiting(id: string) | Finishing(id: string)

  // The core's reader handles one service request at a time.
  datatype CoreReader = Ready | Handling(id: string, found: bool)

  // The plugin's single thread: in Run, inside a tool function, or in waitFor.
  datatype Plugin = AtLoop | Running(call: string) | InWaitFor(call: string, request: string)

  // How a message gets lost; each place logs the failure and goes on.
  datatype Loss =
    | RequestUnsent     // send could not marshal the service request
    | RequestMalformed  // ReadLoop could not unmarshal it
    | ResponseUnsent    // ReadLoop could not marshal the response
    | ResultUnsent      // send could not marshal the tool result
    | ResultMalformed   // ReadLoop could not unmarshal it

  datatype World = World(
    caller: Caller, slot: Option<string>, lastId: nat,
    pending: set<string>, contexts: set<string>, core: CoreReader,
    toPlugin: seq<Wire>, toCore: seq<Wire>,
    plugin: Plugin, lastRequest: nat, lost: Option<Loss>,
    // What has happened so far.
    called: seq<string>, answered: seq<string>, returned: seq<(string, string)>,
    discarded: nat, orphaned: nat, refused: nat)

  const Start := World(Free, None, 0, {}, {}, Ready, [], [], AtLoop, 0, None, [], [], [], 0, 0, 0)

  datatype Move =
    | Lock
    | SendCall(marshals: bool)
    | CallerReceive
    | Unlock
    | CoreRead(parses: bool)
    | CoreRespond(marshals: bool)
    | PluginRead(known: bool)
    | PluginRequests(prefix: string, marshals: bool)
    | PluginAnswers(marshals: bool)

  ghost predicate CanMove(w: World, m: Move) {
    match m
    case Lock => w.caller.Free?
    case SendCall(_) => w.caller.Prepared?
    case CallerReceive => w.caller.Awaiting? && w.slot.Some?
    case Unlock => w.caller.Finishing?
    case CoreRead(_) => w.core.Ready? && w.toCore != []
    case CoreRespond(_) => w.core.Handling?
    case PluginRead(_) => !w.plugin.Running? && w.toPlugin != []
    case PluginRequests(_, _) => w.plugin.Running?
    case PluginAnswers(_) => w.plugin.Running?
  }

  function Next(w: World, m: Move): World
    requires CanMove(w, m)
  {
    match m
    case Lock =>
      var id := MakeId("req", w.lastId + 1);
      w.(caller := Prepared(id), lastId := w.lastId + 1, contexts := w.contexts + {id}, pending := w.pending + {id}, slot := None)
    case SendCall(marshals) =>
      if marshals then
        w.(caller := Awaiting(w.caller.id), toPlugin := w.toPlugin + [ToolCall(w.caller.id)], called := w.called + [w.caller.id])
      else
        w.(caller := Finishing(w.caller.id))
    case CallerReceive =>
      w.(caller := Finishing(w.caller.id), slot := None, returned := w.returned + [(w.caller.id, w.slot.value)])
    case Unlock =>
      w.(caller := Free, pending := w.pending - {w.caller.id}, contexts := w.contexts - {w.caller.id})
    case CoreRead(parses) =>
      var rest := w.(toCore := w.toCore[1..]);
      if parses then CoreReads(rest, w.toCore[0])
      else rest.(lost := Some(if w.toCore[0].Result? then ResultMalformed else RequestMalformed))
    case CoreRespond(marshals) =>
      var done := w.(core := Ready, refused := w.refused + (if w.core.found then 0 else 1));
      if marshals then done.(toPlugin := w.toPlugin + [Response(w.core.id)]) else done.(lost := Some(ResponseUnsent))
    case PluginRead(known) => PluginReads(w.(toPlugin := w.toPlugin[1..]), w.toPlugin[0], known)
    case PluginRequests(prefix, marshals) =>
      var id := MakeId(prefix, w.lastRequest + 1);
      var asked := w.(plugin := InWaitFor(w.plugin.call, id), lastRequest := w.lastRequest + 1);
      if marshals then asked.(toCore := w.toCore + [Request(id, w.plugin.call)]) else asked.(lost := Some(RequestUnsent))
    case PluginAnswers(marshals) =>
      var done := w.(plugin := AtLoop);
      if marshals then done.(toCore := w.toCore + [Result(w.plugin.call)], answered := w.answered + [w.plugin.call])
      else done.(lost := Some(ResultUnsent))
  }

  // One turn of ReadLoop.
  function CoreReads(w: World, msg: Wire): World {
    match msg
    case Request(id, parent) => w.(core := Handling(id, parent in w.contexts))
    case Result(id) =>
      if id in w.pending then w.(pending := w.pending - {id}, slot := Some(id)) else w.(orphaned := w.orphaned + 1)
    case _ => w
  }

  // One message read by the plugin: by Run, which starts the tool or, when it
  // does not know it, answers at once, or by waitFor, which skips everything
  // that does not bear the awaited id.
  function PluginReads(w: World, msg: Wire, known: bool): World {
    match w.plugin
    case InWaitFor(call, request) =>
      if msg.id == request then w.(plugin := Running(call)) else w.(discarded := w.discarded + 1)
    case _ =>
      if !msg.ToolCall? then w.(discarded := w.discarded + 1)
      else if known then w.(plugin := Running(msg.id))
      else w.(toCore := w.toCore + [Result(msg.id)], answered := w.answered + [msg.id])
  }

  ghost predicate Reachable(worlds: seq<World>, moves: seq<Move>) {
    && |worlds| == |moves| + 1 && worlds[0] == Start
    && forall i :: 0 <= i < |moves| ==> CanMove(worlds[i], moves[i]) && worlds[i + 1] == Next(worlds[i], moves[i])
  }

  /* ----- the shape of every reachable world ----- */

  ghost predicate Quiet(w: World) {
    w.core.Ready? && w.toPlugin == [] && w.toCore == []
  }

  // Where the conversation about the open call stands: exactly one party has
  // the turn, or one message carries it, or that message was lost.
  ghost predicate Turn(w: World, id: string) {
    match w.lost
    case Some(loss) => Quiet(w) && LostTurn(w.plugin, loss, id)
    case None =>
      || (w.plugin.AtLoop? && w.core.Ready? && w.toCore == [] && w.toPlugin == [ToolCall(id)])
      || (w.plugin == Running(id) && Quiet(w))
      || (w.plugin.InWaitFor? && w.plugin.call == id && RequestUnderWay(w, w.plugin.request, id))
      || (w.plugin.AtLoop? && w.core.Ready? && w.toPlugin == [] && w.toCore == [Result(id)])
  }

  ghost predicate RequestUnderWay(w: World, r: string, id: string) {
    || (w.core.Ready? && w.toPlugin == [] && w.toCore == [Request(r, id)])
    || (w.core == Handling(r, true) && w.toPlugin == [] && w.toCore == [])
    || (w.core.Ready? && w.toPlugin == [Response(r)] && w.toCore == [])
  }

  // Who waits for what after a loss.
  predicate LostTurn(plugin: Plugin, loss: Loss, id: string) {
    if loss.ResultUnsent? || loss.ResultMalformed? then plugin.AtLoop? else plugin.InWaitFor? && plugin.call == id
  }

  function Pairs(ids: seq<string>): seq<(string, string)> {
    seq(|ids|, i requires 0 <= i < |ids| => (ids[i], ids[i]))
  }

  // The plugin has read the open call and answered it.
  predicate Answered(w: World) {
    w.plugin.AtLoop? && w.toPlugin == [] && w.lost != Some(ResultUnsent)
  }

  ghost predicate Shape(w: World) {
    && w.discarded == 0 && w.orphaned == 0 && w.refused == 0
    && (w.lost.Some? ==> w.caller.Awaiting? && w.slot.None?)
    && match w.caller
       case Free =>
         w.plugin.AtLoop? && Quiet(w) && w.slot.None? && w.contexts == {} && w.pending == {}
         && w.answered == w.called && w.returned == Pairs(w.called)
       case Prepared(id) =>
         w.plugin.AtLoop? && Quiet(w) && w.slot.None? && w.contexts == {id} && w.pending == {id}
         && w.answered == w.called && w.returned == Pairs(w.called)
       case Awaiting(id) =>
         && w.contexts == {id} && w.called != [] && w.called[|w.called| - 1] == id
         && w.returned == Pairs(w.called[..|w.called| - 1])
         && w.answered == (if Answered(w) then w.called else w.called[..|w.called| - 1])
         && (if w.slot.Some? then w.slot == Some(id) && w.plugin.AtLoop? && Quiet(w) && w.pending == {}
             else w.pending == {id} && Turn(w, id))
       case Finishing(id) =>
         w.plugin.AtLoop? && Quiet(w) && w.slot.None? && w.contexts == {id} && w.pending <= {id}
         && w.answered == w.called && w.returned == Pairs(w.called)
  }

  lemma LockingKeepsShape(w: World, m: Move)
    requires Shape(w) && CanMove(w, m) && (m.Lock? || m.Unlock?)
    ensures Shape(Next(w, m))
  {
  }

  lemma SendKeepsShape(w: World, m: Move)
    requires Shape(w) && CanMove(w, m) && m.SendCall?
    ensures Shape(Next(w, m))
  {
    var t := Next(w, m);
    assert m.marshals ==> t.called[..|t.called| - 1] == w.called;
  }

  lemma ReceiveKeepsShape(w: World, m: Move)
    requires Shape(w) && CanMove(w, m) && m.CallerReceive?
    ensures Shape(Next(w, m))
  {
    var n := |w.called| - 1;
    assert w.called == w.called[..n] + [w.caller.id];
    assert Pairs(w.called[..n]) + [(w.caller.id, w.caller.id)] == Pairs(w.called);
  }

  lemma CoreKeepsShape(w: World, m: Move)
    requires Shape(w) && CanMove(w, m) && (m.CoreRead? || m.CoreRespond?)
    ensures Shape(Next(w, m))
  {
  }

  lemma PluginReadKeepsShape(w: World, m: Move)
    requires Shape(w) && CanMove(w, m) && m.PluginRead?
    ensures Shape(Next(w, m))
  {
    assert w.called == w.called[..|w.called| - 1] + [w.called[|w.called| - 1]];
    assert w.toPlugin[1..] == [];
  }

  lemma PluginWriteKeepsShape(w: World, m: Move)
    requires Shape(w) && CanMove(w, m) && (m.PluginRequests? || m.PluginAnswers?)
    ensures Shape(Next(w, m))
  {
    assert w.called == w.called[..|w.called| - 1] + [w.called[|w.called| - 1]];
  }

  lemma MoveKeepsShape(w: World, m: Move)
    requires Shape(w) && CanMove(w, m)
    ensures Shape(Next(w, m))
  {
    match m
    case Lock => LockingKeepsShape(w, m);
    case SendCall(_) => SendKeepsShape(w, m);
    case CallerReceive => ReceiveKeepsShape(w, m);
    case Unlock => LockingKeepsShape(w, m);
    case CoreRead(_) => CoreKeepsShape(w, m);
    case CoreRespond(_) => CoreKeepsShape(w, m);
    case PluginRead(_) => PluginReadKeepsShape(w, m);
    case PluginRequests(_, _) => PluginWriteKeepsShape(w, m);
    case PluginAnswers(_) => PluginWriteKeepsShape(w, m);
  }

  lemma {:induction false} ReachableShape(worlds: seq<World>, moves: seq<Move>)
    requires Reachable(worlds, moves)
    ensures Shape(worlds[|moves|])
  {
    if moves != [] {
      var n := |moves| - 1;
      ReachableShape(worlds[..n + 1], moves[..n]);
      MoveKeepsShape(worlds[n], moves[n]);
    }
  }

  /* ----- the promises ----- */

  function InFlightMessages(w: World): nat {
    |w.toPlugin| + |w.toCore| + if w.core.Handling? then 1 else 0
  }

  // At most one message is in flight; waitFor and Run never discard one, no
  // result is orphaned and no service request lacks its call's context.
  lemma OneMessageAtATime(worlds: seq<World>, moves: seq<Move>)
    requires Reachable(worlds, moves)
    ensures var w := worlds[|moves|];
            InFlightMessages(w) <= 1 && w.discarded == 0 && w.orphaned == 0 && w.refused == 0
  {
    ReachableShape(worlds, moves);
  }

  // Whoever reads next finds what it waits for: waitFor the response to its
  // request, Run a tool call, and the core the result of the open call or a
  // request made under its context.
  lemma EveryMessageIsExpected(worlds: seq<World>, moves: seq<Move>)
    requires Reachable(worlds, moves)
    ensures var w := worlds[|moves|];
            && (w.toPlugin != [] && w.plugin.InWaitFor? ==> w.toPlugin[0] == Response(w.plugin.request))
            && (w.toPlugin != [] && !w.plugin.InWaitFor? ==> w.plugin.AtLoop? && w.caller.Awaiting? && w.toPlugin[0] == ToolCall(w.caller.id))
            && (w.toCore != [] ==>
                  w.caller.Awaiting? && match w.toCore[0]
                                        case Result(id) => id == w.caller.id && id in w.pending
                                        case Request(_, parent) => parent == w.caller.id && parent in w.contexts
                                        case _ => false)
            && (w.core.Handling? ==> w.core.found)
  {
    ReachableShape(worlds, moves);
  }

  // Tool calls and results pair up in order: the plugin has answered every
  // call it was sent except possibly the open one, once and under its id, and
  // every caller that returned with a result got that of its own call.
  lemma ResultsMatchCalls(worlds: seq<World>, moves: seq<Move>)
    requires Reachable(worlds, moves)
    ensures var w := worlds[|moves|];
            && w.answered <= w.called && |w.called| <= |w.answered| + 1
            && (forall i :: 0 <= i < |w.returned| ==> i < |w.called| && w.returned[i] == (w.called[i], w.called[i]))
            && (w.caller.Free? ==> w.answered == w.called && |w.returned| == |w.called|)
  {
    ReachableShape(worlds, moves);
  }

  /* ----- whose results they are ----- */

  function Locks(moves: seq<Move>): nat {
    if moves == [] then 0 else Locks(moves[..|moves| - 1]) + if moves[|moves| - 1].Lock? then 1 else 0
  }

  // The numbers of the calls that were sent, straight from the moves: the n-th
  // locking caller makes the n-th call.
  function Sent(moves: seq<Move>): seq<nat> {
    if moves == [] then []
    else
      var init, last := moves[..|moves| - 1], moves[|moves| - 1];
      Sent(init) + if last == SendCall(true) then [Locks(init)] else []
  }

  ghost predicate Numbered(w: World, moves: seq<Move>) {
    && w.lastId == Locks(moves)
    && w.called == seq(|Sent(moves)|, i requires 0 <= i < |Sent(moves)| => MakeId("req", Sent(moves)[i]))
    && (!w.caller.Free? ==> w.caller.id == MakeId("req", Locks(moves)))
    && (forall i :: 0 <= i < |Sent(moves)| ==> Sent(moves)[i] <= Locks(moves) && (w.caller.Prepared? ==> Sent(moves)[i] < Locks(moves)))
    && (forall i, j :: 0 <= i < j < |Sent(moves)| ==> Sent(moves)[i] < Sent(moves)[j])
  }

  lemma MoveKeepsNumbers(w: World, moves: seq<Move>, m: Move)
    requires Numbered(w, moves) && CanMove(w, m)
    ensures Numbered(Next(w, m), moves + [m])
  {
    var longer := moves + [m];
    assert longer[..|moves|] == moves && longer[|moves|] == m;
    CallsStay(w, m);
  }

  lemma CallsStay(w: World, m: Move)
    requires CanMove(w, m)
    ensures var t := Next(w, m);
            && t.lastId == w.lastId + (if m.Lock? then 1 else 0)
            && t.called == w.called + (if m == SendCall(true) then [w.caller.id] else [])
            && (t.caller.Prepared? ==> m.Lock? || w.caller.Prepared?)
            && (!t.caller.Free? ==> t.caller.id == if m.Lock? then MakeId("req", t.lastId) else w.caller.id)
            && (!t.caller.Free? && !m.Lock? ==> !w.caller.Free?)
            && (m.SendCall? ==> !t.caller.Prepared?)
  {
  }

  lemma {:induction false} ReachableNumbered(worlds: seq<World>, moves: seq<Move>)
    requires Reachable(worlds, moves)
    ensures Numbered(worlds[|moves|], moves)
  {
    if moves != [] {
      var n := |moves| - 1;
      ReachableNumbered(worlds[..n + 1], moves[..n]);
      MoveKeepsNumbers(worlds[n], moves[..n], moves[n]);
      assert moves == moves[..n] + [moves[n]];
    }
  }

  // Every call that was sent has its own id, so a result that bears the id of
  // a call can be that call's only; a call that could not be sent is not
  // among them.
  lemma CallsHaveOwnIds(worlds: seq<World>, moves: seq<Move>)
    requires Reachable(worlds, moves)
    ensures var w := worlds[|moves|];
            && |w.called| == |Sent(moves)|
            && (forall i :: 0 <= i < |w.called| ==> w.called[i] == MakeId("req", Sent(moves)[i]))
            && (forall i, j :: 0 <= i < j < |w.called| ==> w.called[i] != w.called[j])
  {
    ReachableNumbered(worlds, moves);
    var w := worlds[|moves|];
    forall i, j | 0 <= i < j < |w.called| ensures w.called[i] != w.called[j] {
      if w.called[i] == w.called[j] {
        IdsDistinct("req", Sent(moves)[i], "req", Sent(moves)[j]);
      }
    }
  }

  lemma {:induction false} RequestsCountUp(worlds: seq<World>, moves: seq<Move>, k: nat, n: nat)
    requires Reachable(worlds, moves) && k <= n <= |moves|
    ensures worlds[k].lastRequest <= worlds[n].lastRequest
  {
    if k < n {
      RequestsCountUp(worlds, moves, k, n - 1);
      assert worlds[n] == Next(worlds[n - 1], moves[n - 1]);
    }
  }

  // Every service request has its own id too, so waitFor cannot take the
  // response to one for that to another.
  lemma RequestsHaveOwnIds(worlds: seq<World>, moves: seq<Move>, i: nat, j: nat)
    requires Reachable(worlds, moves) && i < j < |moves| && moves[i].PluginRequests? && moves[j].PluginRequests?
    ensures worlds[i + 1].plugin.InWaitFor? && worlds[j + 1].plugin.InWaitFor?
    ensures worlds[i + 1].plugin.request != worlds[j + 1].plugin.request
  {
    assert worlds[i + 1] == Next(worlds[i], moves[i]) && worlds[j + 1] == Next(worlds[j], moves[j]);
    assert CanMove(worlds[i], moves[i]) && CanMove(worlds[j], moves[j]);
    RequestsCountUp(worlds, moves, i + 1, j);
    if worlds[i + 1].plugin.request == worlds[j + 1].plugin.request {
      IdsDistinct(moves[i].prefix, worlds[i + 1].lastRequest, moves[j].prefix, worlds[j + 1].lastRequest);
    }
  }

  // A plugin that knows none of the tools it is asked for runs none, and still
  // answers every call.
  lemma {:induction false} UnknownToolsNeverRun(worlds: seq<World>, moves: seq<Move>)
    requires Reachable(worlds, moves) && forall i :: 0 <= i < |moves| ==> moves[i] != PluginRead(true)
    ensures worlds[|moves|].plugin.AtLoop? && worlds[|moves|].lost != Some(ResultUnsent)
  {
    if moves != [] {
      var n := |moves| - 1;
      UnknownToolsNeverRun(worlds[..n + 1], moves[..n]);
    }
  }

  /* ----- getting stuck ----- */

  ghost predicate Stuck(w: World) {
    forall m :: !CanMove(w, m)
  }

  // While a call is open some step is possible unless a message was lost; once
  // one was, nothing moves until the call times out.
  lemma StuckIffLost(worlds: seq<World>, moves: seq<Move>)
    requires Reachable(worlds, moves)
    ensures var w := worlds[|moves|];
            !w.caller.Free? ==> (Stuck(w) <==> w.lost.Some?)
  {
    ReachableShape(worlds, moves);
    var w := worlds[|moves|];
    if !w.caller.Free? && w.lost.None? {
      var m :=
        if w.caller.Prepared? then SendCall(true)
        else if w.caller.Finishing? then Unlock
        else if w.slot.Some? then CallerReceive
        else if w.plugin.Running? then PluginAnswers(true)
        else if w.core.Handling? then CoreRespond(true)
        else if w.toCore != [] then CoreRead(true)
        else PluginRead(true);
      assert CanMove(w, m);
    }
  }

  // The moves that lose a message of the conversation.  A tool call that could
  // not be sent is no loss: its caller returns at once.
  predicate Loses(m: Move) {
    match m
    case CoreRead(parses) => !parses
    case CoreRespond(marshals) => !marshals
    case PluginRequests(_, marshals) => !marshals
    case PluginAnswers(marshals) => !marshals
    case _ => false
  }

  lemma {:induction false} LostIffLosingMove(worlds: seq<World>, moves: seq<Move>)
    requires Reachable(worlds, moves)
    ensures worlds[|moves|].lost.Some? <==> exists i :: 0 <= i < |moves| && Loses(moves[i])
  {
    if moves != [] {
      var n := |moves| - 1;
      LostIffLosingMove(worlds[..n + 1], moves[..n]);
      assert worlds[n + 1].lost.Some? <==> worlds[n].lost.Some? || Loses(moves[n]);
      assert moves == moves[..n] + [moves[n]];
    }
  }

  // Every kind of loss can happen, already in the first call.
  lemma EveryLossHangs(prefix: string, loss: Loss)
    ensures exists worlds: seq<World>, moves: seq<Move> ::
              Reachable(worlds, moves) && Stuck(worlds[|moves|]) && worlds[|moves|].caller.Awaiting? && worlds[|moves|].lost == Some(loss)
  {
    var worlds, moves := LosingRun(prefix, loss);
    StuckIffLost(worlds, moves);
  }

  // While a call is open some step is possible, except exactly after a move
  // that lost a message of the conversation.
  lemma OpenCallStuckIff(worlds: seq<World>, moves: seq<Move>)
    requires Reachable(worlds, moves) && !worlds[|moves|].caller.Free?
    ensures Stuck(worlds[|moves|]) <==> exists i :: 0 <= i < |moves| && Loses(moves[i])
  {
    StuckIffLost(worlds, moves);
    LostIffLosingMove(worlds, moves);
  }

  // One more move.
  lemma Extend(worlds: seq<World>, moves: seq<Move>, m: Move) returns (longer: seq<World>)
    requires Reachable(worlds, moves) && CanMove(worlds[|moves|], m)
    ensures Reachable(longer, moves + [m]) && longer[|moves| + 1] == Next(worlds[|moves|], m)
  {
    longer := worlds + [Next(worlds[|moves|], m)];
  }

  lemma LosingRun(prefix: string, loss: Loss) returns (worlds: seq<World>, moves: seq<Move>)
    ensures Reachable(worlds, moves) && worlds[|moves|].caller.Awaiting? && worlds[|moves|].lost == Some(loss)
  {
    var ms := [Lock, SendCall(true), PluginRead(true)];
    var w1 := Next(Start, Lock);
    var w2 := Next(w1, SendCall(true));
    var w3 := Next(w2, PluginRead(true));
    var ws := [Start, w1, w2, w3];
    assert Reachable(ws, ms);
    match loss
    case RequestUnsent =>
      moves := ms + [PluginRequests(prefix, false)];
      worlds := Extend(ws, ms, PluginRequests(prefix, false));
    case ResultUnsent =>
      moves := ms + [PluginAnswers(false)];
      worlds := Extend(ws, ms, PluginAnswers(false));
    case ResultMalformed =>
      ws := Extend(ws, ms, PluginAnswers(true));
      ms := ms + [PluginAnswers(true)];
      moves := ms + [CoreRead(false)];
      worlds := Extend(ws, ms, CoreRead(false));
    case RequestMalformed =>
      ws := Extend(ws, ms, PluginRequests(prefix, true));
      ms := ms + [PluginRequests(prefix, true)];
      moves := ms + [CoreRead(false)];
      worlds := Extend(ws, ms, CoreRead(false));
    case ResponseUnsent =>
      ws := Extend(ws, ms, PluginRequests(prefix, true));
      ms := ms + [PluginRequests(prefix, true)];
      ws := Extend(ws, ms, CoreRead(true));
      ms := ms + [CoreRead(true)];
      moves := ms + [CoreRespond(false)];
      worlds := Extend(ws, ms, CoreRespond(false));
  }
}
