/** The WebSocket front of the server (server/index.js): the registries of
    clients and of their message queues, the `connected` greeting, the
    send and broadcast guards, the queueing of each parsed message, the
    dispatch by message type, and the error reported when a queued job
    fails. What each client has been sent is recorded per client, in
    order. */
module Server {
  import opened Wrappers
  import opened Js
  import opened Protocol
  import MQ = MessageQueue
  import TO = TaskOrchestrator
  import CB = ContextBuilder
  import AP = ApiPoller

  /** `clients` maps each registered id to whether its socket is OPEN
      (`readyState === 1`); `registry` is the set of ids `clientQueues`
      holds; `queues` is the queue each connection's message handler
      captured, which outlives the connection; `messages` holds, per
      client, the parsed message of each job in submission order; and
      `inbox` what each client has been sent. */
  datatype Server = Server(
    clients: map<string, bool>,
    registry: set<string>,
    queues: map<string, MQ.Queue>,
    messages: map<string, seq<Value>>,
    inbox: map<string, seq<ServerEvent>>)

  function Inbox(s: Server, id: string): seq<ServerEvent> {
    if id in s.inbox then s.inbox[id] else []
  }

  function Messages(s: Server, id: string): seq<Value> {
    if id in s.messages then s.messages[id] else []
  }

  predicate IsOpen(s: Server, id: string) {
    id in s.clients && s.clients[id]
  }

  /** The registries agree, every registered client has its queue, every
      queue is a reachable one, and each job has its message. */
  ghost predicate Wf(s: Server) {
    && s.clients.Keys == s.registry
    && s.registry <= s.queues.Keys
    && forall id :: id in s.queues ==> MQ.Inv(s.queues[id]) && |Messages(s, id)| == s.queues[id].submitted
  }

  // ---------------------------------------------------------------------
  // Connections
  // ---------------------------------------------------------------------

  /** `parseInt(process.env.MAX_CONCURRENT_TASKS_PER_CLIENT) || 3` */
  function ConcurrencyOf(env: string): int {
    CB.EnvIntAnyRadix(env, MQ.DefaultMaxConcurrency)
  }

  /** A new connection with the fresh id `id`: the socket and a new queue
      are registered and the client is greeted with its id and limit. */
  function Connect(s: Server, id: string, env: string): (r: Server)
    ensures r.clients == s.clients[id := true] && r.registry == s.registry + {id}
    ensures r.queues == s.queues[id := MQ.NewQueue(ConcurrencyOf(env))] && r.messages == s.messages[id := []]
    ensures Inbox(r, id) == Inbox(s, id) + [Connected(id, ConcurrencyOf(env))]
    ensures forall c :: c != id ==> Inbox(r, c) == Inbox(s, c)
  {
    Server(s.clients[id := true], s.registry + {id}, s.queues[id := MQ.NewQueue(ConcurrencyOf(env))], s.messages[id := []],
           s.inbox[id := Inbox(s, id) + [Connected(id, ConcurrencyOf(env))]])
  }

  /** The socket starts closing: it stays registered but is no longer
      OPEN. */
  function Closing(s: Server, id: string): (r: Server)
    ensures !IsOpen(r, id) && r.clients.Keys == s.clients.Keys
    ensures forall c :: c != id ==> (IsOpen(r, c) <==> IsOpen(s, c))
    ensures r.registry == s.registry && r.queues == s.queues && r.messages == s.messages && r.inbox == s.inbox
  {
    if id in s.clients then s.(clients := s.clients[id := false]) else s
  }

  /** `close`: the client and its queue leave both registries. The queue
      itself lives on in the connection's message handler, so its running
      and waiting jobs are kept. */
  function Close(s: Server, id: string): (r: Server)
    ensures id !in r.clients && id !in r.registry
    ensures forall c :: c != id ==> (c in r.clients <==> c in s.clients) && (c in r.registry <==> c in s.registry)
    ensures forall c :: c != id && c in s.clients ==> r.clients[c] == s.clients[c]
    ensures r.queues == s.queues && r.messages == s.messages && r.inbox == s.inbox
  {
    s.(clients := s.clients - {id}, registry := s.registry - {id})
  }

  /** Closing a connection just opened under a fresh id leaves both
      registries as they were, and keeps the connection's queue. */
  lemma ConnectThenClose(s: Server, id: string, env: string)
    requires id !in s.clients && id !in s.registry
    ensures var r := Close(Connect(s, id, env), id);
      && r.clients == s.clients && r.registry == s.registry
      && id in r.queues && r.queues[id] == MQ.NewQueue(ConcurrencyOf(env))
  {
  }

  lemma ConnectWf(s: Server, id: string, env: string)
    requires Wf(s)
    ensures Wf(Connect(s, id, env))
  {
    WfAdd(s, Connect(s, id, env), id, MQ.NewQueue(ConcurrencyOf(env)));
  }

  /** Registering a client with a new, empty queue keeps the server well
      formed. */
  lemma WfAdd(s: Server, t: Server, id: string, q: MQ.Queue)
    requires Wf(s) && MQ.Inv(q) && q.submitted == 0
    requires t.clients.Keys == s.clients.Keys + {id} && t.registry == s.registry + {id}
    requires t.queues == s.queues[id := q] && t.messages == s.messages[id := []]
    ensures Wf(t)
  {
    forall c | c in t.queues
      ensures MQ.Inv(t.queues[c]) && |Messages(t, c)| == t.queues[c].submitted
    {
      if c != id {
        assert Messages(t, c) == Messages(s, c);
      }
    }
  }

  lemma CloseWf(s: Server, id: string)
    requires Wf(s)
    ensures Wf(Close(s, id))
  {
    var r := Close(s, id);
    assert r.clients.Keys == s.clients.Keys - {id};
    assert forall c :: Messages(r, c) == Messages(s, c);
  }

  lemma ClosingWf(s: Server, id: string)
    requires Wf(s)
    ensures Wf(Closing(s, id))
  {
    var r := Closing(s, id);
    assert r.queues == s.queues && r.messages == s.messages;
  }

  // ---------------------------------------------------------------------
  // Sending
  // ---------------------------------------------------------------------

  /** The clients `broadcast` writes to: the open ones other than the
      excluded one. */
  function Recipients(s: Server, exclude: Option<string>): (r: set<string>)
    ensures forall c :: c in r <==> IsOpen(s, c) && exclude != Some(c)
  {
    set c | c in s.clients && s.clients[c] && exclude != Some(c)
  }

  /** `ev` written to every client in `to`. */
  function Post(s: Server, to: set<string>, ev: ServerEvent): (r: Server)
    ensures forall c :: Inbox(r, c) == if c in to then Inbox(s, c) + [ev] else Inbox(s, c)
    ensures r.clients == s.clients && r.registry == s.registry && r.queues == s.queues && r.messages == s.messages
  {
    s.(inbox := map c | c in s.inbox.Keys + to :: if c in to then Inbox(s, c) + [ev] else s.inbox[c])
  }

  /** What one effect sends to client `id`: `sendToClient` writes only to
      an open socket, `broadcast` (never excluding anyone there) goes to
      every open socket, and the store writes reach no client. */
  function SentBy(e: TO.Effect, s: Server, id: string): seq<ServerEvent> {
    if ((e.Send? && e.clientId == id) || e.Broadcast?) && IsOpen(s, id) then [e.event] else []
  }

  /** What a client is sent by the effects, in order. */
  function SentTo(effects: seq<TO.Effect>, s: Server, id: string): seq<ServerEvent>
    decreases |effects|
  {
    if |effects| == 0 then [] else SentBy(effects[0], s, id) + SentTo(effects[1..], s, id)
  }

  /** One effect of the orchestrator, delivered. */
  function Deliver(s: Server, e: TO.Effect): (r: Server)
    ensures r.clients == s.clients && r.registry == s.registry && r.queues == s.queues && r.messages == s.messages
    ensures forall c :: Inbox(r, c) == Inbox(s, c) + SentBy(e, s, c)
  {
    match e
    case Send(c, ev) => if IsOpen(s, c) then Post(s, {c}, ev) else s
    case Broadcast(ev) => Post(s, Recipients(s, None), ev)
    case _ => s
  }

  /** The effects in order. */
  function DeliverAll(s: Server, effects: seq<TO.Effect>): (r: Server)
    ensures r.clients == s.clients && r.registry == s.registry && r.queues == s.queues && r.messages == s.messages
    decreases |effects|
  {
    if |effects| == 0 then s else DeliverAll(Deliver(s, effects[0]), effects[1..])
  }

  /** An open client receives, in order, exactly the events addressed to
      it and the broadcasts. */
  lemma {:induction false} DeliverAllSends(s: Server, effects: seq<TO.Effect>, id: string)
    ensures Inbox(DeliverAll(s, effects), id) == Inbox(s, id) + SentTo(effects, s, id)
    decreases |effects|
  {
    if |effects| > 0 {
      var s1 := Deliver(s, effects[0]);
      var a, b, c := Inbox(s, id), SentBy(effects[0], s, id), SentTo(effects[1..], s, id);
      DeliverAllSends(s1, effects[1..], id);
      SentToOpen(effects[1..], s1, s, id);
      assert Inbox(s1, id) == a + b;
      assert DeliverAll(s, effects) == DeliverAll(s1, effects[1..]);
      assert SentTo(effects, s, id) == b + c;
      CB.Assoc(a, b, c);
    }
  }

  lemma {:induction false} SentToOpen(effects: seq<TO.Effect>, s: Server, t: Server, id: string)
    requires IsOpen(s, id) == IsOpen(t, id)
    ensures SentTo(effects, s, id) == SentTo(effects, t, id)
    decreases |effects|
  {
    if |effects| > 0 {
      SentToOpen(effects[1..], s, t, id);
    }
  }

  lemma {:induction false} SentToClosed(effects: seq<TO.Effect>, s: Server, id: string)
    requires !IsOpen(s, id)
    ensures SentTo(effects, s, id) == []
    decreases |effects|
  {
    if |effects| > 0 {
      SentToClosed(effects[1..], s, id);
    }
  }

  /** A client that is closed or unknown is sent nothing; in particular
      nothing reaches a client after it closed. */
  lemma ClosedClientHearsNothing(s: Server, id: string, effects: seq<TO.Effect>)
    requires !IsOpen(s, id)
    ensures Inbox(DeliverAll(s, effects), id) == Inbox(s, id)
  {
    DeliverAllSends(s, effects, id);
    SentToClosed(effects, s, id);
  }

  // ---------------------------------------------------------------------
  // Messages and the queue
  // ---------------------------------------------------------------------

  /** A message from client `id`, as `JSON.parse` left it (None when it
      threw: the error is logged and nothing else happens). A parsed
      message becomes a job at the tail of the client's queue. */
  function Receive(s: Server, id: string, parsed: Option<Value>): (r: Server)
    ensures parsed.None? || id !in s.clients || id !in s.queues ==> r == s
    ensures parsed.Some? && id in s.clients && id in s.queues ==>
      r.queues == s.queues[id := MQ.Add(s.queues[id])] && Messages(r, id) == Messages(s, id) + [parsed.value]
    ensures r.clients == s.clients && r.registry == s.registry && r.inbox == s.inbox
  {
    if parsed.None? || id !in s.clients || id !in s.queues then s
    else s.(queues := s.queues[id := MQ.Add(s.queues[id])], messages := s.messages[id := Messages(s, id) + [parsed.value]])
  }

  lemma ReceiveWf(s: Server, id: string, parsed: Option<Value>)
    requires Wf(s)
    ensures Wf(Receive(s, id, parsed))
  {
    if parsed.Some? && id in s.clients && id in s.queues {
      var q := MQ.Add(s.queues[id]);
      MQ.AddInv(s.queues[id]);
      AddedSubmitted(s.queues[id]);
      WfAppend(s, Receive(s, id, parsed), id, q, parsed.value);
    }
  }

  /** Adding a job counts one more submission. */
  lemma AddedSubmitted(q: MQ.Queue)
    ensures MQ.Add(q).submitted == q.submitted + 1
  {
  }

  /** Replacing one queue by a reachable queue with one more submission,
      and appending that submission's message, keeps the server well
      formed. */
  lemma WfAppend(s: Server, t: Server, id: string, q: MQ.Queue, m: Value)
    requires Wf(s) && id in s.queues && MQ.Inv(q) && q.submitted == s.queues[id].submitted + 1
    requires t.clients == s.clients && t.registry == s.registry && t.queues == s.queues[id := q]
    requires t.messages == s.messages[id := Messages(s, id) + [m]]
    ensures Wf(t)
  {
    forall c | c in t.queues
      ensures MQ.Inv(t.queues[c]) && |Messages(t, c)| == t.queues[c].submitted
    {
      if c != id {
        assert Messages(t, c) == Messages(s, c);
      }
    }
  }

  /** The text of an id field: `value || null`, with a non-string id read
      as absent. */
  function Text(v: Value): string {
    if v.Str? then v.s else ""
  }


  /** The `data` of a `chat` message. */
  function ChatInputOf(data: Value): TO.ChatInput {
    TO.ChatInput(Text(Get(data, "messageId")), Text(Get(data, "sessionId")), Text(Get(data, "userId")),
                 Text(Get(data, "content")), Text(Get(data, "parentNodeId")))
  }

  /** The `data` of a `reexecute` message. */
  function ReexecuteInputOf(data: Value): TO.ReexecuteInput {
    TO.ReexecuteInput(Text(Get(data, "sessionId")), Text(Get(data, "userId")), Text(Get(data, "intentNodeId")),
                      Text(Get(data, "userContent")))
  }

  /** Everything a job can touch: the server, the orchestrator's state and
      the API poller; `crashed` records that the process has exited on an
      unhandled rejection, after which nothing runs. */
  datatype World = World(server: Server, tasks: TO.State, poller: AP.Poller, crashed: bool)

  /** What the outside world supplies to one job: the chat and
      re-execution oracles, the id of a new poller and the outcome of its
      `INSERT` (the error it rejected with, if it did). */
  datatype JobOracle = JobOracle(chat: TO.InputOracle, reexecute: TO.Oracle, pollerId: string, pollerInsert: Option<string>)

  /** The job's result: the world after it and the exception it rejected
      with, if any. */
  datatype Handled = Handled(world: World, failure: Option<string>)

  function Destructurable(v: Value): bool {
    !v.Undefined? && !v.Null?
  }

  /** A `reexecute` message for a stored interrupt intent, whose handling
      leaves an unhandled rejection behind. */
  predicate ReexecutesInterrupt(w: World, msg: Value) {
    && Destructurable(msg) && Get(msg, "type") == Str("reexecute") && Destructurable(Get(msg, "data"))
    && TO.LeavesUnhandledRejection(w.tasks, ReexecuteInputOf(Get(msg, "data")))
  }

  /** `handleWebSocketMessage` for a message of client `id`. `subscribe`
      goes to the subscription manager, which is not part of this model. */
  function Handle(w: World, cfg: TO.Config, id: string, msg: Value, o: JobOracle): (r: Handled)
    ensures !Destructurable(msg) ==> r == Handled(w, Some(DestructureError("type", "message", msg)))
    ensures Destructurable(msg) && Get(msg, "type") !in {Str("chat"), Str("reexecute"), Str("poll_api")} ==> r == Handled(w, None)
    ensures Destructurable(msg) && Get(msg, "type") == Str("chat") && !Destructurable(Get(msg, "data")) ==>
      r == Handled(w, Some(DestructureError("messageId", "data", Get(msg, "data"))))
    ensures Destructurable(msg) && Get(msg, "type") == Str("reexecute") && !Destructurable(Get(msg, "data")) ==>
      r == Handled(w, Some(DestructureError("sessionId", "data", Get(msg, "data"))))
    ensures r.world.server.clients == w.server.clients && r.world.server.registry == w.server.registry
    ensures r.world.server.queues == w.server.queues
    ensures r.world.server.messages == w.server.messages
    ensures r.world.crashed <==> w.crashed || ReexecutesInterrupt(w, msg)
  {
    if !Destructurable(msg) then Handled(w, Some(DestructureError("type", "message", msg)))
    else
      var kind := Get(msg, "type");
      var data := Get(msg, "data");
      if kind == Str("chat") then
        if !Destructurable(data) then Handled(w, Some(DestructureError("messageId", "data", data)))
        else
          var x := TO.HandleUserInput(w.tasks, cfg, id, ChatInputOf(data), o.chat);
          Handled(w.(server := DeliverAll(w.server, x.effects), tasks := x.state), x.failure)
      else if kind == Str("reexecute") then
        if !Destructurable(data) then Handled(w, Some(DestructureError("sessionId", "data", data)))
        else
          var x := TO.HandleReexecute(w.tasks, cfg, id, ReexecuteInputOf(data), o.reexecute);
          Handled(w.(server := DeliverAll(w.server, x.effects), tasks := x.state,
                     crashed := w.crashed || TO.LeavesUnhandledRejection(w.tasks, ReexecuteInputOf(data))), x.failure)
      else if kind == Str("poll_api") then
        match AP.AddPoller(w.poller, data, o.pollerId, o.pollerInsert)
        case Err(e) => Handled(w, Some(e))
        case Ok((p, ev)) => Handled(w.(server := Post(w.server, Recipients(w.server, None), ev), poller := p), None)
      else Handled(w, None)
  }

  /** A chat message runs `handleUserInput` and its effects are delivered;
      a re-execution runs `handleReexecute`. */
  lemma DispatchChat(w: World, cfg: TO.Config, id: string, msg: Value, o: JobOracle)
    requires Destructurable(msg) && Get(msg, "type") == Str("chat") && Destructurable(Get(msg, "data"))
    ensures var x := TO.HandleUserInput(w.tasks, cfg, id, ChatInputOf(Get(msg, "data")), o.chat);
      Handle(w, cfg, id, msg, o) == Handled(w.(server := DeliverAll(w.server, x.effects), tasks := x.state), x.failure)
  {
  }

  lemma DispatchReexecute(w: World, cfg: TO.Config, id: string, msg: Value, o: JobOracle)
    requires Destructurable(msg) && Get(msg, "type") == Str("reexecute") && Destructurable(Get(msg, "data"))
    ensures var x := TO.HandleReexecute(w.tasks, cfg, id, ReexecuteInputOf(Get(msg, "data")), o.reexecute);
      Handle(w, cfg, id, msg, o)
        == Handled(w.(server := DeliverAll(w.server, x.effects), tasks := x.state,
                      crashed := w.crashed || TO.LeavesUnhandledRejection(w.tasks, ReexecuteInputOf(Get(msg, "data")))), x.failure)
  {
  }

  /** A `poll_api` message registers a poller and tells every open client;
      when the poller's `INSERT` rejects, the job fails with that error and
      nothing changes. */
  lemma DispatchPollApi(w: World, cfg: TO.Config, id: string, msg: Value, o: JobOracle)
    requires Destructurable(msg) && Get(msg, "type") == Str("poll_api") && Destructurable(Get(msg, "data"))
    ensures var r := Handle(w, cfg, id, msg, o);
      && (o.pollerInsert.Some? ==> r == Handled(w, o.pollerInsert))
      && (o.pollerInsert.None? ==>
            && r.failure.None?
            && o.pollerId in r.world.poller.pollers
            && r.world.tasks == w.tasks
            && forall c :: IsOpen(w.server, c) ==> Inbox(r.world.server, c) == Inbox(w.server, c) + [PollerAdded(o.pollerId, AP.ConfigValue(o.pollerId, AP.ConfigOf(Get(msg, "data"))))])
  {
  }

  /** The error the queue's `.catch` sends, as written: it reads
      `messageId` from the top level of the parsed message. For a `null`
      message that read throws inside the `.catch` itself, so nothing is
      sent (see `Crashes`). */
  function QueueErrorAsWritten(msg: Value, error: string): Option<ServerEvent> {
    if !Destructurable(msg) then None else Some(Error(Text(Get(msg, "messageId")), error))
  }

  /** The error the queue's `.catch` evidently means to send: the id of the
      message the client is tracking, which it puts in `data.messageId`. */
  function QueueError(msg: Value, error: string): (r: Option<ServerEvent>)
    ensures !Destructurable(msg) <==> r.None?
    ensures r.Some? ==> r.value.Error? && r.value.error == error && r.value.messageId == Text(Get(Get(msg, "data"), "messageId"))
  {
    if !Destructurable(msg) then None else Some(Error(Text(Get(Get(msg, "data"), "messageId")), error))
  }

  /** The shape every client message has. */
  function ClientMessage(kind: string, data: map<string, Value>): Value {
    Obj(map["type" := Str(kind), "data" := Obj(data)])
  }

  /** For every message the client sends, the error as written carries no
      message id, while the corrected one carries the id the client sent. */
  lemma QueueErrorDropsId(kind: string, data: map<string, Value>, m: string, error: string)
    requires "messageId" in data && data["messageId"] == Str(m)
    ensures QueueErrorAsWritten(ClientMessage(kind, data), error) == Some(Error("", error))
    ensures QueueError(ClientMessage(kind, data), error) == Some(Error(m, error))
  {
  }

  /** The error reported for a failed job: as written, or as evidently
      intended when `intended` holds. */
  function Report(msg: Value, error: string, intended: bool): Option<ServerEvent> {
    if intended then QueueError(msg, error) else QueueErrorAsWritten(msg, error)
  }

  /** After the handler of job `job` ran (leaving the server `after`
      with the failure `failure`): the queue records the outcome and
      dispatches again, and a rejection is reported to the client if its
      socket is still open. */
  function Conclude(s: Server, after: Server, id: string, job: nat, msg: Value, failure: Option<string>, intended: bool): Server
    requires id in s.queues
  {
    var settled := after.(queues := s.queues[id := MQ.Settle(s.queues[id], job, failure.None?)]);
    if failure.Some? && IsOpen(settled, id) && Report(msg, failure.value, intended).Some?
    then Post(settled, {id}, Report(msg, failure.value, intended).value)
    else settled
  }

  /** Whether the `.catch` of a failed job itself throws: as written, it
      reads `data.messageId` of a `null` message once the socket is open.
      The promise `.catch` returns is not handled, and an unhandled
      rejection ends the Node.js process. */
  predicate Crashes(s: Server, id: string, msg: Value, failure: Option<string>, intended: bool) {
    failure.Some? && IsOpen(s, id) && !intended && !Destructurable(msg)
  }

  /** A running job of client `id` settles once its handler has run, also
      when the client has closed in the meantime (its queue lives on). A
      job that is not running changes nothing, and once the process has
      crashed nothing runs. */
  function CompleteWith(w: World, cfg: TO.Config, id: string, job: nat, o: JobOracle, intended: bool): World {
    var s := w.server;
    if w.crashed || id !in s.queues || job !in s.queues[id].inFlight || job >= |Messages(s, id)| then w
    else
      var msg := Messages(s, id)[job];
      var h := Handle(w, cfg, id, msg, o);
      h.world.(server := Conclude(s, h.world.server, id, job, msg, h.failure, intended),
               crashed := h.world.crashed || Crashes(h.world.server, id, msg, h.failure, intended))
  }

  /** The job's completion as the server is written. */
  function Complete(w: World, cfg: TO.Config, id: string, job: nat, o: JobOracle): World {
    CompleteWith(w, cfg, id, job, o, false)
  }

  /** The job's completion with the error report corrected. */
  function CompleteIntended(w: World, cfg: TO.Config, id: string, job: nat, o: JobOracle): World {
    CompleteWith(w, cfg, id, job, o, true)
  }

  /** A running job is always one that was submitted, so it has a message. */
  lemma RunningHasMessage(s: Server, id: string, job: nat)
    requires Wf(s) && id in s.queues && job in s.queues[id].inFlight
    ensures job < |Messages(s, id)|
  {
    var q := s.queues[id];
    var i :| 0 <= i < |q.started| && q.started[i] == job;
    assert (q.started + q.waiting)[i] == job;
  }

  lemma ConcludeWf(s: Server, after: Server, id: string, job: nat, msg: Value, failure: Option<string>, intended: bool)
    requires Wf(s) && id in s.queues
    requires after.clients == s.clients && after.registry == s.registry && after.queues == s.queues && after.messages == s.messages
    ensures var r := Conclude(s, after, id, job, msg, failure, intended);
      && r.queues == s.queues[id := MQ.Settle(s.queues[id], job, failure.None?)]
      && Wf(r)
  {
    var q := MQ.Settle(s.queues[id], job, failure.None?);
    MQ.SettleInv(s.queues[id], job, failure.None?);
    SettledSubmitted(s.queues[id], job, failure.None?);
    ConcludeKeeps(s, after, id, job, msg, failure, intended);
    WfUpdate(s, Conclude(s, after, id, job, msg, failure, intended), id, q);
  }

  /** Concluding a job touches the job's queue and at most the client's
      inbox. */
  lemma ConcludeKeeps(s: Server, after: Server, id: string, job: nat, msg: Value, failure: Option<string>, intended: bool)
    requires id in s.queues
    ensures var r := Conclude(s, after, id, job, msg, failure, intended);
      && r.clients == after.clients && r.registry == after.registry && r.messages == after.messages
      && r.queues == s.queues[id := MQ.Settle(s.queues[id], job, failure.None?)]
  {
  }

  /** Replacing one queue by a reachable queue with the same submissions
      keeps the server well formed. */
  lemma WfUpdate(s: Server, t: Server, id: string, q: MQ.Queue)
    requires Wf(s) && id in s.queues && MQ.Inv(q) && q.submitted == s.queues[id].submitted
    requires t.clients == s.clients && t.registry == s.registry && t.messages == s.messages && t.queues == s.queues[id := q]
    ensures Wf(t)
  {
    forall c | c in t.queues
      ensures MQ.Inv(t.queues[c]) && |Messages(t, c)| == t.queues[c].submitted
    {
      assert Messages(t, c) == Messages(s, c);
    }
  }

  lemma SettledSubmitted(q: MQ.Queue, job: nat, ok: bool)
    ensures MQ.Settle(q, job, ok).submitted == q.submitted
  {
  }

  /** A job's outcome, success or failure, is what its queue records; the
      slot it frees goes to the oldest waiting job; and the registries keep
      their shape. This holds for a client that has closed as well. */
  lemma CompleteSettles(w: World, cfg: TO.Config, id: string, job: nat, o: JobOracle)
    requires !w.crashed && Wf(w.server) && id in w.server.queues && job in w.server.queues[id].inFlight
    ensures job < |Messages(w.server, id)|
    ensures var s := w.server;
      var ok := Handle(w, cfg, id, Messages(s, id)[job], o).failure.None?;
      var r := Complete(w, cfg, id, job, o).server;
      && r.queues[id] == MQ.Settle(s.queues[id], job, ok)
      && r.queues[id].finished == s.queues[id].finished + [MQ.Settled(job, ok)]
      && Wf(r)
  {
    var s := w.server;
    RunningHasMessage(s, id, job);
    var msg := Messages(s, id)[job];
    var h := Handle(w, cfg, id, msg, o);
    ConcludeWf(s, h.world.server, id, job, msg, h.failure, false);
    MQ.SettleDispatches(s.queues[id], job, h.failure.None?);
  }

  /** A job that fails is reported to its open client as one error, after
      whatever the handler sent; the error carries the `messageId` found at
      the top level of the message. */
  lemma FailedJobReported(w: World, cfg: TO.Config, id: string, job: nat, o: JobOracle)
    requires !w.crashed && id in w.server.queues && job in w.server.queues[id].inFlight && job < |Messages(w.server, id)|
    requires IsOpen(w.server, id)
    ensures var msg := Messages(w.server, id)[job];
      var h := Handle(w, cfg, id, msg, o);
      h.failure.Some? && Destructurable(msg) ==>
        Inbox(Complete(w, cfg, id, job, o).server, id)
          == Inbox(h.world.server, id) + [Error(Text(Get(msg, "messageId")), h.failure.value)]
  {
  }

  /** Every message the client sends keeps its id in `data`, so a failed
      job of the client is reported with no message id. */
  lemma ClientFailureLosesId(w: World, cfg: TO.Config, id: string, job: nat, o: JobOracle, kind: string, data: map<string, Value>)
    requires !w.crashed && id in w.server.queues && job in w.server.queues[id].inFlight && job < |Messages(w.server, id)|
    requires IsOpen(w.server, id) && Messages(w.server, id)[job] == ClientMessage(kind, data)
    ensures var h := Handle(w, cfg, id, ClientMessage(kind, data), o);
      h.failure.Some? ==>
        Inbox(Complete(w, cfg, id, job, o).server, id) == Inbox(h.world.server, id) + [Error("", h.failure.value)]
  {
    FailedJobReported(w, cfg, id, job, o);
    assert Get(ClientMessage(kind, data), "messageId") == Undefined;
  }

  /** With the report corrected, the error carries the id of the message
      the client is tracking. */
  lemma FailedJobReportedIntended(w: World, cfg: TO.Config, id: string, job: nat, o: JobOracle)
    requires !w.crashed && id in w.server.queues && job in w.server.queues[id].inFlight && job < |Messages(w.server, id)|
    requires IsOpen(w.server, id)
    ensures var msg := Messages(w.server, id)[job];
      var h := Handle(w, cfg, id, msg, o);
      h.failure.Some? && Destructurable(msg) ==>
        Inbox(CompleteIntended(w, cfg, id, job, o).server, id)
          == Inbox(h.world.server, id) + [Error(Text(Get(Get(msg, "data"), "messageId")), h.failure.value)]
  {
  }

  /** As written, a job whose message is `null` fails at its first
      destructuring, and while the client's socket is open the `.catch`
      throws again on `data.messageId`: the process crashes, the client is
      sent nothing, and no later job of any client completes. */
  lemma NullMessageCrashes(w: World, cfg: TO.Config, id: string, job: nat, o: JobOracle, id2: string, job2: nat, o2: JobOracle)
    requires !w.crashed && id in w.server.queues && job in w.server.queues[id].inFlight && job < |Messages(w.server, id)|
    requires IsOpen(w.server, id) && Messages(w.server, id)[job] == Null
    ensures var r := Complete(w, cfg, id, job, o);
      && r.crashed
      && Inbox(r.server, id) == Inbox(w.server, id)
      && Complete(r, cfg, id2, job2, o2) == r
  {
  }

  /** With the report corrected, the same job only settles: nothing is
      sent and the server keeps running. */
  lemma NullMessageIntendedQuiet(w: World, cfg: TO.Config, id: string, job: nat, o: JobOracle)
    requires !w.crashed && id in w.server.queues && job in w.server.queues[id].inFlight && job < |Messages(w.server, id)|
    requires Messages(w.server, id)[job] == Null
    ensures var r := CompleteIntended(w, cfg, id, job, o);
      && !r.crashed
      && Inbox(r.server, id) == Inbox(w.server, id)
      && r.server.queues[id] == MQ.Settle(w.server.queues[id], job, false)
  {
  }

  /** The process crashes only on a message that is `null` (the one such
      value `JSON.parse` yields; `undefined` is the other) while its
      client is open, which the corrected report avoids, or on the
      re-execution of an interrupt. */
  lemma CrashCauses(w: World, cfg: TO.Config, id: string, job: nat, o: JobOracle)
    requires !w.crashed
    ensures Complete(w, cfg, id, job, o).crashed ==>
      && id in w.server.queues && job < |Messages(w.server, id)|
      && ((!Destructurable(Messages(w.server, id)[job]) && IsOpen(w.server, id)) || ReexecutesInterrupt(w, Messages(w.server, id)[job]))
    ensures CompleteIntended(w, cfg, id, job, o).crashed ==>
      && id in w.server.queues && job < |Messages(w.server, id)|
      && ReexecutesInterrupt(w, Messages(w.server, id)[job])
  {
  }

  /** Re-executing an interrupt sends the client `context_building` and
      the error of `build`, and then the process crashes: no later job of
      any client completes. */
  lemma ReexecuteInterruptCrashes(w: World, cfg: TO.Config, id: string, job: nat, o: JobOracle, id2: string, job2: nat, o2: JobOracle)
    requires !w.crashed && Wf(w.server) && id in w.server.queues && job in w.server.queues[id].inFlight
    requires job < |Messages(w.server, id)| && ReexecutesInterrupt(w, Messages(w.server, id)[job])
    ensures Complete(w, cfg, id, job, o).crashed
    ensures var intentId := Text(Get(Get(Messages(w.server, id)[job], "data"), "intentNodeId"));
      IsOpen(w.server, id) ==>
        Inbox(Complete(w, cfg, id, job, o).server, id) == Inbox(w.server, id)
          + [MessageStatus(intentId, ContextBuilding), Error(intentId, TO.MissingHints)]
    ensures var r := Complete(w, cfg, id, job, o);
      Complete(r, cfg, id2, job2, o2) == r
  {
    var msg := Messages(w.server, id)[job];
    var d := ReexecuteInputOf(Get(msg, "data"));
    TO.ReexecuteInterruptFails(w.tasks, cfg, id, d, o.reexecute);
    var x := TO.HandleReexecute(w.tasks, cfg, id, d, o.reexecute);
    DispatchReexecute(w, cfg, id, msg, o);
    var h := Handle(w, cfg, id, msg, o);
    assert h.world.server == DeliverAll(w.server, x.effects) && h.failure.None?;
    var r := Complete(w, cfg, id, job, o);
    assert r.server == Conclude(w.server, h.world.server, id, job, msg, None, false);
    ConcludeSucceeded(w.server, h.world.server, id, job, msg, false);
    if IsOpen(w.server, id) {
      assert x.effects == [TO.Send(id, MessageStatus(d.intentNodeId, ContextBuilding)), TO.Send(id, Error(d.intentNodeId, TO.MissingHints))];
      DeliverTwo(w.server, id, MessageStatus(d.intentNodeId, ContextBuilding), Error(d.intentNodeId, TO.MissingHints));
    }
  }

  /** A job that succeeds is not reported: its conclusion sends nothing. */
  lemma ConcludeSucceeded(s: Server, after: Server, id: string, job: nat, msg: Value, intended: bool)
    requires id in s.queues
    ensures forall c :: Inbox(Conclude(s, after, id, job, msg, None, intended), c) == Inbox(after, c)
  {
  }

  /** Two events sent to an open client arrive in order. */
  lemma DeliverTwo(s: Server, id: string, a: ServerEvent, b: ServerEvent)
    requires IsOpen(s, id)
    ensures Inbox(DeliverAll(s, [TO.Send(id, a), TO.Send(id, b)]), id) == Inbox(s, id) + [a, b]
  {
    var e := [TO.Send(id, a), TO.Send(id, b)];
    var s1 := Deliver(s, e[0]);
    assert Inbox(s1, id) == Inbox(s, id) + [a];
    var s2 := Deliver(s1, e[1]);
    assert Inbox(s2, id) == Inbox(s1, id) + [b];
    assert e[1..] == [e[1]] && e[1..][1..] == [];
    assert DeliverAll(s1, e[1..]) == DeliverAll(s2, []);
  }

  /** A job of a client that has closed still runs: its handler's work on
      the orchestrator and the poller is kept and its queue settles, while
      the client is sent nothing. */
  lemma ClosedClientJobRuns(w: World, cfg: TO.Config, id: string, job: nat, o: JobOracle)
    requires !w.crashed && Wf(w.server) && id in w.server.queues && job in w.server.queues[id].inFlight
    requires !IsOpen(w.server, id)
    ensures job < |Messages(w.server, id)|
    ensures var h := Handle(w, cfg, id, Messages(w.server, id)[job], o);
      var r := Complete(w, cfg, id, job, o);
      && r.tasks == h.world.tasks && r.poller == h.world.poller
      && r.server.queues[id] == MQ.Settle(w.server.queues[id], job, h.failure.None?)
      && Inbox(r.server, id) == Inbox(w.server, id)
  {
    CompleteSettles(w, cfg, id, job, o);
    HandleClosedQuiet(w, cfg, id, Messages(w.server, id)[job], o);
  }

  /** A handler sends nothing to a client that is not open. */
  lemma HandleClosedQuiet(w: World, cfg: TO.Config, id: string, msg: Value, o: JobOracle)
    requires !IsOpen(w.server, id)
    ensures Inbox(Handle(w, cfg, id, msg, o).world.server, id) == Inbox(w.server, id)
  {
    if Destructurable(msg) && Destructurable(Get(msg, "data")) {
      var data := Get(msg, "data");
      if Get(msg, "type") == Str("chat") {
        var x := TO.HandleUserInput(w.tasks, cfg, id, ChatInputOf(data), o.chat);
        ClosedClientHearsNothing(w.server, id, x.effects);
      } else if Get(msg, "type") == Str("reexecute") {
        var x := TO.HandleReexecute(w.tasks, cfg, id, ReexecuteInputOf(data), o.reexecute);
        ClosedClientHearsNothing(w.server, id, x.effects);
      }
    }
  }
}
