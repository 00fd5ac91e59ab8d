/** The client hook client/src/hooks/useWebSocket.js: how the socket URL
    is chosen, and `handleMessage`, the reducer that turns each server
    event into store actions. The hook's globals
    `window.__currentIntentNodeId` and `window.__currentStreamingNodeId`
    are fields of the client state ("" when null). What the browser
    supplies to one event (the position the layout picks for a new node,
    a fresh `uuidv4`, and the pretty-printed JSON of an event's payload)
    is an oracle. */
module WebSocket {
  import opened Wrappers
  import opened Js
  import opened Protocol
  import opened Store
  import LlmService
  import CB = ContextBuilder
  import TO = TaskOrchestrator
  import Server

  // ---------------------------------------------------------------------
  // URL resolution
  // ---------------------------------------------------------------------

  /** The scheme matching the page's: secure exactly when the page is. */
  function Scheme(pageProtocol: string): (r: string)
    ensures r == "wss:" <==> pageProtocol == "https:"
    ensures r in {"ws:", "wss:"}
  {
    if pageProtocol == "https:" then "wss:" else "ws:"
  }

  /** The path from `VITE_WS_PATH` (None when the variable is undefined). */
  function UrlPath(envPath: Option<string>): (p: string)
    ensures envPath.None? ==> p == "/ws"
    ensures p == "" <==> envPath == Some("")
    ensures p != "" ==> p[0] == '/'
    ensures envPath.Some? && envPath.value != "" ==>
      (if envPath.value[0] == '/' then p == envPath.value else p == "/" + envPath.value)
  {
    var path := if envPath.None? then "/ws" else envPath.value;
    if path == "" then "" else if StartsWith(path, "/") then path else "/" + path
  }

  /** A path that already went through the normalisation is left alone. */
  lemma UrlPathIdempotent(envPath: Option<string>)
    ensures UrlPath(Some(UrlPath(envPath))) == UrlPath(envPath)
  {
  }

  /** `resolveWebSocketUrl`: `VITE_WS_URL` verbatim when set and
      non-empty, otherwise the page's host with the matching scheme and
      the normalised path. */
  function ResolveUrl(envUrl: string, pageProtocol: string, host: string, envPath: Option<string>): (r: string)
    ensures envUrl != "" ==> r == envUrl
    ensures envUrl == "" ==>
      var prefix := Scheme(pageProtocol) + "//" + host;
      && StartsWith(r, prefix)
      && r[|prefix|..] == UrlPath(envPath)
  {
    if envUrl != "" then envUrl
    else Scheme(pageProtocol) + "//" + host + UrlPath(envPath)
  }

  /** Without `VITE_WS_URL`, the URL is secure exactly when the page is,
      ends with "/ws" when no path is configured, and ends right after the
      host when the configured path is empty. */
  lemma ResolveUrlDefaults(pageProtocol: string, host: string, envPath: Option<string>)
    ensures var r := ResolveUrl("", pageProtocol, host, envPath);
      && (StartsWith(r, "wss://") <==> pageProtocol == "https:")
      && (envPath.None? ==> EndsWith(r, "/ws"))
      && (envPath == Some("") ==> r == Scheme(pageProtocol) + "//" + host)
  {
    var r := ResolveUrl("", pageProtocol, host, envPath);
    var s := Scheme(pageProtocol);
    assert r == s + ("//" + host + UrlPath(envPath));
    if pageProtocol != "https:" {
      assert r[2] == ':';
    }
  }

  // ---------------------------------------------------------------------
  // The reducer
  // ---------------------------------------------------------------------

  datatype Client = Client(
    store: State,
    connected: bool,
    clientId: string,
    currentIntent: string,
    currentStreaming: string)

  /** What the browser supplies while one event is handled. */
  datatype ClientOracle = ClientOracle(x: int, y: int, eventId: string, eventText: string)

  /** `${v}`: an array joins its items with ",", showing `undefined` and
      `null` items as "", and an object is "[object Object]". A number
      with a fractional part gives "" here: JavaScript's shortest
      round-trip digits are not modelled. */
  function Display(v: Value): string {
    match v
    case Str(s) => s
    case Undefined => "undefined"
    case Null => "null"
    case Bool(b) => if b then "true" else "false"
    case NaN => "NaN"
    case Num(n) => if n == n.Floor as real then IntText(n.Floor) else ""
    case Arr(items) => Join(ItemTexts(items), ",")
    case Obj(_) => "[object Object]"
  }

  /** `Array.prototype.join`'s text for each item. */
  function ItemTexts(items: seq<Value>): (r: seq<string>)
    ensures |r| == |items|
  {
    if |items| == 0 then []
    else
      var last := items[|items| - 1];
      ItemTexts(items[..|items| - 1]) + [if last.Undefined? || last.Null? then "" else Display(last)]
  }

  /** The decimal numeral of an integer, with "-" for a negative one. */
  function IntText(n: int): string {
    if n < 0 then "-" + NatText(-n) else NatText(n)
  }

  function NatText(n: nat): string
    decreases n
  {
    if n < 10 then [Digit(n)] else NatText(n / 10) + [Digit(n % 10)]
  }

  function Digit(d: nat): char
    requires d < 10
  {
    "0123456789"[d]
  }

  /** Examples of `${v}`: `${7}`, `${-12}` and `${{}}`. */
  lemma DisplayExamples()
    ensures Display(Num(7.0)) == "7" && Display(Num(-12.0)) == "-12"
    ensures Display(Obj(map[])) == "[object Object]"
  {
    assert NatText(12) == NatText(1) + ['2'];
  }

  /** Examples of `${v}` for arrays: `${["a","b"]}` and `${[null,1]}`. */
  lemma DisplayArrayExamples()
    ensures Display(Arr([Str("a"), Str("b")])) == "a,b"
    ensures Display(Arr([Null, Num(1.0)])) == ",1"
  {
    assert Display(Str("b")) == "b" && Display(Num(1.0)) == "1";
    assert ItemTexts([Str("a"), Str("b")]) == ["a", "b"] by {
      assert [Str("a"), Str("b")][..1] == [Str("a")];
      assert [Str("a")][..0] == [];
    }
    assert Join(["a", "b"], ",") == "a,b" by {
      assert ["a", "b"][..1] == ["a"];
    }
    assert ItemTexts([Null, Num(1.0)]) == ["", "1"] by {
      assert [Null, Num(1.0)][..1] == [Null];
      assert [Null][..0] == [];
    }
    assert Join(["", "1"], ",") == ",1" by {
      assert ["", "1"][..1] == [""];
    }
  }

  /** Some node was created for reply `m`. */
  predicate HasReplyNode(nodes: seq<Node>, m: string) {
    exists i :: 0 <= i < |nodes| && nodes[i].messageId == m
  }

  /** The node `response_start` creates: a task card for a task's
      reply, a chat reply otherwise, under the parent the server named,
      else under the last intent node. */
  function ReplyNode(c: Client, m: string, parent: string, nodeType: NodeType, o: ClientOracle): (n: Node)
    ensures n.id == m && n.messageId == m && n.content == ""
    ensures n.kind == (if nodeType == TaskResponse then TaskNode else ChatNode)
    ensures n.parentNodeId == (if parent != "" then parent else c.currentIntent)
    ensures !IsUser(n) && IsReply(n)
  {
    var isTask := nodeType == TaskResponse;
    Node(m, if isTask then TaskNode else ChatNode, if isTask then "Task Execution" else "AI Reply", "",
         if parent != "" then parent else c.currentIntent, o.x, o.y, None, m)
  }

  /** The intent node `intent_analyzed` adds, under the user message. Its
      summary text (`Type: …`, `Topic: …`, `Urgency: …`, the confidence
      with two decimals and the related topics) is display only and left
      out with the rest of the UI: the content here is empty. */
  function IntentCard(intentId: string, intent: Value, parent: string, o: ClientOracle): (n: Node)
    ensures n.id == intentId && n.kind == IntentNode && n.parentNodeId == parent
  {
    Node(intentId, IntentNode, "Intent: " + Display(intent), "", parent, o.x, o.y, None, "")
  }

  /** A new node appended to the canvas: the ids only grow. */
  predicate Grows(before: Client, after: Client) {
    && Ids(before.store.nodes) <= Ids(after.store.nodes)
    && |before.store.nodes| <= |after.store.nodes| <= |before.store.nodes| + 1
    && (StatsAgree(before.store) ==> StatsAgree(after.store))
  }

  /** `intent_analyzed`: the intent node, unless one with its id exists. */
  function OnIntentAnalyzed(c: Client, intentId: string, intent: Value, parent: string, o: ClientOracle): (r: Client)
    ensures Grows(c, r) && intentId in Ids(r.store.nodes)
    ensures intentId in Ids(c.store.nodes) ==> r == c
    ensures intentId !in Ids(c.store.nodes) ==>
      && r.store == c.store.(nodes := r.store.nodes)
      && r.store.nodes[..|c.store.nodes|] == c.store.nodes
      && |r.store.nodes| == |c.store.nodes| + 1
      && r.store.nodes[|c.store.nodes|].kind == IntentNode
      && r.store.nodes[|c.store.nodes|].parentNodeId == parent
      && r.currentIntent == intentId
  {
    var st := c.store;
    if intentId in Ids(st.nodes) then c
    else
      var nodes := AddNode(st.nodes, IntentCard(intentId, intent, parent, o), o.x, o.y);
      AddedIds(st.nodes, nodes);
      c.(store := st.(nodes := nodes), currentIntent := intentId)
  }

  /** `response_start`: the related message is responding; the reply's
      node and stream, unless a node already carries the reply's id. */
  function OnResponseStart(c: Client, m: string, related: string, parent: string, nodeType: NodeType, o: ClientOracle): (r: Client)
    ensures Grows(c, r) && HasReplyNode(r.store.nodes, m)
    ensures related != "" ==> related in r.store.statuses && r.store.statuses[related] == Responding
    ensures related == "" ==> r.store.statuses == c.store.statuses
    ensures r.store.active == c.store.active
    ensures HasReplyNode(c.store.nodes, m) ==> r.store.nodes == c.store.nodes && r.store.streaming == c.store.streaming && r.currentStreaming == c.currentStreaming
    ensures !HasReplyNode(c.store.nodes, m) ==>
      && r.store.nodes[..|c.store.nodes|] == c.store.nodes
      && |r.store.nodes| == |c.store.nodes| + 1
      && r.store.nodes[|c.store.nodes|] == ReplyNode(c, m, parent, nodeType, o).(expanded := Some(true))
      && r.store.streaming == c.store.streaming + {m}
      && r.currentStreaming == m
  {
    var st := c.store;
    var st1 := if related != "" then st.(statuses := st.statuses[related := Responding]) else st;
    if HasReplyNode(st1.nodes, m) then c.(store := st1)
    else
      var nodes := AddNode(st1.nodes, ReplyNode(c, m, parent, nodeType, o), o.x, o.y);
      AddedIds(st1.nodes, nodes);
      assert nodes[|st.nodes|].messageId == m;
      c.(store := AddStreamingNode(st1.(nodes := nodes), m), currentStreaming := m)
  }

  /** `response_chunk`: the reply's node (the current stream's when the
      event has no id) shows the accumulated text; nothing else changes. */
  function OnResponseChunk(c: Client, m: string, accumulated: string): (r: Client)
    ensures Grows(c, r) && r.currentStreaming == c.currentStreaming
    ensures var target := if m != "" then m else c.currentStreaming;
      && (target == "" ==> r == c)
      && (target != "" ==> r == c.(store := c.store.(nodes := UpdateContent(c.store.nodes, target, accumulated))))
  {
    var st := c.store;
    var target := if m != "" then m else c.currentStreaming;
    if target == "" then c
    else
      var nodes := UpdateContent(st.nodes, target, accumulated);
      SameIds(st.nodes, nodes);
      c.(store := st.(nodes := nodes))
  }

  /** `response_end`: the stream stops, the related message is forgotten
      and no longer tracked, the reply is selected. */
  function OnResponseEnd(c: Client, m: string, related: string): (r: Client)
    ensures Grows(c, r) && r.store.nodes == c.store.nodes && r.currentStreaming == ""
    ensures r.store.streaming == if m != "" then c.store.streaming - {m} else c.store.streaming
    ensures r.store.active == if related != "" then c.store.active - {related} else c.store.active
    ensures r.store.statuses == if related != "" then c.store.statuses - {related} else c.store.statuses
    ensures r.store.selected == if m != "" then Some(m) else if c.currentStreaming != "" then Some(c.currentStreaming) else c.store.selected
  {
    var st := c.store;
    var st1 := if m != "" then RemoveStreamingNode(st, m) else st;
    var st2 := if related != "" then RemoveActiveProcessing(st1.(statuses := st1.statuses - {related}), related) else st1;
    var selected := if m != "" then Some(m) else if c.currentStreaming != "" then Some(c.currentStreaming) else st2.selected;
    c.(store := st2.(selected := selected), currentStreaming := "")
  }

  /** `environment_event`: the event at the head of the feed, and a node
      for it. */
  function OnEnvironmentEvent(c: Client, id: string, source: string, kind: string, data: Value, o: ClientOracle): (r: Client)
    ensures Grows(c, r) && |r.store.nodes| == |c.store.nodes| + 1
    ensures r.store.events == AddEvent(c.store.events, Event(id, source, kind, data))
    ensures r.store.nodes[|c.store.nodes|].id == id && r.store.nodes[|c.store.nodes|].kind == EventNode
  {
    var st := c.store;
    var node := Node(id, EventNode, source + ": " + kind, o.eventText, "", o.x, o.y, None, "");
    var nodes := AddNode(st.nodes, node, o.x, o.y);
    AddedIds(st.nodes, nodes);
    c.(store := st.(events := AddEvent(st.events, Event(id, source, kind, data)), nodes := nodes))
  }

  /** `handleMessage(message)` for each event the server sends; the
      poller notifications are unknown to the client and only logged.
      Server events only ever add nodes, and the two counters keep
      agreeing with their sets. */
  function HandleMessage(c: Client, e: ServerEvent, o: ClientOracle): (r: Client)
    ensures Grows(c, r)
  {
    var st := c.store;
    match e
    case Connected(id, _) => c.(connected := true, clientId := id)
    case MessageStatus(m, stage) => c.(store := st.(statuses := st.statuses[m := stage]))
    case TaskLimitReached(m, _) => c.(store := st.(statuses := st.statuses[m := Queued]))
    case Error(m, _) =>
      if m == "" then c
      else c.(store := RemoveActiveProcessing(st.(statuses := st.statuses[m := Failed]), m))
    case IntentAnalyzed(_, intentId, intent, _, _, _, _, _, parent) => OnIntentAnalyzed(c, intentId, intent, parent, o)
    case ContextBuilt(taskId, size, count) =>
      var data := Obj(map["taskId" := Str(taskId), "contextSize" := Num(size as real), "memoryCount" := Num(count as real)]);
      c.(store := st.(events := AddEvent(st.events, Event(o.eventId, "system", "context_built", data))))
    case ResponseStart(m, related, parent, nodeType, _) => OnResponseStart(c, m, related, parent, nodeType, o)
    case ResponseChunk(m, _, accumulated) => OnResponseChunk(c, m, accumulated)
    case ResponseEnd(m, related, _) => OnResponseEnd(c, m, related)
    case TaskCreated(taskId, kind, topic) =>
      var task := Task(taskId, map["type" := kind, "topic" := topic, "status" := Str("running"), "progress" := Num(0.0)]);
      c.(store := st.(tasks := AddTask(st.tasks, task)))
    case TaskCompleted(taskId) =>
      c.(store := st.(tasks := UpdateTask(st.tasks, taskId, map["status" := Str("completed"), "progress" := Num(100.0)])))
    case EnvironmentEvent(id, source, kind, data) => OnEnvironmentEvent(c, id, source, kind, data, o)
    case PollerAdded(_, _) => c
    case PollerRemoved(_) => c
  }

  lemma AddedIds(nodes: seq<Node>, r: seq<Node>)
    requires |r| == |nodes| + 1 && r[..|nodes|] == nodes
    ensures Ids(nodes) <= Ids(r) && r[|nodes|].id in Ids(r)
  {
    forall v | v in Ids(nodes) ensures v in Ids(r) {
      var i :| 0 <= i < |nodes| && nodes[i].id == v;
      assert r[i] == nodes[i];
    }
  }

  lemma SameIds(nodes: seq<Node>, r: seq<Node>)
    requires |r| == |nodes| && forall i :: 0 <= i < |nodes| ==> r[i].id == nodes[i].id
    ensures Ids(nodes) == Ids(r)
  {
    forall v | v in Ids(nodes) ensures v in Ids(r) {
      var i :| 0 <= i < |nodes| && nodes[i].id == v;
      assert r[i].id == v;
    }
    forall v | v in Ids(r) ensures v in Ids(nodes) {
      var i :| 0 <= i < |r| && r[i].id == v;
      assert nodes[i].id == v;
    }
  }

  /** Steps applied in order, the k-th with its own oracle. Kept generic in
      the step so that facts about the order of steps do not depend on what
      a step does. */
  function Fold<S, E, O>(step: (S, E, O) -> S, s: S, es: seq<E>, os: seq<O>): S
    requires |os| == |es|
    decreases |es|
  {
    if |es| == 0 then s
    else step(Fold(step, s, es[..|es| - 1], os[..|es| - 1]), es[|es| - 1], os[|es| - 1])
  }

  lemma {:induction false} FoldAppend<S, E, O>(step: (S, E, O) -> S, s: S, a: seq<E>, b: seq<E>, os: seq<O>)
    requires |os| == |a| + |b|
    ensures Fold(step, s, a + b, os) == Fold(step, Fold(step, s, a, os[..|a|]), b, os[|a|..])
    decreases |b|
  {
    if |b| == 0 {
      assert a + b == a && os[..|a|] == os;
    } else {
      var n := |a| + |b|;
      assert (a + b)[..n - 1] == a + b[..|b| - 1];
      assert (a + b)[n - 1] == b[|b| - 1];
      assert os[..n - 1][..|a|] == os[..|a|];
      assert os[|a|..][..|b| - 1] == os[..n - 1][|a|..];
      assert os[|a|..][|b| - 1] == os[n - 1];
      FoldAppend(step, s, a, b[..|b| - 1], os[..n - 1]);
    }
  }

  /** A sequence of events, handled in order, each with its own oracle. */
  function HandleAll(c: Client, es: seq<ServerEvent>, os: seq<ClientOracle>): Client
    requires |os| == |es|
  {
    Fold(HandleMessage, c, es, os)
  }

  /** Handling `a` then `b` is handling `a + b`. */
  lemma HandleAppend(c: Client, a: seq<ServerEvent>, b: seq<ServerEvent>, os: seq<ClientOracle>)
    requires |os| == |a| + |b|
    ensures HandleAll(c, a + b, os) == HandleAll(HandleAll(c, a, os[..|a|]), b, os[|a|..])
  {
    FoldAppend(HandleMessage, c, a, b, os);
  }

  /** Handling one more event is handling it after the others. */
  lemma HandleSnoc(c: Client, es: seq<ServerEvent>, os: seq<ClientOracle>)
    requires |os| == |es| > 0
    ensures HandleAll(c, es, os) == HandleMessage(HandleAll(c, es[..|es| - 1], os[..|es| - 1]), es[|es| - 1], os[|es| - 1])
  {
  }

  // ---------------------------------------------------------------------
  // Properties of single events
  // ---------------------------------------------------------------------

  /** `response_chunk` replaces the reply's text with the accumulated
      text, so the same chunk delivered twice shows the same thing as once;
      every other node is untouched. */
  lemma ChunkIdempotent(c: Client, m: string, chunk: string, accumulated: string, o1: ClientOracle, o2: ClientOracle)
    requires m != ""
    ensures var e := ResponseChunk(m, chunk, accumulated);
      var r := HandleMessage(c, e, o1);
      && HandleMessage(r, e, o2) == r
      && (forall i :: 0 <= i < |r.store.nodes| ==>
            r.store.nodes[i] == if c.store.nodes[i].id == m then c.store.nodes[i].(content := accumulated) else c.store.nodes[i])
  {
  }

  /** `intent_analyzed` adds the intent node only when no node has its
      id, and the repeated event changes nothing. */
  lemma IntentAnalyzedOnce(c: Client, e: ServerEvent, o1: ClientOracle, o2: ClientOracle)
    requires e.IntentAnalyzed?
    ensures var r := HandleMessage(c, e, o1);
      && e.intentId in Ids(r.store.nodes)
      && (e.intentId in Ids(c.store.nodes) ==> r == c)
      && (e.intentId !in Ids(c.store.nodes) ==>
            && r.store.nodes[..|c.store.nodes|] == c.store.nodes
            && |r.store.nodes| == |c.store.nodes| + 1
            && r.store.nodes[|c.store.nodes|].kind == IntentNode
            && r.store.nodes[|c.store.nodes|].parentNodeId == e.parentNodeId
            && r.currentIntent == e.intentId)
      && HandleMessage(r, e, o2) == r
  {
  }

  /** `response_start` marks the related message as responding and adds
      the reply node and its stream only when no node carries the reply's
      id; the node's parent is the one the server named, else the last
      intent node. The repeated event adds nothing more. */
  lemma ResponseStartOnce(c: Client, e: ServerEvent, o1: ClientOracle, o2: ClientOracle)
    requires e.ResponseStart?
    ensures var r := HandleMessage(c, e, o1);
      && HasReplyNode(r.store.nodes, e.messageId)
      && (e.relatedMessageId != "" ==> r.store.statuses[e.relatedMessageId] == Responding)
      && (HasReplyNode(c.store.nodes, e.messageId) ==> r.store.nodes == c.store.nodes && r.store.streaming == c.store.streaming)
      && (!HasReplyNode(c.store.nodes, e.messageId) ==>
            && r.store.nodes[..|c.store.nodes|] == c.store.nodes
            && |r.store.nodes| == |c.store.nodes| + 1
            && r.store.nodes[|c.store.nodes|].id == e.messageId
            && r.store.nodes[|c.store.nodes|].content == ""
            && r.store.nodes[|c.store.nodes|].parentNodeId == (if e.parentNodeId != "" then e.parentNodeId else c.currentIntent)
            && r.store.streaming == c.store.streaming + {e.messageId}
            && r.currentStreaming == e.messageId)
      && HandleMessage(r, e, o2).store.nodes == r.store.nodes
  {
    var r := HandleMessage(c, e, o1);
    if !HasReplyNode(c.store.nodes, e.messageId) {
      assert r.store.nodes[|c.store.nodes|].messageId == e.messageId;
    }
  }

  /** An `error` naming a message marks it failed and stops tracking it;
      one without a message id changes nothing. */
  lemma ErrorStopsTracking(c: Client, m: string, error: string, o: ClientOracle)
    ensures var r := HandleMessage(c, Error(m, error), o);
      && (m == "" ==> r == c)
      && (m != "" ==>
            && m !in r.store.active && r.store.statuses[m] == Failed
            && r.store.active == c.store.active - {m} && r.store.nodes == c.store.nodes)
  {
  }

  /** `response_end` stops the reply's stream, forgets the related
      message's status and stops tracking it, and selects the reply as the
      next branch point; the nodes are untouched. */
  lemma ResponseEndSettles(c: Client, m: string, related: string, total: int, o: ClientOracle)
    requires m != "" && related != ""
    ensures var r := HandleMessage(c, ResponseEnd(m, related, total), o);
      && r.store.streaming == c.store.streaming - {m}
      && r.store.active == c.store.active - {related}
      && related !in r.store.statuses
      && r.store.selected == Some(m)
      && r.store.nodes == c.store.nodes
      && r.currentStreaming == ""
  {
  }

  // ---------------------------------------------------------------------
  // End to end: what the server streams is what the client shows
  // ---------------------------------------------------------------------

  /** The events of a trace that reach client `clientId`: its own sends
      and the broadcasts. */
  function Received(effects: seq<TO.Effect>, clientId: string): seq<ServerEvent>
    decreases |effects|
  {
    if |effects| == 0 then []
    else
      var e := effects[|effects| - 1];
      var last := if (e.Send? && e.clientId == clientId) || e.Broadcast? then [e.event] else [];
      Received(effects[..|effects| - 1], clientId) + last
  }

  lemma {:induction false} ReceivedAppend(a: seq<TO.Effect>, b: seq<TO.Effect>, clientId: string)
    ensures Received(a + b, clientId) == Received(a, clientId) + Received(b, clientId)
    decreases |b|
  {
    if |b| == 0 {
      assert a + b == a;
    } else {
      assert (a + b)[..|a + b| - 1] == a + b[..|b| - 1];
      assert (a + b)[|a + b| - 1] == b[|b| - 1];
      ReceivedAppend(a, b[..|b| - 1], clientId);
    }
  }

  /** The `response_chunk` events of reply `m`. */
  function ChunkStream(m: string, calls: seq<LlmService.ChunkCall>): (r: seq<ServerEvent>)
    ensures |r| == |calls|
  {
    seq(|calls|, k requires 0 <= k < |calls| => ResponseChunk(m, calls[k].chunk, calls[k].accumulated))
  }

  lemma {:induction false} ReceivedChunks(clientId: string, m: string, calls: seq<LlmService.ChunkCall>)
    ensures Received(TO.ChunkEvents(clientId, m, calls), clientId) == ChunkStream(m, calls)
    decreases |calls|
  {
    if |calls| > 0 {
      var n := |calls|;
      assert TO.ChunkEvents(clientId, m, calls)[..n - 1] == TO.ChunkEvents(clientId, m, calls[..n - 1]);
      assert ChunkStream(m, calls)[..n - 1] == ChunkStream(m, calls[..n - 1]);
      ReceivedChunks(clientId, m, calls[..n - 1]);
    }
  }

  lemma {:induction false} ReceivedNothing(effects: seq<TO.Effect>, clientId: string)
    requires forall k :: 0 <= k < |effects| ==> effects[k].SaveMessage? || effects[k].SaveMemory?
    ensures Received(effects, clientId) == []
    decreases |effects|
  {
    if |effects| > 0 {
      ReceivedNothing(effects[..|effects| - 1], clientId);
    }
  }

  /** Handling the chunks of a reply leaves its node showing the last
      accumulated text, and nothing else in the client changes. */
  lemma {:induction false} ChunksShowLast(c: Client, m: string, calls: seq<LlmService.ChunkCall>, os: seq<ClientOracle>)
    requires m != "" && |os| == |calls|
    ensures HandleAll(c, ChunkStream(m, calls), os)
         == if |calls| == 0 then c
            else c.(store := c.store.(nodes := UpdateContent(c.store.nodes, m, LlmService.LastAccumulated(calls))))
    decreases |calls|
  {
    if |calls| > 0 {
      var n := |calls|;
      var init := calls[..n - 1];
      assert ChunkStream(m, calls)[..n - 1] == ChunkStream(m, init);
      HandleSnoc(c, ChunkStream(m, calls), os);
      ChunksShowLast(c, m, init, os[..n - 1]);
      if n > 1 {
        assert LlmService.LastAccumulated(init) == init[n - 2].accumulated;
        UpdateContentLastWins(c.store.nodes, m, init[n - 2].accumulated, calls[n - 1].accumulated);
      }
    }
  }

  lemma ReceivedOne(e: TO.Effect, clientId: string)
    requires e.Send? && e.clientId == clientId
    ensures Received([e], clientId) == [e.event]
  {
    assert [e][..0] == [];
  }

  /** What a client receives of a reply while it streams: the start and
      the chunks. */
  lemma ReceivedStarted(clientId: string, replyId: string, meta: TO.Meta, calls: seq<LlmService.ChunkCall>)
    ensures Received(TO.Started(clientId, replyId, meta, calls), clientId)
         == [ResponseStart(replyId, meta.relatedMessageId, meta.parentNodeId, meta.nodeType, meta.taskId)] + ChunkStream(replyId, calls)
  {
    var start := TO.StartEffect(clientId, replyId, meta);
    ReceivedAppend([start], TO.ChunkEvents(clientId, replyId, calls), clientId);
    ReceivedOne(start, clientId);
    ReceivedChunks(clientId, replyId, calls);
  }

  /** What a client receives of a completed reply's end: only
      `response_end`, since the stores are not sent. */
  lemma ReceivedFinished(clientId: string, replyId: string, meta: TO.Meta, full: string, now: int)
    ensures Received(TO.Finished(clientId, replyId, meta, full, now), clientId)
         == [ResponseEnd(replyId, meta.relatedMessageId, Length(full))]
  {
    var save := [TO.SaveMessage(CB.Message(replyId, CB.Assistant, full, now, meta.parentNodeId, []))];
    var mem := TO.ExtractMemory(full, meta.nodeType);
    var end := TO.Send(clientId, ResponseEnd(replyId, meta.relatedMessageId, Length(full)));
    ReceivedAppend(save + mem, [end], clientId);
    ReceivedNothing(save + mem, clientId);
    ReceivedOne(end, clientId);
  }

  /** What a client receives of a completed `streamResponse`: the start,
      the chunks and the end; the stores are not sent. */
  lemma StreamReceived(clientId: string, replyId: string, meta: TO.Meta, s: LlmService.Stream, now: int)
    requires s.failure.None?
    ensures var calls := LlmService.ChunkCalls(s.deltas);
      Received(TO.StreamResponse(clientId, replyId, meta, s, now).effects, clientId)
        == [ResponseStart(replyId, meta.relatedMessageId, meta.parentNodeId, meta.nodeType, meta.taskId)]
           + ChunkStream(replyId, calls)
           + [ResponseEnd(replyId, meta.relatedMessageId, Length(LlmService.LastAccumulated(calls)))]
  {
    var calls := LlmService.ChunkCalls(s.deltas);
    var full := LlmService.LastAccumulated(calls);
    ReceivedAppend(TO.Started(clientId, replyId, meta, calls), TO.Finished(clientId, replyId, meta, full, now), clientId);
    ReceivedStarted(clientId, replyId, meta, calls);
    ReceivedFinished(clientId, replyId, meta, full, now);
  }

  /** Every node with id `id` shows `text`, and there is one. */
  predicate Shows(nodes: seq<Node>, id: string, text: string) {
    && id in Ids(nodes)
    && forall i :: 0 <= i < |nodes| && nodes[i].id == id ==> nodes[i].content == text
  }

  /** A reply node just appended to nodes that had no node with its id
      shows the empty text. */
  lemma FreshShows(before: seq<Node>, after: seq<Node>, m: string)
    requires m !in Ids(before)
    requires |after| == |before| + 1 && after[..|before|] == before
    requires after[|before|].id == m && after[|before|].content == ""
    ensures Shows(after, m, "")
  {
    AddedIds(before, after);
    forall i | 0 <= i < |after| && after[i].id == m
      ensures after[i].content == ""
    {
      if i < |before| {
        assert false;
      }
    }
  }

  /** Updating the content of a node that exists makes it show the text. */
  lemma UpdatedShows(nodes: seq<Node>, m: string, text: string)
    requires m in Ids(nodes)
    ensures Shows(UpdateContent(nodes, m, text), m, text)
  {
    SameIds(nodes, UpdateContent(nodes, m, text));
  }

  /** A reply started on a client that had no node for it, followed by its
      chunks, shows the last accumulated text. */
  lemma StartThenChunks(c: Client, start: ServerEvent, calls: seq<LlmService.ChunkCall>, os: seq<ClientOracle>)
    requires start.ResponseStart? && start.messageId != ""
    requires start.messageId !in Ids(c.store.nodes) && !HasReplyNode(c.store.nodes, start.messageId)
    requires |os| == 1 + |calls|
    ensures var r := HandleAll(c, [start] + ChunkStream(start.messageId, calls), os);
      && Shows(r.store.nodes, start.messageId, LlmService.LastAccumulated(calls))
      && start.messageId in r.store.streaming
  {
    var m := start.messageId;
    HandleAppend(c, [start], ChunkStream(m, calls), os);
    HandleOne(c, start, os[..1]);
    assert os[..1][0] == os[0];
    ResponseStartOnce(c, start, os[0], os[0]);
    var c1 := HandleMessage(c, start, os[0]);
    FreshShows(c.store.nodes, c1.store.nodes, m);
    ChunksShowLast(c1, m, calls, os[1..]);
    if |calls| > 0 {
      UpdatedShows(c1.store.nodes, m, LlmService.LastAccumulated(calls));
    }
  }

  /** A reply started on a client that had no node for it, followed by
      its chunks and its end, shows the last accumulated text, no longer
      streams, and is selected. */
  lemma ReplyShown(c: Client, start: ServerEvent, calls: seq<LlmService.ChunkCall>, end: ServerEvent, os: seq<ClientOracle>)
    requires start.ResponseStart? && start.messageId != ""
    requires start.messageId !in Ids(c.store.nodes) && !HasReplyNode(c.store.nodes, start.messageId)
    requires end.ResponseEnd? && end.messageId == start.messageId
    requires |os| == |calls| + 2
    ensures var r := HandleAll(c, [start] + ChunkStream(start.messageId, calls) + [end], os);
      && Shows(r.store.nodes, start.messageId, LlmService.LastAccumulated(calls))
      && start.messageId !in r.store.streaming
      && r.store.selected == Some(start.messageId)
  {
    var es := [start] + ChunkStream(start.messageId, calls);
    HandleAppend(c, es, [end], os);
    StartThenChunks(c, start, calls, os[..|es|]);
    HandleOne(HandleAll(c, es, os[..|es|]), end, os[|es|..]);
  }

  /** A client that receives the events of a completed `streamResponse`
      ends up showing, in the reply's node, exactly the text the model
      streamed (the concatenation of its deltas), no longer streams it, and
      selects it. Each `response_chunk` replaces the text, so this holds
      because the server's chunks carry the accumulated text. */
  lemma StreamShown(c: Client, clientId: string, replyId: string, meta: TO.Meta, s: LlmService.Stream, now: int, os: seq<ClientOracle>)
    requires replyId != "" && replyId !in Ids(c.store.nodes) && !HasReplyNode(c.store.nodes, replyId)
    requires s.failure.None?
    requires |os| == |Received(TO.StreamResponse(clientId, replyId, meta, s, now).effects, clientId)|
    ensures var r := HandleAll(c, Received(TO.StreamResponse(clientId, replyId, meta, s, now).effects, clientId), os);
      && Shows(r.store.nodes, replyId, LlmService.Concat(s.deltas))
      && replyId !in r.store.streaming
      && r.store.selected == Some(replyId)
  {
    var calls := LlmService.ChunkCalls(s.deltas);
    var start := ResponseStart(replyId, meta.relatedMessageId, meta.parentNodeId, meta.nodeType, meta.taskId);
    var end := ResponseEnd(replyId, meta.relatedMessageId, Length(LlmService.LastAccumulated(calls)));
    StreamReceived(clientId, replyId, meta, s, now);
    ReplyShown(c, start, calls, end, os);
    LlmService.LastAccumulatedIsConcat(s.deltas);
  }

  lemma HandleOne(c: Client, e: ServerEvent, os: seq<ClientOracle>)
    requires |os| == 1
    ensures HandleAll(c, [e], os) == HandleMessage(c, e, os[0])
  {
    HandleSnoc(c, [e], os);
    assert [e][..0] == [];
  }

  // ---------------------------------------------------------------------
  // The queue's error, end to end
  // ---------------------------------------------------------------------

  /** When a queued job fails, the error the server sends as written
      carries no message id, so the client keeps the message in its
      active set and its processing counter never comes down; the
      corrected error stops the tracking and marks the message failed. */
  lemma QueueErrorTracking(c: Client, data: map<string, Value>, m: string, error: string, o: ClientOracle)
    requires m != "" && m in c.store.active
    requires "messageId" in data && data["messageId"] == Str(m)
    ensures var asWritten := Server.QueueErrorAsWritten(Server.ClientMessage("chat", data), error);
      && asWritten.Some?
      && HandleMessage(c, asWritten.value, o) == c
      && m in HandleMessage(c, asWritten.value, o).store.active
    ensures var corrected := Server.QueueError(Server.ClientMessage("chat", data), error);
      && corrected.Some?
      && m !in HandleMessage(c, corrected.value, o).store.active
      && HandleMessage(c, corrected.value, o).store.statuses[m] == Failed
  {
    Server.QueueErrorDropsId("chat", data, m, error);
  }

  /** What the input area does on submit: nothing for blank input or
      while disconnected; otherwise the user's message node under the
      selected node, tracked as active with stage `sending`. */
  function Submit(c: Client, m: string, content: string, o: ClientOracle): (r: Client)
    ensures Trim(content) == "" || !c.connected ==> r == c
    ensures Trim(content) != "" && c.connected ==>
      && m in r.store.active && m in r.store.statuses && r.store.statuses[m] == Sending
      && |r.store.nodes| == |c.store.nodes| + 1 && r.store.nodes[|c.store.nodes|].id == m
    ensures StatsAgree(c.store) ==> StatsAgree(r.store)
  {
    if Trim(content) == "" || !c.connected then c
    else
      var parent := if c.store.selected.Some? then c.store.selected.value else "";
      var node := Node(m, ChatNode, "User", content, parent, o.x, o.y, None, "");
      var st := AddActiveProcessing(c.store.(nodes := AddNode(c.store.nodes, node, o.x, o.y)), m);
      c.(store := st.(statuses := st.statuses[m := Sending]))
  }

  /** A submitted message whose job fails in the queue stays active for
      good under the error as written, and is released under the corrected
      one. */
  lemma SubmittedThenQueueError(c: Client, data: map<string, Value>, m: string, content: string, error: string, o1: ClientOracle, o2: ClientOracle)
    requires m != "" && "messageId" in data && data["messageId"] == Str(m)
    requires c.connected && Trim(content) != ""
    ensures var s := Submit(c, m, content, o1);
      && m in HandleMessage(s, Server.QueueErrorAsWritten(Server.ClientMessage("chat", data), error).value, o2).store.active
      && m !in HandleMessage(s, Server.QueueError(Server.ClientMessage("chat", data), error).value, o2).store.active
  {
    QueueErrorTracking(Submit(c, m, content, o1), data, m, error, o2);
  }
}
