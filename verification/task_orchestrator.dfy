/** server/core/task-orchestrator.js: routing of a classified message to
    one of three branches, per-session admission of tasks, the
    `activeTasks` map and its timeout sweep, and the event trace each
    branch sends. Every asynchronous branch is one sequential function
    that yields the effects it performs in order; what the classifier, the
    context builder, the model stream, the id generator and the clock
    return is supplied by an `Oracle`. */
module TaskOrchestrator {
  import opened Wrappers
  import opened Js
  import opened Protocol
  import LlmService
  import IntentEngine
  import CB = ContextBuilder

  const DefaultMaxTasksPerSession := 5
  const DefaultTimeoutMs := 300000
  const TimeoutMessage := "Task timeout (5 minutes)"
  const IntentNotFound := "Intent information not found"
  /** What `build` throws for an intent without `contextHints`. */
  const MissingHints := "Cannot read properties of undefined (reading 'shouldIncludeRecentHistory')"
  /** What SQLite rejects an `INSERT` into `intents` with when the id is
      already a row's primary key. */
  const DuplicateIntent := "SQLITE_CONSTRAINT: UNIQUE constraint failed: intents.id"

  /** The two settings read from the environment, through
      `parseInt(..) || default`. */
  datatype Config = Config(maxTasks: int, timeout: int)

  function ConfigOf(maxTasksEnv: string, timeoutEnv: string): (c: Config)
    ensures maxTasksEnv == "" ==> c.maxTasks == DefaultMaxTasksPerSession
    ensures timeoutEnv == "" ==> c.timeout == DefaultTimeoutMs
    ensures c.maxTasks != 0 && c.timeout != 0
  {
    Config(CB.EnvIntAnyRadix(maxTasksEnv, DefaultMaxTasksPerSession), CB.EnvIntAnyRadix(timeoutEnv, DefaultTimeoutMs))
  }

  // ---------------------------------------------------------------------
  // State: the active-task map and the two tables the orchestrator writes
  // ---------------------------------------------------------------------

  /** A value of `activeTasks`: who the task belongs to and when it began. */
  datatype ActiveTask = ActiveTask(sessionId: string, clientId: string, startTime: int)

  /** One entry of `activeTasks`; the sequence keeps insertion order, which
      is the order a `Map` iterates in. */
  datatype Entry = Entry(taskId: string, task: ActiveTask)

  datatype TaskStatus = Running | Completed | TimedOut

  /** A row of the `tasks` table. */
  datatype TaskRow = TaskRow(sessionId: string, kind: Value, input: string, status: TaskStatus)

  /** The columns of an `intents` row that re-execution reads back. */
  datatype IntentRow = IntentRow(sessionId: string, userMessageId: string, intentType: Value, topic: Value)

  datatype State = State(active: seq<Entry>, tasks: map<string, TaskRow>, intents: map<string, IntentRow>)

  /** What a branch does besides changing the state: a message to one
      client, a broadcast, or a write to the message or memory store. */
  datatype Effect =
    | Send(clientId: string, event: ServerEvent)
    | Broadcast(event: ServerEvent)
    | SaveMessage(message: CB.Message)
    | SaveMemory(memory: CB.Memory)

  function Ids(active: seq<Entry>): seq<string> {
    seq(|active|, i requires 0 <= i < |active| => active[i].taskId)
  }

  /** `activeTasks.get(taskId)` */
  function Find(active: seq<Entry>, taskId: string): (r: Option<ActiveTask>)
    ensures r.Some? <==> taskId in Ids(active)
  {
    if |active| == 0 then None
    else
      assert Ids(active) == Ids(active[..|active| - 1]) + [active[|active| - 1].taskId];
      if active[|active| - 1].taskId == taskId then Some(active[|active| - 1].task)
      else Find(active[..|active| - 1], taskId)
  }

  /** `activeTasks.set(taskId, task)`: an existing key keeps its place and
      takes the new value, a new key goes last. */
  function SetEntry(active: seq<Entry>, taskId: string, task: ActiveTask): (r: seq<Entry>)
  {
    if taskId in Ids(active) then
      seq(|active|, i requires 0 <= i < |active| =>
        if active[i].taskId == taskId then Entry(taskId, task) else active[i])
    else active + [Entry(taskId, task)]
  }

  /** `activeTasks.delete(taskId)` */
  function Delete(active: seq<Entry>, taskId: string): (r: seq<Entry>)
    ensures |r| <= |active|
  {
    if |active| == 0 then []
    else
      var rest := Delete(active[..|active| - 1], taskId);
      if active[|active| - 1].taskId == taskId then rest else rest + [active[|active| - 1]]
  }

  /** The number of active tasks of a session. */
  function SessionCount(active: seq<Entry>, sessionId: string): nat {
    if |active| == 0 then 0
    else
      var own := if active[|active| - 1].task.sessionId == sessionId then 1 else 0;
      SessionCount(active[..|active| - 1], sessionId) + own
  }

  /** After `set`, the key maps to the new value and every other key to
      what it mapped to before. */
  lemma {:induction false} FindSetEntry(active: seq<Entry>, taskId: string, task: ActiveTask, other: string)
    ensures Find(SetEntry(active, taskId, task), taskId) == Some(task)
    ensures other != taskId ==> Find(SetEntry(active, taskId, task), other) == Find(active, other)
  {
    if taskId in Ids(active) {
      FindReplaced(active, taskId, task, other);
    } else {
      var r := active + [Entry(taskId, task)];
      assert r[..|r| - 1] == active;
    }
  }

  lemma {:induction false} FindReplaced(active: seq<Entry>, taskId: string, task: ActiveTask, other: string)
    requires taskId in Ids(active)
    ensures var r := seq(|active|, i requires 0 <= i < |active| =>
        if active[i].taskId == taskId then Entry(taskId, task) else active[i]);
      && Find(r, taskId) == Some(task)
      && (other != taskId ==> Find(r, other) == Find(active, other))
  {
    var r := seq(|active|, i requires 0 <= i < |active| =>
        if active[i].taskId == taskId then Entry(taskId, task) else active[i]);
    var init := active[..|active| - 1];
    var ri := seq(|init|, i requires 0 <= i < |init| =>
        if init[i].taskId == taskId then Entry(taskId, task) else init[i]);
    assert r[..|r| - 1] == ri;
    assert Ids(active) == Ids(init) + [active[|active| - 1].taskId];
    if active[|active| - 1].taskId != taskId {
      FindReplaced(init, taskId, task, other);
    } else if other != taskId && taskId in Ids(init) {
      FindReplaced(init, taskId, task, other);
    } else if other != taskId {
      FindOther(init, taskId, task, other);
    }
  }

  /** Replacing a key that is absent changes nothing. */
  lemma {:induction false} FindOther(active: seq<Entry>, taskId: string, task: ActiveTask, other: string)
    requires taskId !in Ids(active)
    ensures var r := seq(|active|, i requires 0 <= i < |active| =>
        if active[i].taskId == taskId then Entry(taskId, task) else active[i]);
      r == active
  {
    assert forall i :: 0 <= i < |active| ==> Ids(active)[i] == active[i].taskId;
  }

  /** After `delete`, the key is gone and every other key is untouched. */
  lemma {:induction false} FindDelete(active: seq<Entry>, taskId: string, other: string)
    ensures Find(Delete(active, taskId), taskId) == None
    ensures other != taskId ==> Find(Delete(active, taskId), other) == Find(active, other)
  {
    if |active| > 0 {
      var init := active[..|active| - 1];
      var rest := Delete(init, taskId);
      FindDelete(init, taskId, other);
      if active[|active| - 1].taskId != taskId {
        var r := rest + [active[|active| - 1]];
        assert r[..|r| - 1] == rest;
      }
    }
  }

  /** Deleting a key that was just added with `set` restores the map. */
  lemma {:induction false} DeleteUndoesSet(active: seq<Entry>, taskId: string, task: ActiveTask)
    requires taskId !in Ids(active)
    ensures Delete(SetEntry(active, taskId, task), taskId) == active
  {
    var r := active + [Entry(taskId, task)];
    assert r[..|r| - 1] == active;
    DeleteAbsent(active, taskId);
  }

  lemma {:induction false} DeleteAbsent(active: seq<Entry>, taskId: string)
    requires taskId !in Ids(active)
    ensures Delete(active, taskId) == active
  {
    if |active| > 0 {
      var init := active[..|active| - 1];
      assert Ids(active) == Ids(init) + [active[|active| - 1].taskId];
      DeleteAbsent(init, taskId);
    }
  }

  /** Adding a new key counts once towards its own session and not at all
      towards any other. */
  lemma SessionCountSet(active: seq<Entry>, taskId: string, task: ActiveTask, sessionId: string)
    requires taskId !in Ids(active)
    ensures SessionCount(SetEntry(active, taskId, task), sessionId)
      == SessionCount(active, sessionId) + (if task.sessionId == sessionId then 1 else 0)
  {
    var r := active + [Entry(taskId, task)];
    assert r[..|r| - 1] == active;
  }

  // ---------------------------------------------------------------------
  // The timeout sweep (startTimeoutMonitor's interval body)
  // ---------------------------------------------------------------------

  predicate Expired(e: Entry, now: int, timeout: int) {
    now - e.task.startTime > timeout
  }

  /** The entries the sweep keeps, in their order. */
  function Kept(active: seq<Entry>, now: int, timeout: int): seq<Entry> {
    if |active| == 0 then []
    else
      var e := active[|active| - 1];
      Kept(active[..|active| - 1], now, timeout) + (if Expired(e, now, timeout) then [] else [e])
  }

  /** The sweep keeps exactly the entries that have not expired. */
  lemma {:induction false} KeptMembers(active: seq<Entry>, now: int, timeout: int)
    ensures forall e :: e in Kept(active, now, timeout) <==> e in active && !Expired(e, now, timeout)
  {
    if |active| > 0 {
      var e := active[|active| - 1];
      KeptMembers(active[..|active| - 1], now, timeout);
      assert active == active[..|active| - 1] + [e];
    }
  }

  /** The entries the sweep removes, in the order it visits them. */
  function Timeouts(active: seq<Entry>, now: int, timeout: int): seq<Entry> {
    if |active| == 0 then []
    else
      var e := active[|active| - 1];
      Timeouts(active[..|active| - 1], now, timeout) + (if Expired(e, now, timeout) then [e] else [])
  }

  /** The sweep removes exactly the entries that have expired. */
  lemma {:induction false} TimeoutsMembers(active: seq<Entry>, now: int, timeout: int)
    ensures forall e :: e in Timeouts(active, now, timeout) <==> e in active && Expired(e, now, timeout)
  {
    if |active| > 0 {
      var e := active[|active| - 1];
      TimeoutsMembers(active[..|active| - 1], now, timeout);
      assert active == active[..|active| - 1] + [e];
    }
  }

  /** The rows of timed-out tasks set to `timeout`; an UPDATE of a missing
      row does nothing. */
  function MarkTimedOut(tasks: map<string, TaskRow>, gone: seq<Entry>): (r: map<string, TaskRow>)
    ensures r.Keys == tasks.Keys
  {
    if |gone| == 0 then tasks
    else
      var id := gone[|gone| - 1].taskId;
      var t := MarkTimedOut(tasks, gone[..|gone| - 1]);
      if id in t then t[id := t[id].(status := TimedOut)] else t
  }

  /** One error per removed task, to the client that started it, with the
      task id as message id. */
  function TimeoutErrors(gone: seq<Entry>): seq<Effect> {
    seq(|gone|, i requires 0 <= i < |gone| => Send(gone[i].task.clientId, Error(gone[i].taskId, TimeoutMessage)))
  }

  /** One run of the sweep at time `now`. */
  function Sweep(st: State, now: int, timeout: int): (r: (State, seq<Effect>))
  {
    var gone := Timeouts(st.active, now, timeout);
    (st.(active := Kept(st.active, now, timeout), tasks := MarkTimedOut(st.tasks, gone)), TimeoutErrors(gone))
  }

  /** The sweep removes exactly the entries older than the timeout, sends
      one error for each, to its client and in map order, marks exactly
      their rows `timeout`, and leaves every other row alone. */
  lemma {:induction false} SweepRemovesExpired(st: State, now: int, timeout: int, id: string)
    ensures var (st', effs) := Sweep(st, now, timeout);
      var gone := Timeouts(st.active, now, timeout);
      && (forall e :: e in st'.active <==> e in st.active && !Expired(e, now, timeout))
      && |effs| == |gone|
      && (forall i :: 0 <= i < |gone| ==> effs[i] == Send(gone[i].task.clientId, Error(gone[i].taskId, TimeoutMessage)))
      && st'.intents == st.intents
      && (id in st.tasks && id in Ids(gone) ==> st'.tasks[id] == st.tasks[id].(status := TimedOut))
      && (id in st.tasks && id !in Ids(gone) ==> st'.tasks[id] == st.tasks[id])
  {
    KeptMembers(st.active, now, timeout);
    MarkTimedOutRows(st.tasks, Timeouts(st.active, now, timeout), id);
  }

  lemma {:induction false} MarkTimedOutRows(tasks: map<string, TaskRow>, gone: seq<Entry>, id: string)
    ensures id in tasks && id in Ids(gone) ==> MarkTimedOut(tasks, gone)[id] == tasks[id].(status := TimedOut)
    ensures id in tasks && id !in Ids(gone) ==> MarkTimedOut(tasks, gone)[id] == tasks[id]
  {
    if |gone| > 0 {
      var init := gone[..|gone| - 1];
      assert Ids(gone) == Ids(init) + [gone[|gone| - 1].taskId];
      MarkTimedOutRows(tasks, init, id);
    }
  }

  /** A second sweep at the same time finds nothing to do. */
  lemma {:induction false} SweepIdempotent(st: State, now: int, timeout: int)
    ensures var (st', _) := Sweep(st, now, timeout);
      Sweep(st', now, timeout) == (st', [])
  {
    var (st', _) := Sweep(st, now, timeout);
    KeptMembers(st.active, now, timeout);
    KeptStable(st'.active, now, timeout);
    assert MarkTimedOut(st'.tasks, []) == st'.tasks;
    assert TimeoutErrors([]) == [];
    assert st'.(active := Kept(st'.active, now, timeout), tasks := MarkTimedOut(st'.tasks, [])) == st';
  }

  lemma KeptStable(active: seq<Entry>, now: int, timeout: int)
    requires forall e :: e in active ==> !Expired(e, now, timeout)
    ensures Kept(active, now, timeout) == active
    ensures Timeouts(active, now, timeout) == []
  {
    assert forall i :: 0 <= i < |active| ==> active[i] in active;
    KeptAll(active, now, timeout);
    NoTimeouts(active, now, timeout);
  }

  lemma {:induction false} KeptAll(active: seq<Entry>, now: int, timeout: int)
    requires forall i :: 0 <= i < |active| ==> !Expired(active[i], now, timeout)
    ensures Kept(active, now, timeout) == active
  {
    if |active| > 0 {
      KeptAll(active[..|active| - 1], now, timeout);
    }
  }

  lemma {:induction false} NoTimeouts(active: seq<Entry>, now: int, timeout: int)
    requires forall i :: 0 <= i < |active| ==> !Expired(active[i], now, timeout)
    ensures Timeouts(active, now, timeout) == []
  {
    if |active| > 0 {
      NoTimeouts(active[..|active| - 1], now, timeout);
    }
  }

  // ---------------------------------------------------------------------
  // Traces of the branches
  // ---------------------------------------------------------------------

  /** The effects of a step in order, and the exception it ended with. */
  datatype Trace = Trace(effects: seq<Effect>, failure: Option<string>)

  /** A trace together with the state it leaves. */
  datatype Outcome = Outcome(state: State, effects: seq<Effect>, failure: Option<string>)

  /** The intent fields the branches read. */
  datatype TaskIntent = TaskIntent(id: string, kind: Value, topic: Value, requiresAction: Value, userInput: string)

  /** What a branch works on: the client, the session, the message id its
      statuses and errors refer to, and the intent. */
  datatype Job = Job(clientId: string, sessionId: string, messageId: string, intent: TaskIntent)

  /** What the outside world supplies to one branch: the clock, the ids
      `uuidv4` returns for a task and for the reply, and the model's
      stream. */
  datatype Oracle = Oracle(now: int, taskId: string, replyId: string, stream: LlmService.Stream)

  datatype Branch = Interrupt | Task | Simple

  /** The routing of `handleUserInput` and `handleReexecute`: an interrupt
      wins over `requiresAction`, which wins over a plain answer. */
  function Route(kind: Value, requiresAction: Value): (b: Branch)
    ensures b == Interrupt <==> kind == Str("interrupt")
    ensures b == Task <==> kind != Str("interrupt") && Truthy(requiresAction)
    ensures b == Simple <==> kind != Str("interrupt") && !Truthy(requiresAction)
  {
    if kind == Str("interrupt") then Interrupt
    else if Truthy(requiresAction) then Task
    else Simple
  }

  /** `sendMessageStatus` */
  function Status(job: Job, stage: Stage): Effect {
    Send(job.clientId, MessageStatus(job.messageId, stage))
  }

  /** `extractAndSaveMemory`: a reply whose `length` (in UTF-16 code
      units) exceeds 100 is kept as a memory of at most its first 500
      characters, typed `task` for a task reply and `conversation`
      otherwise. */
  function ExtractMemory(content: string, nodeType: NodeType): (r: seq<Effect>)
    ensures |r| <= 1 && (|r| == 1 <==> Length(content) > 100)
    ensures |r| == 1 ==> r[0].SaveMemory? && StartsWith(content, r[0].memory.content)
    ensures |r| == 1 ==> |r[0].memory.content| == (if |content| < 500 then |content| else 500)
    ensures |r| == 1 ==> r[0].memory.kind in {"task", "conversation"}
    ensures |r| == 1 ==> (r[0].memory.kind == "task" <==> nodeType == TaskResponse)
  {
    if Length(content) > 100 then
      [SaveMemory(CB.Memory(if nodeType == TaskResponse then "task" else "conversation", Prefix(content, 500)))]
    else []
  }

  /** A reply of 60 emoji is 120 code units long in JavaScript, so it is
      kept as a memory although it has only 60 code points; a reply of 101
      plain characters is kept too, and one of 100 is not. */
  lemma ExtractMemoryCountsUnits(nodeType: NodeType)
    ensures |ExtractMemory(seq(60, _ => '\U{1F600}'), nodeType)| == 1
    ensures |ExtractMemory(seq(101, _ => 'a'), nodeType)| == 1
    ensures ExtractMemory(seq(100, _ => 'a'), nodeType) == []
  {
    LengthAstral(seq(60, _ => '\U{1F600}'));
    LengthBmp(seq(101, _ => 'a'));
    LengthBmp(seq(100, _ => 'a'));
  }

  /** The metadata `streamResponse` is given. */
  datatype Meta = Meta(nodeType: NodeType, taskId: string, parentNodeId: string, relatedMessageId: string)

  /** One `response_chunk` per `onChunk` call. */
  function ChunkEvents(clientId: string, replyId: string, calls: seq<LlmService.ChunkCall>): seq<Effect> {
    seq(|calls|, k requires 0 <= k < |calls| => Send(clientId, ResponseChunk(replyId, calls[k].chunk, calls[k].accumulated)))
  }

  /** The `response_start` of a reply. */
  function StartEffect(clientId: string, replyId: string, meta: Meta): Effect {
    Send(clientId, ResponseStart(replyId, meta.relatedMessageId, meta.parentNodeId, meta.nodeType, meta.taskId))
  }

  /** What `streamResponse` sends while the stream runs: the start and one
      chunk per `onChunk` call. */
  function Started(clientId: string, replyId: string, meta: Meta, calls: seq<LlmService.ChunkCall>): seq<Effect> {
    [StartEffect(clientId, replyId, meta)] + ChunkEvents(clientId, replyId, calls)
  }

  /** What `streamResponse` does once the stream has completed with text
      `full`: save the reply, its memory, and send `response_end`. */
  function Finished(clientId: string, replyId: string, meta: Meta, full: string, now: int): seq<Effect> {
    [SaveMessage(CB.Message(replyId, CB.Assistant, full, now, meta.parentNodeId, []))]
      + ExtractMemory(full, meta.nodeType) + [Send(clientId, ResponseEnd(replyId, meta.relatedMessageId, Length(full)))]
  }

  /** `streamResponse`: start, one chunk per non-empty delta, then (unless
      the stream threw) the saved reply, its memory, and the end. */
  function StreamResponse(clientId: string, replyId: string, meta: Meta, s: LlmService.Stream, now: int): Trace {
    var calls := LlmService.ChunkCalls(s.deltas);
    if s.failure.Some? then Trace(Started(clientId, replyId, meta, calls), s.failure)
    else Trace(Started(clientId, replyId, meta, calls) + Finished(clientId, replyId, meta, LlmService.LastAccumulated(calls), now), None)
  }

  lemma StartedShape(clientId: string, replyId: string, meta: Meta, calls: seq<LlmService.ChunkCall>)
    ensures var r := Started(clientId, replyId, meta, calls);
      && |r| == |calls| + 1
      && r[0] == StartEffect(clientId, replyId, meta)
      && forall k :: 0 <= k < |calls| ==> r[k + 1] == Send(clientId, ResponseChunk(replyId, calls[k].chunk, calls[k].accumulated))
  {
    var r := Started(clientId, replyId, meta, calls);
    forall k | 0 <= k < |calls|
      ensures r[k + 1] == Send(clientId, ResponseChunk(replyId, calls[k].chunk, calls[k].accumulated))
    {
      assert r[k + 1] == ChunkEvents(clientId, replyId, calls)[k];
    }
  }

  lemma FinishedShape(clientId: string, replyId: string, meta: Meta, full: string, now: int)
    ensures var r := Finished(clientId, replyId, meta, full, now);
      && |r| >= 2
      && r[0] == SaveMessage(CB.Message(replyId, CB.Assistant, full, now, meta.parentNodeId, []))
      && r[1..|r| - 1] == ExtractMemory(full, meta.nodeType)
      && r[|r| - 1] == Send(clientId, ResponseEnd(replyId, meta.relatedMessageId, Length(full)))
  {
    var save := [SaveMessage(CB.Message(replyId, CB.Assistant, full, now, meta.parentNodeId, []))];
    var mem := ExtractMemory(full, meta.nodeType);
    var end := [Send(clientId, ResponseEnd(replyId, meta.relatedMessageId, Length(full)))];
    assert (save + mem + end)[1..|save + mem + end| - 1] == mem;
  }

  /** Indexing into a concatenation past its first part. */
  lemma ConcatTail<T>(a: seq<T>, b: seq<T>)
    requires |b| >= 2
    ensures (a + b)[..|a|] == a
    ensures (a + b)[|a|] == b[0]
    ensures (a + b)[|a| + 1..|a + b| - 1] == b[1..|b| - 1]
    ensures (a + b)[|a + b| - 1] == b[|b| - 1]
  {
    assert (a + b)[|a| + 1..|a + b| - 1] == b[1..|b| - 1];
  }

  /** The events of a reply are ordered: `response_start` first, then one
      `response_chunk` per non-empty delta carrying the text so far, and,
      when the stream completes, the saved assistant message whose content
      is the whole reply and whose parent is the given parent node, the
      memory, and `response_end` with the reply's length last. A failing
      stream ends the trace after the chunks it delivered. */
  lemma StreamOrder(clientId: string, replyId: string, meta: Meta, s: LlmService.Stream, now: int)
    ensures var t := StreamResponse(clientId, replyId, meta, s, now);
      var calls := LlmService.ChunkCalls(s.deltas);
      var n := |calls|;
      var full := LlmService.Concat(s.deltas);
      && n + 1 <= |t.effects|
      && t.effects[0] == Send(clientId, ResponseStart(replyId, meta.relatedMessageId, meta.parentNodeId, meta.nodeType, meta.taskId))
      && (forall k :: 0 <= k < n ==> t.effects[k + 1] == Send(clientId, ResponseChunk(replyId, calls[k].chunk, calls[k].accumulated)))
      && t.failure == s.failure
      && (s.failure.Some? ==> |t.effects| == n + 1)
      && (s.failure.None? ==>
            && t.effects[n + 1] == SaveMessage(CB.Message(replyId, CB.Assistant, full, now, meta.parentNodeId, []))
            && t.effects[n + 2..|t.effects| - 1] == ExtractMemory(full, meta.nodeType)
            && t.effects[|t.effects| - 1] == Send(clientId, ResponseEnd(replyId, meta.relatedMessageId, Length(full))))
  {
    var calls := LlmService.ChunkCalls(s.deltas);
    LlmService.LastAccumulatedIsConcat(s.deltas);
    var started := Started(clientId, replyId, meta, calls);
    StartedShape(clientId, replyId, meta, calls);
    if s.failure.None? {
      var full := LlmService.LastAccumulated(calls);
      var finished := Finished(clientId, replyId, meta, full, now);
      FinishedShape(clientId, replyId, meta, full, now);
      ConcatTail(started, finished);
      assert forall k :: 0 <= k < |started| ==> (started + finished)[k] == started[k];
    }
  }

  /** Every chunk a client sees carries the reply's id and a non-empty
      delta, and the last one carries the whole reply. */
  lemma StreamChunksComplete(clientId: string, replyId: string, meta: Meta, s: LlmService.Stream, now: int)
    ensures var t := StreamResponse(clientId, replyId, meta, s, now);
      var n := |LlmService.ChunkCalls(s.deltas)|;
      && n + 1 <= |t.effects|
      && (forall k :: 1 <= k <= n ==>
            t.effects[k].Send? && t.effects[k].event.ResponseChunk?
            && t.effects[k].event.messageId == replyId && t.effects[k].event.chunk != "")
      && (n > 0 ==> t.effects[n].event.accumulated == LlmService.Concat(s.deltas))
  {
    var calls := LlmService.ChunkCalls(s.deltas);
    StreamOrder(clientId, replyId, meta, s, now);
    LlmService.ChunkCallsFacts(s.deltas);
    LlmService.LastAccumulatedIsConcat(s.deltas);
    var t := StreamResponse(clientId, replyId, meta, s, now);
    forall k | 1 <= k <= |calls|
      ensures t.effects[k].event.chunk != ""
    {
      assert calls[k - 1] in calls;
    }
  }

  /** Where a branch gets its context: from `build`, which may throw, or
      from the client, on re-execution. */
  datatype ContextSource = Build(built: Result<CB.Composed>) | Supplied

  /** `handleInterrupt`. The running tasks it lists in the prompt come
      from the database and are not represented. */
  function InterruptBranch(st: State, job: Job, built: Result<CB.Composed>, o: Oracle): Outcome {
    var building := [Status(job, ContextBuilding)];
    if built.Err? then Outcome(st, building, Some(built.error))
    else
      var t := StreamResponse(job.clientId, o.replyId, Meta(InterruptResponse, "", job.intent.id, job.messageId), o.stream, o.now);
      Outcome(st, building + [Status(job, Responding)] + t.effects, t.failure)
  }

  /** The task row and the map entry an admitted task gets. */
  function Admit(st: State, job: Job, taskId: string, now: int): State {
    st.(active := SetEntry(st.active, taskId, ActiveTask(job.sessionId, job.clientId, now)),
        tasks := st.tasks[taskId := TaskRow(job.sessionId, job.intent.kind, job.intent.userInput, Running)])
  }

  /** The end of a task that ran to completion: its row becomes
      `completed`, whatever it was, and its entry leaves the map. */
  function Finish(st: State, taskId: string): State {
    st.(active := Delete(st.active, taskId),
        tasks := if taskId in st.tasks then st.tasks[taskId := st.tasks[taskId].(status := Completed)] else st.tasks)
  }

  /** The context step of a task: build it and broadcast its size, or
      use the supplied one without a word. */
  function TaskContext(job: Job, taskId: string, source: ContextSource): Trace {
    match source
    case Supplied => Trace([], None)
    case Build(Err(e)) => Trace([Status(job, ContextBuilding)], Some(e))
    case Build(Ok(c)) =>
      Trace([Status(job, ContextBuilding), Broadcast(ContextBuilt(taskId, c.contextSize, |c.messages| - 2))], None)
  }

  /** The execution step of a task, on whatever state holds when it runs. */
  function Execute(st: State, job: Job, taskId: string, o: Oracle): Outcome {
    var t := StreamResponse(job.clientId, o.replyId, Meta(TaskResponse, taskId, job.intent.id, job.messageId), o.stream, o.now);
    var effs := [Status(job, Executing)] + t.effects;
    if t.failure.Some? then Outcome(st, effs, t.failure)
    else Outcome(Finish(st, taskId), effs + [Broadcast(TaskCompleted(taskId))], None)
  }

  /** `createAndExecuteTask` (context built) and
      `createAndExecuteTaskWithContext` (context supplied). */
  function TaskBranch(st: State, cfg: Config, job: Job, source: ContextSource, o: Oracle): Outcome {
    if SessionCount(st.active, job.sessionId) >= cfg.maxTasks then
      Outcome(st, [Send(job.clientId, TaskLimitReached(job.messageId, cfg.maxTasks))], None)
    else
      var admitted := Admit(st, job, o.taskId, o.now);
      var ctx := TaskContext(job, o.taskId, source);
      var pre := [Broadcast(TaskCreated(o.taskId, job.intent.kind, job.intent.topic))] + ctx.effects;
      if ctx.failure.Some? then Outcome(admitted, pre, ctx.failure)
      else
        var x := Execute(admitted, job, o.taskId, o);
        Outcome(x.state, pre + x.effects, x.failure)
  }

  /** `handleSimpleQuery` (context built) and `handleSimpleQueryWithContext`
      (context supplied). */
  function SimpleBranch(st: State, job: Job, source: ContextSource, o: Oracle): Outcome {
    var stage := if source.Build? then BuildingContext else Responding;
    if source.Build? && source.built.Err? then Outcome(st, [Status(job, stage)], Some(source.built.error))
    else
      var t := StreamResponse(job.clientId, o.replyId, Meta(SimpleResponse, "", job.intent.id, job.messageId), o.stream, o.now);
      Outcome(st, [Status(job, stage)] + t.effects, t.failure)
  }

  /** The branch the intent routes to. The interrupt branch always builds,
      with the result given by `interruptBuilt`. */
  function RunBranch(st: State, cfg: Config, job: Job, source: ContextSource, interruptBuilt: Result<CB.Composed>,
                     o: Oracle): Outcome
  {
    match Route(job.intent.kind, job.intent.requiresAction)
    case Interrupt => InterruptBranch(st, job, interruptBuilt, o)
    case Task => TaskBranch(st, cfg, job, source, o)
    case Simple => SimpleBranch(st, job, source, o)
  }

  /** `.catch(err => this.sendError(client, messageId, err))`: a failing
      branch is reported to its client as one error for the message. */
  function Caught(x: Outcome, clientId: string, messageId: string): (r: Outcome)
    ensures r.failure.None? && r.state == x.state
    ensures x.failure.None? ==> r.effects == x.effects
    ensures x.failure.Some? ==> r.effects == x.effects + [Send(clientId, Error(messageId, x.failure.value))]
  {
    if x.failure.Some? then Outcome(x.state, x.effects + [Send(clientId, Error(messageId, x.failure.value))], None)
    else x
  }

  // ---------------------------------------------------------------------
  // Admission and the map lifecycle
  // ---------------------------------------------------------------------

  /** A session at its limit gets `task_limit_reached` and nothing else:
      no row, no map entry, no broadcast. */
  lemma TaskRefused(st: State, cfg: Config, job: Job, source: ContextSource, o: Oracle)
    requires SessionCount(st.active, job.sessionId) >= cfg.maxTasks
    ensures TaskBranch(st, cfg, job, source, o)
      == Outcome(st, [Send(job.clientId, TaskLimitReached(job.messageId, cfg.maxTasks))], None)
  {
  }

  /** An admitted task with a fresh id announces itself first, adds one map
      entry for its session, and, when it runs to completion, ends with
      `task_completed`, its row `completed` and the map as it was before. */
  lemma TaskCompletes(st: State, cfg: Config, job: Job, source: ContextSource, o: Oracle)
    requires SessionCount(st.active, job.sessionId) < cfg.maxTasks && o.taskId !in Ids(st.active)
    requires !(source.Build? && source.built.Err?) && o.stream.failure.None?
    ensures var x := TaskBranch(st, cfg, job, source, o);
      && x.failure.None?
      && x.effects[0] == Broadcast(TaskCreated(o.taskId, job.intent.kind, job.intent.topic))
      && x.effects[|x.effects| - 1] == Broadcast(TaskCompleted(o.taskId))
      && x.state.active == st.active
      && x.state.tasks == st.tasks[o.taskId := TaskRow(job.sessionId, job.intent.kind, job.intent.userInput, Completed)]
      && x.state.intents == st.intents
  {
    DeleteUndoesSet(st.active, o.taskId, ActiveTask(job.sessionId, job.clientId, o.now));
  }

  /** A task that fails after admission, while building its context or
      while streaming, leaves its map entry and its `running` row behind:
      only the sweep removes them. The entry counts towards the session's
      limit meanwhile. */
  lemma TaskFailureLeaks(st: State, cfg: Config, job: Job, source: ContextSource, o: Oracle)
    requires SessionCount(st.active, job.sessionId) < cfg.maxTasks && o.taskId !in Ids(st.active)
    requires (source.Build? && source.built.Err?) || o.stream.failure.Some?
    ensures var x := TaskBranch(st, cfg, job, source, o);
      && x.failure.Some?
      && Find(x.state.active, o.taskId) == Some(ActiveTask(job.sessionId, job.clientId, o.now))
      && x.state.tasks[o.taskId].status == Running
      && SessionCount(x.state.active, job.sessionId) == SessionCount(st.active, job.sessionId) + 1
  {
    var t := ActiveTask(job.sessionId, job.clientId, o.now);
    FindSetEntry(st.active, o.taskId, t, o.taskId);
    SessionCountSet(st.active, o.taskId, t, job.sessionId);
  }

  /** `timeout` is not final: a task swept while it still runs is marked
      `timeout` and removed, and when it then completes its row is
      overwritten with `completed`. */
  lemma TimeoutThenCompletion(st: State, job: Job, o: Oracle, later: int, timeout: int)
    requires o.taskId !in Ids(st.active) && later - o.now > timeout && o.stream.failure.None?
    ensures var swept := Sweep(Admit(st, job, o.taskId, o.now), later, timeout).0;
      && swept.tasks[o.taskId].status == TimedOut
      && o.taskId !in Ids(swept.active)
      && Execute(swept, job, o.taskId, o).state.tasks[o.taskId].status == Completed
  {
    var admitted := Admit(st, job, o.taskId, o.now);
    var e := Entry(o.taskId, ActiveTask(job.sessionId, job.clientId, o.now));
    assert admitted.active == st.active + [e];
    assert e in admitted.active;
    TimeoutsMembers(admitted.active, later, timeout);
    assert e in Timeouts(admitted.active, later, timeout);
    SweepRemovesExpired(admitted, later, timeout, o.taskId);
    FreshIdUnused(st.active, o.taskId);
    ExpiredNotKept(admitted.active, e, later, timeout);
    TimeoutIdListed(Timeouts(admitted.active, later, timeout), e);
  }

  /** No entry carries an id that is not among the keys. */
  lemma FreshIdUnused(active: seq<Entry>, taskId: string)
    requires taskId !in Ids(active)
    ensures forall x :: x in active ==> x.taskId != taskId
  {
    forall x | x in active
      ensures x.taskId != taskId
    {
      var j :| 0 <= j < |active| && active[j] == x;
      assert Ids(active)[j] == x.taskId;
    }
  }

  /** An expired entry whose id no other entry shares is not kept under
      that id. */
  lemma ExpiredNotKept(active: seq<Entry>, e: Entry, now: int, timeout: int)
    requires Expired(e, now, timeout)
    requires forall x :: x in active && x.taskId == e.taskId ==> x == e
    ensures e.taskId !in Ids(Kept(active, now, timeout))
  {
    var kept := Kept(active, now, timeout);
    KeptMembers(active, now, timeout);
    forall i | 0 <= i < |kept|
      ensures Ids(kept)[i] != e.taskId
    {
      assert kept[i] in kept;
    }
  }

  lemma TimeoutIdListed(gone: seq<Entry>, e: Entry)
    requires e in gone
    ensures e.taskId in Ids(gone)
  {
    var i :| 0 <= i < |gone| && gone[i] == e;
    assert Ids(gone)[i] == e.taskId;
  }

  // ---------------------------------------------------------------------
  // Status stages
  // ---------------------------------------------------------------------

  predicate IsStatus(e: Effect) {
    e.Send? && e.event.MessageStatus?
  }

  /** The stages reported for `messageId`, in order. */
  function Stages(effs: seq<Effect>, messageId: string): seq<Stage> {
    if |effs| == 0 then []
    else
      var e := effs[|effs| - 1];
      var own := if IsStatus(e) && e.event.messageId == messageId then [e.event.stage] else [];
      Stages(effs[..|effs| - 1], messageId) + own
  }

  lemma {:induction false} StagesAppend(a: seq<Effect>, b: seq<Effect>, messageId: string)
    ensures Stages(a + b, messageId) == Stages(a, messageId) + Stages(b, messageId)
  {
    if |b| == 0 {
      assert a + b == a;
    } else {
      var init := b[..|b| - 1];
      assert (a + b)[..|a + b| - 1] == a + init;
      assert (a + b)[|a + b| - 1] == b[|b| - 1];
      StagesAppend(a, init, messageId);
    }
  }

  lemma StagesSingle(e: Effect, messageId: string)
    ensures Stages([e], messageId) == if IsStatus(e) && e.event.messageId == messageId then [e.event.stage] else []
  {
    assert [e][..0] == [];
  }

  lemma {:induction false} NoStages(effs: seq<Effect>, messageId: string)
    requires forall i :: 0 <= i < |effs| ==> !IsStatus(effs[i])
    ensures Stages(effs, messageId) == []
  {
    if |effs| > 0 {
      NoStages(effs[..|effs| - 1], messageId);
    }
  }

  /** A reply stream reports no stage. */
  lemma StreamHasNoStages(clientId: string, replyId: string, meta: Meta, s: LlmService.Stream, now: int, messageId: string)
    ensures Stages(StreamResponse(clientId, replyId, meta, s, now).effects, messageId) == []
  {
    var t := StreamResponse(clientId, replyId, meta, s, now);
    var calls := LlmService.ChunkCalls(s.deltas);
    var started := [Send(clientId, ResponseStart(replyId, meta.relatedMessageId, meta.parentNodeId, meta.nodeType, meta.taskId))]
      + ChunkEvents(clientId, replyId, calls);
    assert forall i :: 0 <= i < |started| ==> !IsStatus(started[i]);
    if s.failure.None? {
      var full := LlmService.LastAccumulated(calls);
      var mem := ExtractMemory(full, meta.nodeType);
      assert forall i :: 0 <= i < |mem| ==> !IsStatus(mem[i]);
    }
    NoStages(t.effects, messageId);
  }

  /** The stages of `[e] + rest`: those of `e`, then those of `rest`. */
  lemma StagesCons(e: Effect, rest: seq<Effect>, messageId: string)
    ensures Stages([e] + rest, messageId)
      == (if IsStatus(e) && e.event.messageId == messageId then [e.event.stage] else []) + Stages(rest, messageId)
  {
    StagesSingle(e, messageId);
    StagesAppend([e], rest, messageId);
  }

  lemma InterruptEffects(st: State, job: Job, built: Result<CB.Composed>, o: Oracle)
    requires built.Ok?
    ensures var t := StreamResponse(job.clientId, o.replyId, Meta(InterruptResponse, "", job.intent.id, job.messageId), o.stream, o.now);
      InterruptBranch(st, job, built, o).effects == [Status(job, ContextBuilding)] + ([Status(job, Responding)] + t.effects)
  {
    var t := StreamResponse(job.clientId, o.replyId, Meta(InterruptResponse, "", job.intent.id, job.messageId), o.stream, o.now);
    Assoc([Status(job, ContextBuilding)], [Status(job, Responding)], t.effects);
  }

  lemma Assoc<T>(a: seq<T>, b: seq<T>, c: seq<T>)
    ensures a + b + c == a + (b + c)
  {
  }

  /** The interrupt branch reports `context_building`, then, once its
      context is built, `responding`. */
  lemma InterruptStages(st: State, job: Job, built: Result<CB.Composed>, o: Oracle)
    ensures var ss := Stages(InterruptBranch(st, job, built, o).effects, job.messageId);
      ss == if built.Ok? then [ContextBuilding, Responding] else [ContextBuilding]
  {
    var building := Status(job, ContextBuilding);
    if built.Ok? {
      var meta := Meta(InterruptResponse, "", job.intent.id, job.messageId);
      var t := StreamResponse(job.clientId, o.replyId, meta, o.stream, o.now);
      var responding := Status(job, Responding);
      InterruptEffects(st, job, built, o);
      StreamHasNoStages(job.clientId, o.replyId, meta, o.stream, o.now, job.messageId);
      StagesCons(responding, t.effects, job.messageId);
      StagesCons(building, [responding] + t.effects, job.messageId);
    } else {
      StagesSingle(building, job.messageId);
    }
  }

  /** The stages of `[e] + rest`, for an `e` that reports none. */
  lemma StagesAfterQuiet(e: Effect, rest: seq<Effect>, messageId: string)
    requires !IsStatus(e)
    ensures Stages([e] + rest, messageId) == Stages(rest, messageId)
  {
    StagesSingle(e, messageId);
    StagesAppend([e], rest, messageId);
  }

  /** The stages of `[e] + rest + tail`, for a `rest` and a `tail` that
      report none. */
  lemma StagesOfHead(e: Effect, rest: seq<Effect>, tail: seq<Effect>, messageId: string)
    requires Stages(rest, messageId) == [] && forall i :: 0 <= i < |tail| ==> !IsStatus(tail[i])
    ensures Stages([e] + rest + tail, messageId) == Stages([e], messageId)
  {
    StagesAppend([e], rest, messageId);
    StagesAppend([e] + rest, tail, messageId);
    NoStages(tail, messageId);
  }

  /** The effects of an execution: `executing`, the stream, and, when it
      completes, `task_completed`. */
  lemma ExecuteEffects(st: State, job: Job, taskId: string, o: Oracle)
    ensures var t := StreamResponse(job.clientId, o.replyId, Meta(TaskResponse, taskId, job.intent.id, job.messageId), o.stream, o.now);
      Execute(st, job, taskId, o).effects
        == [Status(job, Executing)] + t.effects + (if t.failure.None? then [Broadcast(TaskCompleted(taskId))] else [])
  {
  }

  /** Executing a task reports `executing` and nothing else. */
  lemma ExecuteStages(st: State, job: Job, taskId: string, o: Oracle)
    ensures Stages(Execute(st, job, taskId, o).effects, job.messageId) == [Executing]
  {
    var meta := Meta(TaskResponse, taskId, job.intent.id, job.messageId);
    var t := StreamResponse(job.clientId, o.replyId, meta, o.stream, o.now);
    var tail: seq<Effect> := if t.failure.None? then [Broadcast(TaskCompleted(taskId))] else [];
    var head := Status(job, Executing);
    ExecuteEffects(st, job, taskId, o);
    assert Execute(st, job, taskId, o).effects == [head] + t.effects + tail;
    StreamHasNoStages(job.clientId, o.replyId, meta, o.stream, o.now, job.messageId);
    assert forall i :: 0 <= i < |tail| ==> !IsStatus(tail[i]);
    StagesOfHead(head, t.effects, tail, job.messageId);
    StagesSingle(head, job.messageId);
    assert Stages([head], job.messageId) == [Executing];
  }

  /** The context step of a task reports `context_building` when it
      builds and nothing when the context is supplied. */
  lemma TaskContextStages(job: Job, taskId: string, source: ContextSource)
    ensures Stages(TaskContext(job, taskId, source).effects, job.messageId)
      == if source.Build? then [ContextBuilding] else []
  {
    StagesSingle(Status(job, ContextBuilding), job.messageId);
    if source.Build? && source.built.Ok? {
      var c := source.built.value;
      var b := Broadcast(ContextBuilt(taskId, c.contextSize, |c.messages| - 2));
      StagesSingle(b, job.messageId);
      StagesAppend([Status(job, ContextBuilding)], [b], job.messageId);
    }
  }

  /** The effects of an admitted task: `task_created`, the context step,
      and, when that succeeds, the execution. */
  lemma AdmittedEffects(st: State, cfg: Config, job: Job, source: ContextSource, o: Oracle)
    requires SessionCount(st.active, job.sessionId) < cfg.maxTasks
    ensures var ctx := TaskContext(job, o.taskId, source);
      TaskBranch(st, cfg, job, source, o).effects
        == [Broadcast(TaskCreated(o.taskId, job.intent.kind, job.intent.topic))] + ctx.effects
           + (if ctx.failure.None? then Execute(Admit(st, job, o.taskId, o.now), job, o.taskId, o).effects else [])
  {
  }

  /** An admitted task reports the stages of its context step, then,
      when that step succeeds, `executing`. */
  lemma AdmittedStages(st: State, cfg: Config, job: Job, source: ContextSource, o: Oracle)
    requires SessionCount(st.active, job.sessionId) < cfg.maxTasks
    ensures var ctx := TaskContext(job, o.taskId, source);
      Stages(TaskBranch(st, cfg, job, source, o).effects, job.messageId)
        == Stages(ctx.effects, job.messageId) + (if ctx.failure.None? then [Executing] else [])
  {
    var created := Broadcast(TaskCreated(o.taskId, job.intent.kind, job.intent.topic));
    var ctx := TaskContext(job, o.taskId, source);
    var x: seq<Effect> := if ctx.failure.None? then Execute(Admit(st, job, o.taskId, o.now), job, o.taskId, o).effects else [];
    AdmittedEffects(st, cfg, job, source, o);
    StagesAppend([created] + ctx.effects, x, job.messageId);
    StagesAfterQuiet(created, ctx.effects, job.messageId);
    if ctx.failure.None? {
      ExecuteStages(Admit(st, job, o.taskId, o.now), job, o.taskId, o);
    }
  }

  /** An admitted task reports `context_building` and `executing` when it
      builds its context, and only `executing` when the context is
      supplied; a refused one reports no stage. */
  lemma TaskStages(st: State, cfg: Config, job: Job, source: ContextSource, o: Oracle)
    ensures var ss := Stages(TaskBranch(st, cfg, job, source, o).effects, job.messageId);
      && (SessionCount(st.active, job.sessionId) >= cfg.maxTasks ==> ss == [])
      && (SessionCount(st.active, job.sessionId) < cfg.maxTasks && source.Supplied? ==> ss == [Executing])
      && (SessionCount(st.active, job.sessionId) < cfg.maxTasks && source.Build? && source.built.Ok? ==>
            ss == [ContextBuilding, Executing])
      && (SessionCount(st.active, job.sessionId) < cfg.maxTasks && source.Build? && source.built.Err? ==>
            ss == [ContextBuilding])
  {
    if SessionCount(st.active, job.sessionId) >= cfg.maxTasks {
      StagesSingle(Send(job.clientId, TaskLimitReached(job.messageId, cfg.maxTasks)), job.messageId);
    } else {
      AdmittedStages(st, cfg, job, source, o);
      TaskContextStages(job, o.taskId, source);
    }
  }

  /** The simple branch reports `building_context` when it builds its
      context and `responding` when the context is supplied. */
  lemma SimpleStages(st: State, job: Job, source: ContextSource, o: Oracle)
    ensures Stages(SimpleBranch(st, job, source, o).effects, job.messageId)
      == if source.Build? then [BuildingContext] else [Responding]
  {
    var meta := Meta(SimpleResponse, "", job.intent.id, job.messageId);
    var t := StreamResponse(job.clientId, o.replyId, meta, o.stream, o.now);
    var stage := if source.Build? then BuildingContext else Responding;
    StagesSingle(Status(job, stage), job.messageId);
    StagesAppend([Status(job, stage)], t.effects, job.messageId);
    StreamHasNoStages(job.clientId, o.replyId, meta, o.stream, o.now, job.messageId);
  }

  // ---------------------------------------------------------------------
  // handleUserInput and handleReexecute
  // ---------------------------------------------------------------------

  /** The `data` of a `chat` message; "" stands for a missing id. */
  datatype ChatInput = ChatInput(messageId: string, sessionId: string, userId: string, content: string, parentNodeId: string)

  /** What the outside world supplies while a chat message is handled: the
      id generated when the client sent none, the id `uuidv4` generates
      for the intent, the
      classifier's reply, the two `build` results (the one whose context is
      saved for display, and the one the branch builds), and the branch's
      own oracle. */
  datatype InputOracle = InputOracle(
    freshMessageId: string,
    intentId: string,
    classifier: LlmService.ChatReply,
    built: Result<CB.Composed>,
    branchBuilt: Result<CB.Composed>,
    branch: Oracle)

  /** The intent's id: `analyze` builds `{ id: uuidv4(), ...normalized }`,
      and `normalized` copies the classifier's answer, so an `id` the
      answer carries replaces the generated one. */
  function IntentIdOf(answer: Value, generated: string): (id: string)
    ensures Get(answer, "id").Str? ==> id == Get(answer, "id").s
    ensures Get(answer, "id") == Undefined ==> id == generated
  {
    match Get(answer, "id")
    case Str(s) => s
    case _ => generated
  }

  /** `messageId || uuidv4()` */
  function UserMessageId(d: ChatInput, o: InputOracle): string {
    if d.messageId != "" then d.messageId else o.freshMessageId
  }

  /** `handleUserInput`, followed by the branch it starts. A failure up to
      the classification or the first `build` propagates to the caller; a
      failure of the branch is reported to the client. */
  function HandleUserInput(st: State, cfg: Config, clientId: string, d: ChatInput, o: InputOracle): Outcome {
    match LlmService.AnalyzeIntent(d.content, o.classifier)
    case Err(e) => Outcome(st, Received(clientId, d, o), Some(e))
    case Ok(a) => Classified(st, cfg, clientId, d, o.(intentId := IntentIdOf(a, o.intentId)), IntentEngine.NormalizeIntentAnalysisAsWritten(a, d.content))
  }

  /** The user message saved, then `analyzing` reported. */
  function Received(clientId: string, d: ChatInput, o: InputOracle): seq<Effect> {
    var uid := UserMessageId(d, o);
    [SaveMessage(CB.Message(uid, CB.User, d.content, o.branch.now, d.parentNodeId, [])),
     Send(clientId, MessageStatus(uid, Analyzing))]
  }

  /** The job the branch gets for a classified message. */
  function JobFor(clientId: string, d: ChatInput, o: InputOracle, n: IntentEngine.Intent): Job {
    Job(clientId, d.sessionId, UserMessageId(d, o), TaskIntent(o.intentId, n.intent, n.topic, n.requiresAction, d.content))
  }

  /** `handleUserInput` from the normalised intent `n` on: the `INSERT`
      into `intents` fails on an id already stored, then `build` runs. */
  function Classified(st: State, cfg: Config, clientId: string, d: ChatInput, o: InputOracle, n: IntentEngine.Intent): Outcome {
    var uid := UserMessageId(d, o);
    if o.intentId in st.intents then Outcome(st, Received(clientId, d, o), Some(DuplicateIntent))
    else
      var recorded := st.(intents := st.intents[o.intentId := IntentRow(d.sessionId, uid, n.intent, n.topic)]);
      if o.built.Err? then Outcome(recorded, Received(clientId, d, o), Some(o.built.error))
      else
        var confidence := if IsNumber(n.confidence) then n.confidence else Num(0.0);
        var analyzed := Send(clientId, IntentAnalyzed(uid, o.intentId, n.intent, n.topic, n.urgency, confidence, n.relatedTopics, uid, uid));
        var b := Caught(RunBranch(recorded, cfg, JobFor(clientId, d, o, n), Build(o.branchBuilt), o.branchBuilt, o.branch), clientId, uid);
        Outcome(b.state, Received(clientId, d, o) + [analyzed] + b.effects, None)
  }

  /** An exception from the classifier propagates out of `handleUserInput`
      after the message is saved and `analyzing` reported; nothing else
      happens. */
  lemma ClassifierFailurePropagates(st: State, cfg: Config, clientId: string, d: ChatInput, o: InputOracle)
    requires o.classifier.Threw?
    ensures var x := HandleUserInput(st, cfg, clientId, d, o);
      && x.failure == Some(o.classifier.error)
      && x.state == st
      && |x.effects| == 2 && x.effects[1] == Send(clientId, MessageStatus(UserMessageId(d, o), Analyzing))
  {
  }

  /** A classified message is handled from its normalised intent on. */
  lemma RepliedIsClassified(st: State, cfg: Config, clientId: string, d: ChatInput, o: InputOracle)
    requires o.classifier.Replied?
    ensures var a := LlmService.AnalyzeIntent(d.content, o.classifier).value;
      HandleUserInput(st, cfg, clientId, d, o)
      == Classified(st, cfg, clientId, d, o.(intentId := IntentIdOf(a, o.intentId)),
                    IntentEngine.NormalizeIntentAnalysisAsWritten(LlmService.AnalyzeIntent(d.content, o.classifier).value, d.content))
  {
  }

  /** An `id` of the classifier's answer becomes the intent's id: an id
      already stored makes the `INSERT` reject with the message saved and
      `analyzing` reported; otherwise the row is stored under it and
      `intent_analyzed` carries it. */
  lemma AnswerIdReplacesGenerated(st: State, cfg: Config, clientId: string, d: ChatInput, o: InputOracle, answer: Value, id: string)
    requires o.classifier == LlmService.Replied(Some(answer)) && Get(answer, "id") == Str(id)
    requires o.built.Ok?
    ensures var x := HandleUserInput(st, cfg, clientId, d, o);
      id in st.intents ==> x == Outcome(st, Received(clientId, d, o), Some(DuplicateIntent))
    ensures var x := HandleUserInput(st, cfg, clientId, d, o);
      id !in st.intents ==>
        && x.failure.None?
        && id in x.state.intents && x.state.intents[id].userMessageId == UserMessageId(d, o)
        && x.effects[2].Send? && x.effects[2].event.IntentAnalyzed? && x.effects[2].event.intentId == id
  {
    var o' := o.(intentId := id);
    assert IntentIdOf(answer, o.intentId) == id;
    ClassifiedInputHandled(st, cfg, clientId, d, o', IntentEngine.NormalizeIntentAnalysisAsWritten(answer, d.content));
  }

  /** Two messages whose answers carry the same `id` collide on the
      `intents` primary key: the second is rejected after its message is
      saved, and the intents are those the first left. */
  lemma SameAnswerIdCollides(st: State, cfg: Config, clientId: string, d1: ChatInput, o1: InputOracle, d2: ChatInput, o2: InputOracle, a1: Value, a2: Value, id: string)
    requires o1.classifier == LlmService.Replied(Some(a1)) && Get(a1, "id") == Str(id)
    requires o2.classifier == LlmService.Replied(Some(a2)) && Get(a2, "id") == Str(id)
    requires o1.built.Ok?
    ensures var first := HandleUserInput(st, cfg, clientId, d1, o1);
      var second := HandleUserInput(first.state, cfg, clientId, d2, o2);
      && second.failure == Some(DuplicateIntent)
      && second.state == first.state
  {
    var first := HandleUserInput(st, cfg, clientId, d1, o1);
    AnswerIdReplacesGenerated(st, cfg, clientId, d1, o1, a1, id);
    assert id in first.state.intents;
    if o2.built.Ok? {
      AnswerIdReplacesGenerated(first.state, cfg, clientId, d2, o2, a2, id);
    } else {
      assert IntentIdOf(a2, o2.intentId) == id;
    }
  }

  /** Once the message is classified and its context built, an intent id
      already stored makes the `INSERT` reject, and nothing after it
      happens. Otherwise the intent is recorded, `intent_analyzed` follows
      `analyzing` with the user message as the intent's parent, and
      nothing propagates: the branch's own failures become an error for
      the user message. */
  lemma ClassifiedInputHandled(st: State, cfg: Config, clientId: string, d: ChatInput, o: InputOracle, n: IntentEngine.Intent)
    requires o.built.Ok?
    ensures var x := Classified(st, cfg, clientId, d, o, n);
      o.intentId in st.intents ==> x == Outcome(st, Received(clientId, d, o), Some(DuplicateIntent))
    ensures var x := Classified(st, cfg, clientId, d, o, n);
      var uid := UserMessageId(d, o);
      var confidence := if IsNumber(n.confidence) then n.confidence else Num(0.0);
      o.intentId !in st.intents ==>
        && x.failure.None?
        && x.state.intents == st.intents[o.intentId := IntentRow(d.sessionId, uid, n.intent, n.topic)]
        && x.effects[2] == Send(clientId, IntentAnalyzed(uid, o.intentId, n.intent, n.topic, n.urgency, confidence, n.relatedTopics, uid, uid))
  {
    var uid := UserMessageId(d, o);
    var recorded := st.(intents := st.intents[o.intentId := IntentRow(d.sessionId, uid, n.intent, n.topic)]);
    BranchKeepsIntents(recorded, cfg, JobFor(clientId, d, o, n), Build(o.branchBuilt), o.branchBuilt, o.branch);
  }

  /** The stages reported for a classified message are `analyzing`
      followed by those of its branch; the error a failing branch ends
      with is not a stage. */
  lemma ClassifiedStages(st: State, cfg: Config, clientId: string, d: ChatInput, o: InputOracle, n: IntentEngine.Intent)
    requires o.built.Ok?
    ensures o.intentId in st.intents ==> Stages(Classified(st, cfg, clientId, d, o, n).effects, UserMessageId(d, o)) == [Analyzing]
    ensures var uid := UserMessageId(d, o);
      var recorded := st.(intents := st.intents[o.intentId := IntentRow(d.sessionId, uid, n.intent, n.topic)]);
      o.intentId !in st.intents ==>
      Stages(Classified(st, cfg, clientId, d, o, n).effects, uid)
        == [Analyzing] + Stages(RunBranch(recorded, cfg, JobFor(clientId, d, o, n), Build(o.branchBuilt), o.branchBuilt, o.branch).effects, uid)
  {
    var uid := UserMessageId(d, o);
    if o.intentId in st.intents {
      var e := Received(clientId, d, o);
      assert e == [e[0]] + ([e[1]] + []);
      StagesCons(e[1], [], uid);
      StagesCons(e[0], [e[1]] + [], uid);
      return;
    }
    var recorded := st.(intents := st.intents[o.intentId := IntentRow(d.sessionId, uid, n.intent, n.topic)]);
    var r := RunBranch(recorded, cfg, JobFor(clientId, d, o, n), Build(o.branchBuilt), o.branchBuilt, o.branch);
    var confidence := if IsNumber(n.confidence) then n.confidence else Num(0.0);
    var analyzed := Send(clientId, IntentAnalyzed(uid, o.intentId, n.intent, n.topic, n.urgency, confidence, n.relatedTopics, uid, uid));
    HeadStages(Received(clientId, d, o) + [analyzed], Caught(r, clientId, uid).effects, uid, [Analyzing]);
    CaughtStages(r, clientId, uid);
  }

  lemma HeadStages(head: seq<Effect>, rest: seq<Effect>, uid: string, expected: seq<Stage>)
    requires |head| == 3 && head[0].SaveMessage? && head[1].Send? && head[1].event == MessageStatus(uid, Analyzing)
    requires head[2].Send? && head[2].event.IntentAnalyzed? && expected == [Analyzing]
    ensures Stages(head + rest, uid) == expected + Stages(rest, uid)
  {
    assert head + rest == [head[0]] + ([head[1]] + ([head[2]] + rest));
    StagesCons(head[2], rest, uid);
    StagesCons(head[1], [head[2]] + rest, uid);
    StagesCons(head[0], [head[1]] + ([head[2]] + rest), uid);
  }

  /** Reporting a failure adds no stage. */
  lemma CaughtStages(x: Outcome, clientId: string, messageId: string)
    ensures Stages(Caught(x, clientId, messageId).effects, messageId) == Stages(x.effects, messageId)
  {
    if x.failure.Some? {
      var err := Send(clientId, Error(messageId, x.failure.value));
      StagesAppend(x.effects, [err], messageId);
      StagesSingle(err, messageId);
    }
  }

  /** No branch touches the `intents` table. */
  lemma BranchKeepsIntents(st: State, cfg: Config, job: Job, source: ContextSource, interruptBuilt: Result<CB.Composed>,
                           o: Oracle)
    ensures RunBranch(st, cfg, job, source, interruptBuilt, o).state.intents == st.intents
  {
  }

  /** The `data` of a `reexecute` message. The supplied context goes to
      the model, which is an oracle, so only its presence matters. */
  datatype ReexecuteInput = ReexecuteInput(sessionId: string, userId: string, intentNodeId: string, userContent: string)

  /** The intent `handleReexecute` rebuilds from the stored row: it needs
      action unless it is a question, and it has no context hints. */
  function ReexecutedIntent(d: ReexecuteInput, row: IntentRow): TaskIntent {
    TaskIntent(d.intentNodeId, row.intentType, row.topic, Bool(row.intentType != Str("question")), d.userContent)
  }

  /** `handleReexecute`, followed by the branch it starts. The task and
      simple branches use the supplied context; the interrupt branch calls
      `build` with the rebuilt intent, which has no hints. */
  function HandleReexecute(st: State, cfg: Config, clientId: string, d: ReexecuteInput, o: Oracle): Outcome {
    if d.intentNodeId !in st.intents then
      Outcome(st, [Send(clientId, Error(d.intentNodeId, IntentNotFound))], None)
    else
      var job := Job(clientId, d.sessionId, d.intentNodeId, ReexecutedIntent(d, st.intents[d.intentNodeId]));
      Caught(RunBranch(st, cfg, job, Supplied, Err(MissingHints), o), clientId, d.intentNodeId)
  }

  /** Whether re-executing leaves a rejected promise that nothing
      handles. Building the context of a re-executed interrupt has already
      called `getRelevantMemories` when `build` throws; after its first
      `await` that call reads `intent.contextHints.memoryTypes` and
      rejects, and the `Promise.all` that was to take it never ran. On
      Node.js 15 and later an unhandled rejection ends the process. */
  predicate LeavesUnhandledRejection(st: State, d: ReexecuteInput) {
    d.intentNodeId in st.intents && st.intents[d.intentNodeId].intentType == Str("interrupt")
  }

  /** An unknown intent id gets one error and nothing else. */
  lemma ReexecuteUnknown(st: State, cfg: Config, clientId: string, d: ReexecuteInput, o: Oracle)
    requires d.intentNodeId !in st.intents
    ensures HandleReexecute(st, cfg, clientId, d, o)
      == Outcome(st, [Send(clientId, Error(d.intentNodeId, IntentNotFound))], None)
  {
  }

  /** A re-executed intent runs as a task exactly when its stored type is
      neither `question` nor `interrupt`, and it never builds a context:
      the task path reports only `executing` (when admitted) and the
      simple path only `responding`. */
  lemma ReexecuteUsesSuppliedContext(st: State, cfg: Config, clientId: string, d: ReexecuteInput, o: Oracle)
    requires d.intentNodeId in st.intents
    requires st.intents[d.intentNodeId].intentType != Str("interrupt")
    ensures var row := st.intents[d.intentNodeId];
      var i := ReexecutedIntent(d, row);
      var ss := Stages(HandleReexecute(st, cfg, clientId, d, o).effects, d.intentNodeId);
      && (Route(i.kind, i.requiresAction) == Task <==> row.intentType != Str("question"))
      && (row.intentType == Str("question") ==> ss == [Responding])
      && (row.intentType != Str("question") && SessionCount(st.active, d.sessionId) < cfg.maxTasks ==> ss == [Executing])
      && (row.intentType != Str("question") && SessionCount(st.active, d.sessionId) >= cfg.maxTasks ==> ss == [])
  {
    var job := Job(clientId, d.sessionId, d.intentNodeId, ReexecutedIntent(d, st.intents[d.intentNodeId]));
    var r := RunBranch(st, cfg, job, Supplied, Err(MissingHints), o);
    TaskStages(st, cfg, job, Supplied, o);
    SimpleStages(st, job, Supplied, o);
    if r.failure.Some? {
      var err := Send(clientId, Error(d.intentNodeId, r.failure.value));
      StagesAppend(r.effects, [err], d.intentNodeId);
      StagesSingle(err, d.intentNodeId);
    }
  }

  /** Re-executing an interrupt always fails: the rebuilt intent has no
      context hints, so `build` throws as it reads
      `contextHints.shouldIncludeRecentHistory` to fill its `Promise.all`
      array, and the client sees `context_building` followed by that
      error. */
  lemma ReexecuteInterruptFails(st: State, cfg: Config, clientId: string, d: ReexecuteInput, o: Oracle)
    requires d.intentNodeId in st.intents && st.intents[d.intentNodeId].intentType == Str("interrupt")
    ensures HandleReexecute(st, cfg, clientId, d, o)
      == Outcome(st, [Send(clientId, MessageStatus(d.intentNodeId, ContextBuilding)),
                      Send(clientId, Error(d.intentNodeId, MissingHints))], None)
  {
  }
}
