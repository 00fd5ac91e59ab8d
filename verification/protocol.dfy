/** The server-to-client events of the WebSocket protocol, shared by the
    task orchestrator and the server that emit them and by the client hook
    that consumes them. Each constructor is one `type` on the wire with the
    fields of its `data`; an id of "" stands for a missing or null id. */
module Protocol {
  import opened Js

  /** The processing stages of a user message: those the server reports
      in `message_status`, and the three the client sets on its own
      (`sending`, `queued` and `error`). */
  datatype Stage =
    | Analyzing
    | ContextBuilding
    | BuildingContext
    | Executing
    | Responding
    | Sending
    | Queued
    | Failed

  /** The kind of assistant reply a stream produces. */
  datatype NodeType = InterruptResponse | TaskResponse | SimpleResponse

  datatype ServerEvent =
    | Connected(clientId: string, maxConcurrency: int)
    | MessageStatus(messageId: string, stage: Stage)
    | Error(messageId: string, error: string)
    | IntentAnalyzed(messageId: string, intentId: string, intent: Value, topic: Value, urgency: Value,
                     confidence: Value, relatedTopics: Value, relatedMessageId: string, parentNodeId: string)
    | TaskLimitReached(messageId: string, limit: int)
    | TaskCreated(taskId: string, kind: Value, topic: Value)
    | ContextBuilt(taskId: string, contextSize: int, memoryCount: int)
    | TaskCompleted(taskId: string)
    | ResponseStart(messageId: string, relatedMessageId: string, parentNodeId: string,
                    nodeType: NodeType, taskId: string)
    | ResponseChunk(messageId: string, chunk: string, accumulated: string)
    | ResponseEnd(messageId: string, relatedMessageId: string, totalLength: int)
    | EnvironmentEvent(id: string, source: string, eventType: string, data: Value)
    | PollerAdded(id: string, config: Value)
    | PollerRemoved(id: string)
}
