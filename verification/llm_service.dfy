/** server/llm/service.js: accumulation of a streamed completion and the
    classifier's fallback when the model's reply is not JSON. The model
    provider is an oracle: a stream is the sequence of deltas it yields,
    a chat call is the reply it returns or the exception it throws. */
module LlmService {
  import opened Wrappers
  import opened Js
  import IntentEngine

  /** What the provider's stream yields: the text delta of each chunk (""
      for a chunk without content), and the exception that ends the stream
      early, if any. */
  datatype Stream = Stream(deltas: seq<string>, failure: Option<string>)

  /** One invocation `onChunk(chunk, accumulated)`. */
  datatype ChunkCall = ChunkCall(chunk: string, accumulated: string)

  /** All deltas joined in order. */
  function Concat(ds: seq<string>): string
  {
    if |ds| == 0 then "" else Concat(ds[..|ds| - 1]) + ds[|ds| - 1]
  }

  /** The `onChunk` invocations the accumulation loop makes for `ds`. */
  function ChunkCalls(ds: seq<string>): seq<ChunkCall>
  {
    if |ds| == 0 then []
    else
      var last := ds[|ds| - 1];
      ChunkCalls(ds[..|ds| - 1]) + (if last != "" then [ChunkCall(last, Concat(ds))] else [])
  }

  /** The content `streamResponse` keeps: the latest `accumulated` it was
      handed, or "" if it was never called. */
  function LastAccumulated(calls: seq<ChunkCall>): string {
    if |calls| == 0 then "" else calls[|calls| - 1].accumulated
  }

  /** The loop of `streamChat`: each delta is appended to the running text,
      and `onChunk` is called for non-empty deltas only. The returned text
      is the concatenation of all deltas. When the stream fails, the calls
      made before the failure have happened and the exception propagates. */
  method StreamChat(s: Stream) returns (result: Result<string>, calls: seq<ChunkCall>)
    ensures calls == ChunkCalls(s.deltas)
    ensures s.failure.None? ==> result == Ok(Concat(s.deltas))
    ensures s.failure.Some? ==> result == Err(s.failure.value)
  {
    var full := "";
    calls := [];
    var i := 0;
    while i < |s.deltas|
      invariant 0 <= i <= |s.deltas|
      invariant full == Concat(s.deltas[..i])
      invariant calls == ChunkCalls(s.deltas[..i])
    {
      var content := s.deltas[i];
      full := full + content;
      assert s.deltas[..i + 1][..i] == s.deltas[..i];
      if content != "" {
        calls := calls + [ChunkCall(content, full)];
      }
      i := i + 1;
    }
    assert s.deltas[..i] == s.deltas;
    if s.failure.Some? {
      result := Err(s.failure.value);
    } else {
      result := Ok(full);
    }
  }

  /** Call `c` is the one made for delta `i` of `ds`. */
  predicate MadeFor(ds: seq<string>, c: ChunkCall, i: int) {
    0 <= i < |ds| && c.chunk == ds[i] && c.accumulated == Concat(ds[..i + 1])
  }

  /** `onChunk` only ever sees non-empty deltas, and there is exactly one
      call per non-empty delta. */
  lemma {:induction false} ChunkCallsFacts(ds: seq<string>)
    ensures forall c :: c in ChunkCalls(ds) ==> c.chunk != ""
    ensures |ChunkCalls(ds)| == |NonEmpty(ds)|
  {
    if |ds| > 0 {
      ChunkCallsFacts(ds[..|ds| - 1]);
    }
  }

  /** Call `k` was made for some delta `i` of `ds`: its chunk is that delta
      and its `accumulated` is the concatenation of the deltas up to and
      including it. */
  lemma {:induction false} ChunkCallSource(ds: seq<string>, k: nat) returns (i: nat)
    requires k < |ChunkCalls(ds)|
    ensures MadeFor(ds, ChunkCalls(ds)[k], i)
  {
    var init := ds[..|ds| - 1];
    if k < |ChunkCalls(init)| {
      i := ChunkCallSource(init, k);
      assert init[..i + 1] == ds[..i + 1];
    } else {
      i := |ds| - 1;
      assert ds[..|ds|] == ds;
    }
  }

  /** The non-empty deltas, in order. */
  function NonEmpty(ds: seq<string>): seq<string> {
    if |ds| == 0 then []
    else NonEmpty(ds[..|ds| - 1]) + (if ds[|ds| - 1] != "" then [ds[|ds| - 1]] else [])
  }

  /** Each `accumulated` is a prefix of every later one. */
  lemma {:induction false} AccumulatedGrows(ds: seq<string>, j: nat, k: nat)
    requires j <= k < |ChunkCalls(ds)|
    ensures StartsWith(ChunkCalls(ds)[k].accumulated, ChunkCalls(ds)[j].accumulated)
  {
    var init := ds[..|ds| - 1];
    if k < |ChunkCalls(init)| {
      AccumulatedGrows(init, j, k);
    } else {
      // k is the last call, made for the last delta
      if j < |ChunkCalls(init)| {
        AccumulatedPrefixOfTotal(init, j);
        assert Concat(ds) == Concat(init) + ds[|ds| - 1];
      }
    }
  }

  /** Every `accumulated` is a prefix of the full text. */
  lemma {:induction false} AccumulatedPrefixOfTotal(ds: seq<string>, j: nat)
    requires j < |ChunkCalls(ds)|
    ensures StartsWith(Concat(ds), ChunkCalls(ds)[j].accumulated)
  {
    var init := ds[..|ds| - 1];
    if j < |ChunkCalls(init)| {
      AccumulatedPrefixOfTotal(init, j);
      assert Concat(ds) == Concat(init) + ds[|ds| - 1];
    }
  }

  /** The content `streamResponse` saves, the last `accumulated`, is the
      whole concatenation of the deltas, also when trailing deltas were
      empty or no call was made at all. */
  lemma {:induction false} LastAccumulatedIsConcat(ds: seq<string>)
    ensures LastAccumulated(ChunkCalls(ds)) == Concat(ds)
  {
    if |ds| > 0 {
      var init := ds[..|ds| - 1];
      LastAccumulatedIsConcat(init);
      assert Concat(ds) == Concat(init) + ds[|ds| - 1];
    }
  }

  /** The outcome of the classifier's `chat` call: the exception it threw,
      or its reply with the result of `JSON.parse` (None when the reply is
      not valid JSON). */
  datatype ChatReply = Threw(error: string) | Replied(parsed: Option<Value>)

  /** The deterministic classification used when the reply is not JSON. */
  function FallbackIntent(input: string): Value {
    var head := Str(Prefix(input, 50));
    Obj(map[
      "intent" := Str("question"),
      "topic" := head,
      "urgency" := Str("medium"),
      "requiresAction" := Bool(false),
      "relatedTopics" := Arr([]),
      "sentiment" := Str("neutral"),
      "confidence" := Num(0.5),
      "intentStruct" := FallbackStruct(input)
    ])
  }

  function FallbackStruct(input: string): Value {
    var head := Str(Prefix(input, 50));
    Obj(map[
      "goal" := head,
      "constraints" := Arr([]),
      "entities" := Arr([]),
      "planHints" := Arr([]),
      "evidence" := Arr([Obj(map["source" := Str("user_input"), "span" := head])]),
      "uncertaintyReasons" := Arr([])
    ])
  }

  /** `analyzeIntent`: parsed JSON is returned as is, unparsable output is
      replaced by the fallback, and an exception from `chat` propagates. */
  function AnalyzeIntent(input: string, reply: ChatReply): (r: Result<Value>)
    ensures reply.Threw? ==> r == Err(reply.error)
    ensures reply.Replied? && reply.parsed.Some? ==> r == Ok(reply.parsed.value)
    ensures reply.Replied? && reply.parsed.None? ==> r == Ok(FallbackIntent(input))
  {
    match reply
    case Threw(e) => Err(e)
    case Replied(Some(v)) => Ok(v)
    case Replied(None) => Ok(FallbackIntent(input))
  }

  /** Unparsable classifier output normalises to a question needing no
      action, with confidence 0.5, no related topics and the first 50
      characters of the input as topic; its struct is the fallback struct
      normalised under that topic and confidence (see
      FallbackStructNormalizes). */
  lemma FallbackNormalizes(input: string)
    ensures var n := IntentEngine.NormalizeIntentAnalysis(FallbackIntent(input), input);
      && n.intent == Str("question")
      && n.requiresAction == Bool(false)
      && n.confidence == Num(0.5)
      && n.topic == Str(Prefix(input, 50))
      && n.relatedTopics == Arr([])
      && n.intentStruct == IntentEngine.NormalizeIntentStruct(FallbackStruct(input), Str(Prefix(input, 50)), Num(0.5), input)
      && !IntentEngine.ExtractContextHints(n).includeEnvironmentState
  {
    FallbackFields(input);
    assert Get(FallbackIntent(input), "urgency") == Str("medium");
  }

  /** The fields of the fallback classification, as `Get` reads them. */
  lemma FallbackFields(input: string)
    ensures var v := FallbackIntent(input);
      && Get(v, "intent") == Str("question")
      && Get(v, "topic") == Str(Prefix(input, 50))
      && Get(v, "requiresAction") == Bool(false)
      && Get(v, "relatedTopics") == Arr([])
      && Get(v, "confidence") == Num(0.5)
      && Get(v, "intentStruct") == FallbackStruct(input)
  {
  }

  /** The fallback struct normalises to empty lists, the analysis'
      confidence, one piece of evidence quoting the input and the trimmed
      head of the input as goal. */
  lemma FallbackStructNormalizes(input: string)
    ensures var head := Str(Prefix(input, 50));
      var st := IntentEngine.NormalizeIntentStruct(FallbackStruct(input), head, Num(0.5), input);
      && st.constraints == Arr([])
      && st.entities == Arr([])
      && st.planHints == Arr([])
      && st.uncertaintyReasons == Arr([])
      && st.confidence == Num(0.5)
      && st.evidence == Arr([Obj(map["source" := Str("user_input"), "span" := head])])
      && st.goal == Str(Trim(Prefix(input, 50)))
  {
    var st := FallbackStruct(input);
    assert IntentEngine.StructOf(st) == st;
    assert Get(st, "goal") == Str(Prefix(input, 50));
    assert Get(st, "constraints") == Arr([]);
    assert Get(st, "entities") == Arr([]);
    assert Get(st, "planHints") == Arr([]);
    assert Get(st, "uncertaintyReasons") == Arr([]);
    assert Get(st, "confidence") == Undefined;
    assert Get(st, "evidence") == Arr([Obj(map["source" := Str("user_input"), "span" := Str(Prefix(input, 50))])]);
  }
}
