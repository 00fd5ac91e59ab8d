/** Intent normalisation of server/core/intent-engine.js: the classifier's
    untyped JSON is coerced field by field into a structure with defaults,
    then context hints are derived from it. */
module IntentEngine {
  import opened Js

  const DefaultConfidence: Value := Num(0.5)

  /** The keys `normalizeIntentAnalysis` writes on top of the spread input. */
  const NormalizedKeys: set<string> :=
    {"intent", "topic", "urgency", "requiresAction", "relatedTopics",
     "sentiment", "confidence", "intentStruct"}

  /** `asArray`: falsy values become the empty array, arrays pass through,
      any other value is wrapped in a one-element array. */
  function AsArray(v: Value): (r: Value)
    ensures r.Arr?
    ensures !Truthy(v) ==> r == Arr([])
    ensures v.Arr? ==> r == v
    ensures Truthy(v) && !v.Arr? ==> r == Arr([v])
  {
    if !Truthy(v) then Arr([])
    else if v.Arr? then v
    else Arr([v])
  }

  /** `toNumber`: a number that is not NaN is kept, a string `Number` can
      read is converted, anything else becomes the fallback. */
  function ToNumber(v: Value, fallback: Value): (r: Value)
    ensures v.Num? ==> r == v
    ensures v.Str? && NumberOf(v.s).Num? ==> r == NumberOf(v.s)
    ensures !v.Num? && !(v.Str? && NumberOf(v.s).Num?) ==> r == fallback
    ensures fallback.Num? ==> r.Num?
  {
    if v.Num? then v
    else if v.Str? && NumberOf(v.s).Num? then NumberOf(v.s)
    else fallback
  }

  /** `toText`: a string whose trim is non-empty gives that trim, anything
      else gives the fallback. */
  function ToText(v: Value, fallback: Value): (r: Value)
    ensures v.Str? && Trim(v.s) != "" ==> r == Str(Trim(v.s))
    ensures !(v.Str? && Trim(v.s) != "") ==> r == fallback
  {
    if v.Str? && Trim(v.s) != "" then Str(Trim(v.s)) else fallback
  }

  /** Trims a string value and leaves any other value alone. */
  function TrimValue(v: Value): Value {
    if v.Str? then Str(Trim(v.s)) else v
  }

  /** `typeof s === 'object' && s ? s : {}` */
  function StructOf(s: Value): Value {
    if s.Obj? || s.Arr? then s else Obj(map[])
  }

  function DefaultEvidence(input: string): Value {
    Arr([Obj(map["source" := Str("user_input"), "span" := Str(Prefix(input, 100))])])
  }

  /** The normalised `intentStruct` object. */
  datatype IntentStruct = IntentStruct(
    goal: Value,
    constraints: Value,
    entities: Value,
    planHints: Value,
    evidence: Value,
    confidence: Value,
    uncertaintyReasons: Value)
  {
    /** The JavaScript object the source builds. */
    function ToValue(): Value {
      Obj(map["goal" := goal, "constraints" := constraints, "entities" := entities,
              "planHints" := planHints, "evidence" := evidence, "confidence" := confidence,
              "uncertaintyReasons" := uncertaintyReasons])
    }
  }

  /** The normalised classifier result: the eight fields normalisation
      writes, and every other field of the input carried over unchanged. */
  datatype Intent = Intent(
    extra: map<string, Value>,
    intent: Value,
    topic: Value,
    urgency: Value,
    requiresAction: Value,
    relatedTopics: Value,
    sentiment: Value,
    confidence: Value,
    intentStruct: IntentStruct)
  {
    /** The JavaScript object the source returns (`{...input, ...named}`). */
    function ToValue(): Value {
      Obj(extra + map["intent" := intent, "topic" := topic, "urgency" := urgency,
                      "requiresAction" := requiresAction, "relatedTopics" := relatedTopics,
                      "sentiment" := sentiment, "confidence" := confidence,
                      "intentStruct" := intentStruct.ToValue()])
    }
  }

  /** The struct fields, given the goal fallback. The source and the
      corrected normalisation differ only in that fallback. */
  function StructWith(st: Value, analysisConfidence: Value, input: string, goalFallback: Value): IntentStruct {
    var ev := Get(st, "evidence");
    IntentStruct(
      ToText(Get(st, "goal"), goalFallback),
      AsArray(Get(st, "constraints")),
      AsArray(Get(st, "entities")),
      AsArray(Get(st, "planHints")),
      if ev.Arr? && |ev.items| > 0 then ev else DefaultEvidence(input),
      ToNumber(Get(st, "confidence"), Or(analysisConfidence, DefaultConfidence)),
      AsArray(Get(st, "uncertaintyReasons")))
  }

  /** `intentAnalysis.topic || userInput.slice(0, 50)` */
  function GoalFallback(topic: Value, input: string): Value {
    Or(topic, Str(Prefix(input, 50)))
  }

  /** `normalizeIntentStruct`; `trimFallback` false is the source as
      written, true is the corrected form that also trims the fallback
      goal. */
  function NormalizeStructWith(s: Value, topic: Value, confidence: Value, input: string, trimFallback: bool): IntentStruct {
    var fb := GoalFallback(topic, input);
    StructWith(StructOf(s), confidence, input, if trimFallback then TrimValue(fb) else fb)
  }

  /** `normalizeIntentStruct` with the fallback goal trimmed like an
      explicit goal, which is what makes normalisation idempotent. The
      list fields are arrays, evidence is never empty, and confidence is a
      number whenever the top-level confidence is. */
  function NormalizeIntentStruct(s: Value, topic: Value, confidence: Value, input: string): (r: IntentStruct)
    ensures r.constraints.Arr? && r.entities.Arr? && r.planHints.Arr? && r.uncertaintyReasons.Arr?
    ensures r.evidence.Arr? && |r.evidence.items| > 0
    ensures var ev := Get(StructOf(s), "evidence");
      ev.Arr? && |ev.items| > 0 ==> r.evidence == ev
    ensures var ev := Get(StructOf(s), "evidence");
      !(ev.Arr? && |ev.items| > 0) ==> r.evidence == DefaultEvidence(input)
    ensures confidence.Num? ==> r.confidence.Num?
    ensures var g := Get(StructOf(s), "goal");
      g.Str? && Trim(g.s) != "" ==> r.goal == Str(Trim(g.s))
    ensures var g := Get(StructOf(s), "goal");
      !(g.Str? && Trim(g.s) != "") ==> r.goal == TrimValue(GoalFallback(topic, input))
  {
    NormalizeStructWith(s, topic, confidence, input, true)
  }

  /** `normalizeIntentAnalysis`, the struct normalised as selected by
      `trimFallback`. */
  function NormalizeWith(a: Value, input: string, trimFallback: bool): Intent {
    var intent := Or(Get(a, "intent"), Str("question"));
    var topic := Or(Get(a, "topic"), Str(Prefix(input, 50)));
    var ra := Get(a, "requiresAction");
    var confidence := ToNumber(Get(a, "confidence"), DefaultConfidence);
    Intent(
      Fields(a) - NormalizedKeys,
      intent,
      topic,
      Or(Get(a, "urgency"), Str("medium")),
      if ra.Bool? then ra else Bool(intent != Str("question")),
      AsArray(Get(a, "relatedTopics")),
      Or(Get(a, "sentiment"), Str("neutral")),
      confidence,
      NormalizeStructWith(Get(a, "intentStruct"), topic, confidence, input, trimFallback))
  }

  /** `normalizeIntentAnalysis` as the source writes it. */
  function NormalizeIntentAnalysisAsWritten(a: Value, input: string): Intent {
    NormalizeWith(a, input, false)
  }

  /** `normalizeIntentAnalysis` with the corrected struct normalisation.
      Unknown fields of the classifier output are carried over; each named
      field gets its default when missing or falsy. */
  function NormalizeIntentAnalysis(a: Value, input: string): (r: Intent)
    ensures r.extra == Fields(a) - NormalizedKeys
    ensures Truthy(r.intent) && Truthy(r.urgency) && Truthy(r.sentiment)
    ensures Truthy(Get(a, "intent")) ==> r.intent == Get(a, "intent")
    ensures !Truthy(Get(a, "intent")) ==> r.intent == Str("question")
    ensures Truthy(Get(a, "urgency")) ==> r.urgency == Get(a, "urgency")
    ensures !Truthy(Get(a, "urgency")) ==> r.urgency == Str("medium")
    ensures Truthy(Get(a, "topic")) ==> r.topic == Get(a, "topic")
    ensures !Truthy(Get(a, "topic")) ==> r.topic == Str(Prefix(input, 50))
    ensures Get(a, "requiresAction").Bool? ==> r.requiresAction == Get(a, "requiresAction")
    ensures !Get(a, "requiresAction").Bool? ==> r.requiresAction == Bool(r.intent != Str("question"))
    ensures r.relatedTopics == AsArray(Get(a, "relatedTopics"))
    ensures r.confidence == ToNumber(Get(a, "confidence"), DefaultConfidence)
    ensures r.intentStruct == NormalizeIntentStruct(Get(a, "intentStruct"), r.topic, r.confidence, input)
  {
    NormalizeWith(a, input, true)
  }

  /** The source's normalisation agrees with the corrected one on every
      field but the struct's goal, and on the goal too whenever the
      classifier gave a non-blank goal; otherwise the corrected goal is the
      source's fallback trimmed. */
  lemma AsWrittenDiffersInGoal(a: Value, input: string)
    ensures var w := NormalizeIntentAnalysisAsWritten(a, input);
      var n := NormalizeIntentAnalysis(a, input);
      && w.(intentStruct := w.intentStruct.(goal := n.intentStruct.goal)) == n
      && n.intentStruct.goal == (if w.intentStruct.goal == GoalFallback(n.topic, input)
                                 then TrimValue(w.intentStruct.goal) else w.intentStruct.goal)
  {
  }

  /** Reading a named field back from the object form of a normalised
      intent gives that field. */
  lemma GetNamedFields(n: Intent)
    ensures Fields(n.ToValue()) - NormalizedKeys == n.extra - NormalizedKeys
    ensures Get(n.ToValue(), "intent") == n.intent
    ensures Get(n.ToValue(), "topic") == n.topic
    ensures Get(n.ToValue(), "urgency") == n.urgency
    ensures Get(n.ToValue(), "requiresAction") == n.requiresAction
    ensures Get(n.ToValue(), "relatedTopics") == n.relatedTopics
    ensures Get(n.ToValue(), "sentiment") == n.sentiment
    ensures Get(n.ToValue(), "confidence") == n.confidence
    ensures Get(n.ToValue(), "intentStruct") == n.intentStruct.ToValue()
  {
    ExtraFields(n);
    GetNamedFieldsOf(n);
  }

  /** Spreading the object form of a normalised intent gives back its
      extra fields, once the named keys are set aside. */
  lemma ExtraFields(n: Intent)
    ensures Fields(n.ToValue()) - NormalizedKeys == n.extra - NormalizedKeys
  {
    var m := Fields(n.ToValue());
    assert m.Keys - NormalizedKeys == n.extra.Keys - NormalizedKeys;
    forall k | k in m.Keys - NormalizedKeys
      ensures m[k] == n.extra[k]
    {
    }
  }

  lemma GetNamedFieldsOf(n: Intent)
    ensures Get(n.ToValue(), "intent") == n.intent
    ensures Get(n.ToValue(), "topic") == n.topic
    ensures Get(n.ToValue(), "urgency") == n.urgency
    ensures Get(n.ToValue(), "requiresAction") == n.requiresAction
    ensures Get(n.ToValue(), "relatedTopics") == n.relatedTopics
    ensures Get(n.ToValue(), "sentiment") == n.sentiment
    ensures Get(n.ToValue(), "confidence") == n.confidence
    ensures Get(n.ToValue(), "intentStruct") == n.intentStruct.ToValue()
  {
    GetFirstFields(n);
    GetLastFields(n);
  }

  lemma GetFirstFields(n: Intent)
    ensures Get(n.ToValue(), "intent") == n.intent
    ensures Get(n.ToValue(), "topic") == n.topic
    ensures Get(n.ToValue(), "urgency") == n.urgency
    ensures Get(n.ToValue(), "requiresAction") == n.requiresAction
  {
  }

  lemma GetLastFields(n: Intent)
    ensures Get(n.ToValue(), "relatedTopics") == n.relatedTopics
    ensures Get(n.ToValue(), "sentiment") == n.sentiment
    ensures Get(n.ToValue(), "confidence") == n.confidence
    ensures Get(n.ToValue(), "intentStruct") == n.intentStruct.ToValue()
  {
  }

  lemma GetStructFields(st: IntentStruct)
    ensures StructOf(st.ToValue()) == st.ToValue()
    ensures Get(st.ToValue(), "goal") == st.goal
    ensures Get(st.ToValue(), "constraints") == st.constraints
    ensures Get(st.ToValue(), "entities") == st.entities
    ensures Get(st.ToValue(), "planHints") == st.planHints
    ensures Get(st.ToValue(), "evidence") == st.evidence
    ensures Get(st.ToValue(), "confidence") == st.confidence
    ensures Get(st.ToValue(), "uncertaintyReasons") == st.uncertaintyReasons
  {
  }

  /** The array coercion is idempotent. */
  lemma AsArrayIdempotent(v: Value)
    ensures AsArray(AsArray(v)) == AsArray(v)
  {
  }

  /** Normalising the object form of a normalised result again, with the
      same input, gives the same result. */
  lemma NormalizeIdempotent(a: Value, input: string)
    ensures NormalizeIntentAnalysis(NormalizeIntentAnalysis(a, input).ToValue(), input)
         == NormalizeIntentAnalysis(a, input)
  {
    var n1 := NormalizeIntentAnalysis(a, input);
    var n2 := NormalizeIntentAnalysis(n1.ToValue(), input);
    GetNamedFields(n1);
    MinusTwice(Fields(a), NormalizedKeys);
    assert n2.extra == n1.extra;
    assert n2.intent == n1.intent && n2.topic == n1.topic && n2.urgency == n1.urgency;
    assert n2.requiresAction == n1.requiresAction && n2.sentiment == n1.sentiment;
    AsArrayIdempotent(Get(a, "relatedTopics"));
    assert n2.relatedTopics == n1.relatedTopics;
    assert n2.confidence == n1.confidence;
    StructIdempotent(Get(a, "intentStruct"), n1.topic, n1.confidence, input);
    assert n2.intentStruct == n1.intentStruct;
  }

  lemma MinusTwice<K, V>(m: map<K, V>, ks: set<K>)
    ensures m - ks - ks == m - ks
  {
  }

  /** The struct normalisation is a no-op on its own output. */
  lemma StructIdempotent(s: Value, topic: Value, confidence: Value, input: string)
    requires confidence.Num?
    ensures var s1 := NormalizeIntentStruct(s, topic, confidence, input);
      NormalizeIntentStruct(s1.ToValue(), topic, confidence, input) == s1
  {
    var s1 := NormalizeIntentStruct(s, topic, confidence, input);
    var s2 := NormalizeIntentStruct(s1.ToValue(), topic, confidence, input);
    GetStructFields(s1);
    var fb := TrimValue(GoalFallback(topic, input));
    GoalStable(Get(StructOf(s), "goal"), fb);
    assert s2.goal == s1.goal;
    assert s2.evidence == s1.evidence;
    assert s2.confidence == s1.confidence;
  }

  /** `toText` with a trimmed fallback is idempotent. */
  lemma GoalStable(g: Value, fb: Value)
    requires fb == TrimValue(fb)
    ensures ToText(ToText(g, fb), fb) == ToText(g, fb)
  {
    if g.Str? && Trim(g.s) != "" {
      TrimFacts(g.s);
    } else if fb.Str? {
      TrimFacts(fb.s);
    }
  }

  /** The source's normalisation is not idempotent: a topic with surrounding
      blanks becomes the untrimmed goal, and the second pass trims it. */
  lemma AsWrittenNotIdempotent()
    ensures var n1 := NormalizeIntentAnalysisAsWritten(Obj(map["topic" := Str(" a ")]), "x");
      NormalizeIntentAnalysisAsWritten(n1.ToValue(), "x") != n1
  {
    var a := Obj(map["topic" := Str(" a ")]);
    FirstPassKeepsBlanks(a);
    SecondPassTrims(NormalizeIntentAnalysisAsWritten(a, "x"));
  }

  lemma FirstPassKeepsBlanks(a: Value)
    requires a == Obj(map["topic" := Str(" a ")])
    ensures NormalizeIntentAnalysisAsWritten(a, "x").intentStruct.goal == Str(" a ")
  {
    assert Get(a, "topic") == Str(" a ");
    assert Get(a, "intentStruct") == Undefined;
    var topic := Or(Get(a, "topic"), Str(Prefix("x", 50)));
    var confidence := ToNumber(Get(a, "confidence"), DefaultConfidence);
    assert NormalizeIntentAnalysisAsWritten(a, "x").intentStruct
        == NormalizeStructWith(Undefined, topic, confidence, "x", false);
    MissingStructGoal(topic, confidence, "x");
  }

  /** Without a struct, the source's goal is the topic, untrimmed. */
  lemma MissingStructGoal(topic: Value, confidence: Value, input: string)
    requires Truthy(topic)
    ensures NormalizeStructWith(Undefined, topic, confidence, input, false).goal == topic
  {
    assert Get(StructOf(Undefined), "goal") == Undefined;
  }

  lemma SecondPassTrims(n: Intent)
    requires n.intentStruct.goal == Str(" a ")
    ensures NormalizeIntentAnalysisAsWritten(n.ToValue(), "x").intentStruct.goal == Str("a")
  {
    GetNamedFieldsOf(n);
    GetStructFields(n.intentStruct);
    TrimExample();
  }

  lemma TrimExample()
    ensures Trim(" a ") == "a"
  {
    assert TrimStart(" a ") == "a ";
    assert TrimEnd("a ") == "a";
  }

  /** How far back memories are considered. */
  datatype TimeRange = Hours(hours: nat) | Days(days: nat)

  /** The declarative context policy derived from a normalised intent. */
  datatype ContextHints = ContextHints(
    includeUserProfile: bool,
    includeRecentHistory: bool,
    includeRelatedMemories: bool,
    includeEnvironmentState: bool,
    memoryTypes: seq<string>,
    timeRange: TimeRange)

  /** The fixed intent-type to memory-type table. */
  const MemoryTable: map<string, seq<string>> :=
    map[
      "question" := ["knowledge", "conversation"],
      "task" := ["task", "project", "code"],
      "feedback" := ["conversation", "task"],
      "clarification" := ["conversation"],
      "interrupt" := ["task", "conversation"]
    ]

  /** `determineRelevantMemoryTypes`: the table entry for a known intent
      type, else just conversations. */
  function MemoryTypes(intent: Value): (r: seq<string>)
    ensures intent.Str? && intent.s in MemoryTable ==> r == MemoryTable[intent.s]
    ensures !(intent.Str? && intent.s in MemoryTable) ==> r == ["conversation"]
  {
    if intent.Str? && intent.s in MemoryTable then MemoryTable[intent.s] else ["conversation"]
  }

  /** `determineTimeRange`: one hour when urgent, a week when not, a day
      otherwise. */
  function TimeRangeFor(urgency: Value): (r: TimeRange)
    ensures urgency == Str("high") ==> r == Hours(1)
    ensures urgency == Str("low") ==> r == Days(7)
    ensures urgency != Str("high") && urgency != Str("low") ==> r == Hours(24)
  {
    if urgency == Str("high") then Hours(1)
    else if urgency == Str("low") then Days(7)
    else Hours(24)
  }

  /** The length of a range in hours. */
  function SpanHours(r: TimeRange): nat {
    match r
    case Hours(h) => h
    case Days(d) => 24 * d
  }

  /** The more urgent the intent, the shorter the look-back: an urgent
      intent looks back the least and a non-urgent one the most, and only
      those two urgencies reach the extremes. */
  lemma UrgencyNarrowsRange(urgency: Value)
    ensures SpanHours(TimeRangeFor(Str("high"))) <= SpanHours(TimeRangeFor(urgency)) <= SpanHours(TimeRangeFor(Str("low")))
    ensures SpanHours(TimeRangeFor(urgency)) == SpanHours(TimeRangeFor(Str("high"))) <==> urgency == Str("high")
    ensures SpanHours(TimeRangeFor(urgency)) == SpanHours(TimeRangeFor(Str("low"))) <==> urgency == Str("low")
  {
  }

  /** `extractContextHints` */
  function ExtractContextHints(n: Intent): (h: ContextHints)
    ensures h.includeUserProfile && h.includeRelatedMemories
    ensures h.includeRecentHistory <==> n.intent != Str("interrupt")
    ensures h.includeEnvironmentState <==> n.urgency == Str("high")
    ensures h.memoryTypes == MemoryTypes(n.intent)
    ensures h.timeRange == TimeRangeFor(n.urgency)
  {
    ContextHints(true, n.intent != Str("interrupt"), true, n.urgency == Str("high"),
                 MemoryTypes(n.intent), TimeRangeFor(n.urgency))
  }

  /** Every memory type any intent can ask for is one of six categories,
      and there is always at least one. */
  lemma MemoryTypesBounded(intent: Value)
    ensures 1 <= |MemoryTypes(intent)| <= 3
    ensures forall t :: t in MemoryTypes(intent) ==>
      t in {"knowledge", "conversation", "task", "project", "code"}
  {
  }

  /** A classifier result with no usable fields normalises to a question of
      medium urgency that needs no action, with confidence 0.5. */
  lemma EmptyAnalysisDefaults(a: Value, input: string)
    requires !Truthy(Get(a, "intent")) && !Truthy(Get(a, "urgency"))
    requires !Get(a, "requiresAction").Bool? && !IsNumber(Get(a, "confidence")) && !Get(a, "confidence").Str?
    ensures var r := NormalizeIntentAnalysis(a, input);
      && r.intent == Str("question")
      && r.urgency == Str("medium")
      && r.requiresAction == Bool(false)
      && r.confidence == Num(0.5)
      && ExtractContextHints(r).includeRecentHistory
      && !ExtractContextHints(r).includeEnvironmentState
      && ExtractContextHints(r).memoryTypes == ["knowledge", "conversation"]
      && ExtractContextHints(r).timeRange == Hours(24)
  {
    var r := NormalizeIntentAnalysis(a, input);
    assert r.intent == Str("question") && r.urgency == Str("medium");
    assert r.requiresAction == Bool(false);
    assert r.confidence == Num(0.5);
    QuestionHints(r);
  }

  /** The hints of a question of medium urgency. */
  lemma QuestionHints(n: Intent)
    requires n.intent == Str("question") && n.urgency == Str("medium")
    ensures var h := ExtractContextHints(n);
      && h.includeRecentHistory && !h.includeEnvironmentState
      && h.memoryTypes == ["knowledge", "conversation"] && h.timeRange == Hours(24)
  {
  }
}
