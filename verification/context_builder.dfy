/** server/core/context-builder.js: the pure parts of context assembly.
    It covers:
    - the requirement list and budget of a context specification;
    - the branch-aware history walk;
    - the selection of memories;
    - the compile policy and the normalisation of the compiler's output;
    - the order and window of the composed prompt.
    Storage reads, the embedding search, the compiler's model call and the
    prompt texts are parameters. */
module ContextBuilder {
  import opened Wrappers
  import opened Js
  import IntentEngine

  // ---------------------------------------------------------------------
  // Context specification (buildSpec, deriveRequired, formatList)
  // ---------------------------------------------------------------------

  /** The fixed intent-type to requirement table of `deriveRequired`. */
  const RequiredTable: map<string, seq<string>> :=
    map[
      "task" := ["task_state", "project_context", "related_tasks"],
      "question" := ["relevant_facts", "recent_history"],
      "feedback" := ["recent_history"],
      "clarification" := ["recent_history"],
      "interrupt" := ["running_tasks", "recent_history"]
    ]

  /** `map[intent.intent] || ['recent_history']` */
  function RequiredFor(intentType: Value): seq<string> {
    if intentType.Str? && intentType.s in RequiredTable then RequiredTable[intentType.s]
    else ["recent_history"]
  }

  /** `set.add(x)` on a `Set`, seen as its elements in insertion order. */
  function SetAdd(s: seq<string>, x: string): seq<string> {
    if x in s then s else s + [x]
  }

  /** `Array.from(new Set(s))`: the first occurrence of each element, in
      order. */
  function SetOf(s: seq<string>): (r: seq<string>)
    ensures Distinct(r)
    ensures forall x :: x in r <==> x in s
  {
    if |s| == 0 then []
    else
      assert s == s[..|s| - 1] + [s[|s| - 1]];
      SetAdd(SetOf(s[..|s| - 1]), s[|s| - 1])
  }

  /** A sequence without repetitions is its own set, order included. */
  lemma {:induction false} SetOfDistinct(s: seq<string>)
    requires Distinct(s)
    ensures SetOf(s) == s
  {
    if |s| > 0 {
      SetOfDistinct(s[..|s| - 1]);
      assert s[|s| - 1] !in s[..|s| - 1];
      assert s == s[..|s| - 1] + [s[|s| - 1]];
    }
  }

  /** `deriveRequired`: the requirements of the intent's type plus the tag
      `topic:<topic>` when there is a topic, without repetitions. The topic
      is taken as its text ("" when absent). */
  function DeriveRequired(intentType: Value, topic: string): (r: seq<string>)
    ensures Distinct(r)
    ensures forall x :: x in r <==> x in RequiredFor(intentType) || (topic != "" && x == "topic:" + topic)
  {
    var required := SetOf(RequiredFor(intentType));
    if topic != "" then SetAdd(required, "topic:" + topic) else required
  }

  /** The table entry comes first and unchanged, and the topic tag adds
      exactly one more requirement. */
  lemma DeriveRequiredOrder(intentType: Value, topic: string)
    ensures var r := DeriveRequired(intentType, topic);
      var e := RequiredFor(intentType);
      && |e| <= |r| && r[..|e|] == e
      && |r| == |e| + (if topic != "" then 1 else 0)
  {
    var e := RequiredFor(intentType);
    SetOfDistinct(e);
    if topic != "" {
      var tag := "topic:" + topic;
      assert tag[1] == 'o';
      NoTopicTag(intentType, tag);
    }
  }

  /** No entry of the requirement table has 'o' as its second letter, so
      no entry is a topic tag. */
  lemma NoTopicTag(intentType: Value, tag: string)
    requires |tag| > 1 && tag[1] == 'o'
    ensures tag !in RequiredFor(intentType)
  {
    var e := RequiredFor(intentType);
    if intentType.Str? && intentType.s in RequiredTable {
      var k := intentType.s;
      assert k == "task" || k == "question" || k == "feedback" || k == "clarification" || k == "interrupt";
      if k == "task" {
        assert e == ["task_state", "project_context", "related_tasks"];
      } else if k == "question" {
        assert e == ["relevant_facts", "recent_history"];
      } else if k == "interrupt" {
        assert e == ["running_tasks", "recent_history"];
      } else {
        assert e == ["recent_history"];
      }
    }
  }

  /** `formatList`: "None" for no items, else the items joined by "; ". */
  function FormatList(items: seq<string>): (r: string)
    ensures |items| == 0 ==> r == "None"
    ensures |items| > 0 ==> r == Join(items, "; ")
  {
    if |items| == 0 then "None" else Join(items, "; ")
  }

  /** Appending an item to a non-empty list appends "; " and the item to
      its rendering, so every item appears in order, separated by "; ". */
  lemma {:induction false} FormatListAppend(items: seq<string>, x: string)
    requires |items| > 0
    ensures FormatList(items + [x]) == FormatList(items) + "; " + x
  {
    assert (items + [x])[..|items|] == items;
  }

  /** The longest prefix of decimal digits. */
  function LeadingDigits(s: string): (r: string)
    ensures AllDigits(r) && |r| <= |s| && r == s[..|r|]
    ensures |r| < |s| ==> !IsDigit(s[|r|])
  {
    if |s| > 0 && IsDigit(s[0]) then [s[0]] + LeadingDigits(s[1..]) else ""
  }

  /** `parseInt(s, 10)`: leading white space is skipped, a sign may
      follow, and the longest run of digits after it is the value; None
      stands for NaN. */
  function ParseInt(s: string): (r: Option<int>) {
    var t := TrimStart(s);
    if |t| > 0 && t[0] == '-' then
      match ParseDigits(t[1..])
      case None => None
      case Some(v) => Some(-v)
    else if |t| > 0 && t[0] == '+' then ParseDigits(t[1..])
    else ParseDigits(t)
  }

  /** The value of the leading digits, None when there are none. */
  function ParseDigits(b: string): (r: Option<int>)
    ensures r.None? <==> |b| == 0 || !IsDigit(b[0])
    ensures r.Some? ==> r.value >= 0
  {
    var d := LeadingDigits(b);
    if d == "" then None else Some(DigitsValue(d))
  }

  /** The decimal numeral of `n`. */
  function NatText(n: nat): (r: string)
    ensures |r| > 0 && AllDigits(r) && DigitsValue(r) == n
  {
    var d := ['0' + (n % 10) as char];
    if n < 10 then d
    else
      var r := NatText(n / 10) + d;
      assert r[..|r| - 1] == NatText(n / 10);
      r
  }

  /** A run of digits followed by anything that is not a digit parses to
      the run's value: `parseInt("6000px", 10) == 6000`. */
  lemma {:induction false} LeadingDigitsOf(d: string, rest: string)
    requires AllDigits(d)
    requires rest == "" || !IsDigit(rest[0])
    ensures LeadingDigits(d + rest) == d
  {
    if |d| > 0 {
      assert (d + rest)[1..] == d[1..] + rest;
      LeadingDigitsOf(d[1..], rest);
      assert d == [d[0]] + d[1..];
    } else {
      assert d + rest == rest;
    }
  }

  /** `parseInt` reads back every numeral, whatever non-digit text follows
      it. */
  lemma ParseIntNumeral(n: nat, rest: string)
    requires rest == "" || !IsDigit(rest[0])
    ensures ParseInt(NatText(n) + rest) == Some(n)
  {
    var d := NatText(n);
    ParseIntDigits(d, rest);
  }

  /** A run of digits followed by a non-digit parses to the run's value. */
  lemma ParseIntDigits(d: string, rest: string)
    requires |d| > 0 && AllDigits(d)
    requires rest == "" || !IsDigit(rest[0])
    ensures ParseInt(d + rest) == Some(DigitsValue(d))
  {
    DigitsRun(d, rest);
    ParseUnsigned(d + rest);
  }

  /** `parseInt` reads a minus sign in front of a numeral as negation. */
  lemma ParseIntNegative(n: nat, rest: string)
    requires rest == "" || !IsDigit(rest[0])
    ensures ParseInt("-" + NatText(n) + rest) == Some(-(n as int))
  {
    var s := "-" + NatText(n) + rest;
    MinusTail(NatText(n), rest);
    DigitsRun(NatText(n), rest);
    NegatedValue(s, n);
  }

  /** Text that is a minus sign followed by digits worth `v` reads as -v. */
  lemma NegatedValue(s: string, v: int)
    requires |s| > 0 && s[0] == '-' && ParseDigits(s[1..]) == Some(v)
    ensures ParseInt(s) == Some(-v)
  {
    ParseMinus(s);
  }

  lemma MinusTail(d: string, rest: string)
    ensures ("-" + d + rest)[1..] == d + rest
  {
  }

  /** `parseInt` reads text starting with a minus sign as negated digits. */
  lemma ParseMinus(s: string)
    requires |s| > 0 && s[0] == '-'
    ensures ParseDigits(s[1..]).None? ==> ParseInt(s).None?
    ensures ParseDigits(s[1..]).Some? ==> ParseInt(s) == Some(-ParseDigits(s[1..]).value)
  {
    assert TrimStart(s) == s;
  }

  /** The digits of a run followed by a non-digit are the run. */
  lemma DigitsRun(d: string, rest: string)
    requires |d| > 0 && AllDigits(d)
    requires rest == "" || !IsDigit(rest[0])
    ensures ParseDigits(d + rest) == Some(DigitsValue(d) as int)
  {
    LeadingDigitsOf(d, rest);
  }

  /** Text starting with a digit is read as unsigned digits. */
  lemma ParseUnsigned(s: string)
    requires |s| > 0 && IsDigit(s[0])
    ensures ParseInt(s) == ParseDigits(s)
  {
    assert TrimStart(s) == s;
    assert s[0] != '-' && s[0] != '+';
  }

  lemma Assoc<T>(a: seq<T>, b: seq<T>, c: seq<T>)
    ensures a + b + c == a + (b + c)
  {
  }

  /** `parseInt(value, 10) || fallback`: the parsed number unless it is
      NaN or 0. */
  function EnvInt(value: string, fallback: int): (r: int)
    ensures ParseInt(value).Some? && ParseInt(value).value != 0 ==> r == ParseInt(value).value
    ensures ParseInt(value).None? || ParseInt(value).value == 0 ==> r == fallback
  {
    var p := ParseInt(value);
    if p.Some? && p.value != 0 then p.value else fallback
  }

  /** `parseInt(s)` with no radix: as with radix 10, except that a `0x`
      or `0X` after the sign switches to hexadecimal (and `0x` with no hex
      digit after it is NaN). */
  function ParseIntAnyRadix(s: string): (r: Option<int>) {
    var t := TrimStart(s);
    if |t| > 0 && t[0] == '-' then
      match ParseUnsignedAnyRadix(t[1..])
      case None => None
      case Some(v) => Some(-v)
    else if |t| > 0 && t[0] == '+' then ParseUnsignedAnyRadix(t[1..])
    else ParseUnsignedAnyRadix(t)
  }

  predicate HasHexPrefix(b: string) {
    |b| >= 2 && b[0] == '0' && (b[1] == 'x' || b[1] == 'X')
  }

  /** The number after the sign: hexadecimal after a `0x` prefix, decimal
      otherwise. */
  function ParseUnsignedAnyRadix(b: string): (r: Option<int>)
    ensures !HasHexPrefix(b) ==> r == ParseDigits(b)
    ensures r.Some? ==> r.value >= 0
  {
    if HasHexPrefix(b) then
      var h := LeadingHex(b[2..]);
      if h == "" then None else Some(HexValue(h))
    else ParseDigits(b)
  }

  predicate IsHexDigit(c: char) {
    IsDigit(c) || 'a' <= c <= 'f' || 'A' <= c <= 'F'
  }

  predicate AllHex(s: string) {
    forall i :: 0 <= i < |s| ==> IsHexDigit(s[i])
  }

  function HexDigitValue(c: char): (n: nat)
    requires IsHexDigit(c)
    ensures n < 16
  {
    if IsDigit(c) then c as int - '0' as int
    else if 'a' <= c <= 'f' then c as int - 'a' as int + 10
    else c as int - 'A' as int + 10
  }

  function HexValue(s: string): nat
    requires AllHex(s)
    decreases |s|
  {
    if |s| == 0 then 0 else 16 * HexValue(s[..|s| - 1]) + HexDigitValue(s[|s| - 1])
  }

  /** The longest prefix of hexadecimal digits. */
  function LeadingHex(s: string): (r: string)
    ensures AllHex(r) && |r| <= |s| && r == s[..|r|]
    ensures |r| < |s| ==> !IsHexDigit(s[|r|])
  {
    if |s| > 0 && IsHexDigit(s[0]) then [s[0]] + LeadingHex(s[1..]) else ""
  }

  lemma {:induction false} LeadingHexOf(h: string, rest: string)
    requires AllHex(h)
    requires rest == "" || !IsHexDigit(rest[0])
    ensures LeadingHex(h + rest) == h
  {
    if |h| > 0 {
      assert (h + rest)[1..] == h[1..] + rest;
      LeadingHexOf(h[1..], rest);
      assert h == [h[0]] + h[1..];
    } else {
      assert h + rest == rest;
    }
  }

  /** With no radix, `0x` followed by hex digits reads as their
      hexadecimal value, whatever non-hex text follows. */
  lemma ParseIntAnyRadixHex(x: char, h: string, rest: string)
    requires x == 'x' || x == 'X'
    requires |h| > 0 && AllHex(h)
    requires rest == "" || !IsHexDigit(rest[0])
    ensures ParseIntAnyRadix(['0', x] + h + rest) == Some(HexValue(h) as int)
  {
    var s := ['0', x] + h + rest;
    assert s[0] == '0' && s[1] == x;
    HexTail(x, h, rest);
    HexRun(s, h, rest);
    AnyRadixUnsigned(s);
  }

  lemma HexTail(x: char, h: string, rest: string)
    ensures (['0', x] + h + rest)[2..] == h + rest
  {
  }

  /** A hex prefix followed by a run of hex digits reads as the run. */
  lemma HexRun(s: string, h: string, rest: string)
    requires HasHexPrefix(s) && s[2..] == h + rest
    requires |h| > 0 && AllHex(h)
    requires rest == "" || !IsHexDigit(rest[0])
    ensures ParseUnsignedAnyRadix(s) == Some(HexValue(h) as int)
  {
    LeadingHexOf(h, rest);
  }

  /** Text starting with a digit has no sign to read. */
  lemma AnyRadixUnsigned(s: string)
    requires |s| > 0 && IsDigit(s[0])
    ensures ParseIntAnyRadix(s) == ParseUnsignedAnyRadix(s)
  {
    assert TrimStart(s) == s;
    assert s[0] != '-' && s[0] != '+';
  }

  /** With no radix, text whose number does not start with `0x` reads as
      it does in radix 10. */
  lemma ParseIntAnyRadixDecimal(s: string)
    requires var t := TrimStart(s);
      var b := if |t| > 0 && (t[0] == '-' || t[0] == '+') then t[1..] else t;
      !HasHexPrefix(b)
    ensures ParseIntAnyRadix(s) == ParseInt(s)
  {
  }

  /** `parseInt(value) || fallback`, the radix-less reading of a setting. */
  function EnvIntAnyRadix(value: string, fallback: int): (r: int)
    ensures ParseIntAnyRadix(value).Some? && ParseIntAnyRadix(value).value != 0 ==> r == ParseIntAnyRadix(value).value
    ensures ParseIntAnyRadix(value).None? || ParseIntAnyRadix(value).value == 0 ==> r == fallback
    ensures value == "" ==> r == fallback
    ensures fallback != 0 ==> r != 0
  {
    AnyRadixEmpty();
    var p := ParseIntAnyRadix(value);
    if p.Some? && p.value != 0 then p.value else fallback
  }

  /** An unset variable reads as NaN. */
  lemma AnyRadixEmpty()
    ensures ParseIntAnyRadix("").None?
  {
    assert TrimStart("") == "";
    assert !HasHexPrefix("");
  }

  /** A hexadecimal setting is honoured without a radix and ignored in
      radix 10. */
  lemma HexSetting()
    ensures EnvIntAnyRadix("0x10", 3) == 16
    ensures EnvInt("0x10", 3) == 3
  {
    HexSixteen();
    DecimalZero();
  }

  lemma HexSixteen()
    ensures ParseIntAnyRadix("0x10") == Some(16)
  {
    ParseIntAnyRadixHex('x', "10", "");
    assert "0x10" == ['0', 'x'] + "10" + "";
    assert "10"[..1] == "1";
    assert HexValue("10") == 16;
  }

  lemma DecimalZero()
    ensures ParseInt("0x10") == Some(0)
  {
    var s := "0x10";
    ParseUnsigned(s);
    assert s[1..][0] == 'x';
    assert LeadingDigits(s[1..]) == "";
    assert LeadingDigits(s) == "0";
    assert DigitsValue("0") == 0;
  }

  const DefaultMaxTokens := 6000
  const DefaultMaxMemories := 10
  const MaxTurns := 10

  /** What the builder reads from an intent:
      - `id` and `userInput`;
      - the normalised intent type, and the topic as text ("" when absent);
      - `intentStruct?.constraints`;
      - the context hints, absent on a re-executed intent;
      - the two anchor ids ("" when absent). */
  datatype Request = Request(
    id: string,
    userInput: string,
    intentType: Value,
    topic: string,
    constraints: Value,
    hints: Option<IntentEngine.ContextHints>,
    anchorNodeId: string,
    parentNodeId: string)

  /** `anchorNodeId || parentNodeId || null` */
  function HistoryAnchor(req: Request): (a: string)
    ensures req.anchorNodeId != "" ==> a == req.anchorNodeId
    ensures req.anchorNodeId == "" ==> a == req.parentNodeId
  {
    if req.anchorNodeId != "" then req.anchorNodeId else req.parentNodeId
  }

  /** The context requirement specification; the scoring weights are
      floating-point constants and are not represented. */
  datatype ContextSpec = ContextSpec(
    intentId: string,
    sessionId: string,
    required: seq<string>,
    constraints: Value,
    timeScope: string,
    memoryTypes: seq<string>,
    includeRecent: bool,
    anchorNodeId: string,
    maxTurns: nat,
    maxTokens: int,
    maxMemories: int)

  /** `buildSpec`, with the two environment settings as text ("" when
      unset). */
  function BuildSpec(req: Request, sessionId: string, maxTokensEnv: string, maxMemoriesEnv: string): (s: ContextSpec)
    ensures s.intentId == req.id && s.sessionId == sessionId && s.timeScope == "session"
    ensures s.required == DeriveRequired(req.intentType, req.topic)
    ensures Truthy(s.constraints)
    ensures Truthy(req.constraints) ==> s.constraints == req.constraints
    ensures req.hints.None? ==> s.memoryTypes == [] && s.includeRecent
    ensures req.hints.Some? ==>
      s.memoryTypes == req.hints.value.memoryTypes && s.includeRecent == req.hints.value.includeRecentHistory
    ensures s.anchorNodeId == HistoryAnchor(req) && s.maxTurns == MaxTurns
    ensures s.maxTokens != 0 && s.maxMemories != 0
    ensures maxTokensEnv == "" ==> s.maxTokens == DefaultMaxTokens
    ensures maxMemoriesEnv == "" ==> s.maxMemories == DefaultMaxMemories
  {
    ContextSpec(
      req.id, sessionId, DeriveRequired(req.intentType, req.topic),
      Or(req.constraints, Arr([])), "session",
      if req.hints.Some? then req.hints.value.memoryTypes else [],
      if req.hints.Some? then req.hints.value.includeRecentHistory else true,
      HistoryAnchor(req), MaxTurns,
      EnvInt(maxTokensEnv, DefaultMaxTokens), EnvInt(maxMemoriesEnv, DefaultMaxMemories))
  }

  // ---------------------------------------------------------------------
  // Relevant memories (getRelevantMemories, after the store read)
  // ---------------------------------------------------------------------

  /** A stored memory: its type and its content. */
  datatype Memory = Memory(kind: string, content: string)

  /** `memories.filter(m => types.includes(m.type))` */
  function OfTypes(ms: seq<Memory>, types: seq<string>): (r: seq<Memory>)
    ensures |r| <= |ms|
    ensures forall m :: m in r <==> m in ms && m.kind in types
  {
    if |ms| == 0 then []
    else
      assert ms == ms[..|ms| - 1] + [ms[|ms| - 1]];
      OfTypes(ms[..|ms| - 1], types) + (if ms[|ms| - 1].kind in types then [ms[|ms| - 1]] else [])
  }

  /** The semantic search: not attempted (no input or no model), failed
      (the embedding or search threw), or the memories it found. */
  datatype Search = NoSearch | SearchFailed | Found(similar: seq<Memory>)

  /** `getRelevantMemories` after the store read. */
  function RelevantMemories(memories: seq<Memory>, types: seq<string>, search: Search): (r: seq<Memory>)
    ensures !search.Found? ==> |r| <= 10
    ensures search.Found? ==> |search.similar| <= |r| <= 5 + |search.similar|
  {
    var filtered := OfTypes(memories, types);
    match search
    case Found(similar) => Last(filtered, 5) + similar
    case _ => Last(filtered, 10)
  }

  /** Without a search, or when it fails, the result is the newest ten
      stored memories of the hinted types, in stored order. */
  lemma RelevantWithoutSearch(memories: seq<Memory>, types: seq<string>, search: Search)
    requires !search.Found?
    ensures var r := RelevantMemories(memories, types, search);
      var f := OfTypes(memories, types);
      && r == f[|f| - |r|..]
      && |r| == (if |f| <= 10 then |f| else 10)
      && forall m :: m in r ==> m in memories && m.kind in types
  {
    var f := OfTypes(memories, types);
    var r := Last(f, 10);
    assert RelevantMemories(memories, types, search) == r;
    forall m | m in r
      ensures m in memories && m.kind in types
    {
      LastIn(f, 10);
    }
  }

  /** With a search, the newest five stored memories of the hinted types
      come first and the memories the search found follow them. */
  lemma RelevantWithSearch(memories: seq<Memory>, types: seq<string>, similar: seq<Memory>)
    ensures var r := RelevantMemories(memories, types, Found(similar));
      var f := OfTypes(memories, types);
      var own := |r| - |similar|;
      && own == (if |f| <= 5 then |f| else 5)
      && r[..own] == f[|f| - own..]
      && r[own..] == similar
      && forall i :: 0 <= i < own ==> r[i] in memories && r[i].kind in types
  {
    var r := RelevantMemories(memories, types, Found(similar));
    var f := OfTypes(memories, types);
    var own := Last(f, 5);
    assert r == own + similar;
    assert r[..|own|] == own && r[|own|..] == similar;
    forall i | 0 <= i < |own|
      ensures r[i] in memories && r[i].kind in types
    {
      assert r[i] == own[i] && own[i] in f;
    }
  }

  // ---------------------------------------------------------------------
  // Compilation policy and output (shouldCompileContext, compileContext)
  // ---------------------------------------------------------------------

  /** `toLowerCase` on the ASCII letters. */
  function LowerAscii(s: string): (r: string)
    ensures |r| == |s|
    ensures forall i :: 0 <= i < |s| ==> r[i] == if 'A' <= s[i] <= 'Z' then (s[i] as int + 32) as char else s[i]
  {
    if |s| == 0 then ""
    else [if 'A' <= s[0] <= 'Z' then (s[0] as int + 32) as char else s[0]] + LowerAscii(s[1..])
  }

  /** `(CONTEXT_COMPILATION_MODE || 'auto').toLowerCase()` */
  function CompileMode(env: string): string {
    LowerAscii(if env == "" then "auto" else env)
  }

  /** `shouldCompileContext`: never when the mode is off, always when it
      is on, otherwise when there are at least three items of history,
      memories and related tasks together. */
  function ShouldCompile(modeEnv: string, history: nat, memories: nat, tasks: nat): (b: bool)
    ensures CompileMode(modeEnv) == "off" ==> !b
    ensures CompileMode(modeEnv) == "on" ==> b
    ensures CompileMode(modeEnv) != "off" && CompileMode(modeEnv) != "on" ==>
      (b <==> history + memories + tasks >= 3)
  {
    var mode := CompileMode(modeEnv);
    if mode == "off" then false
    else if mode == "on" then true
    else history + memories + tasks >= 3
  }

  /** The mode is read case-insensitively, and an unset mode means `auto`. */
  lemma CompileModeSpellings(history: nat, memories: nat, tasks: nat)
    ensures !ShouldCompile("OFF", history, memories, tasks)
    ensures ShouldCompile("On", history, memories, tasks)
    ensures ShouldCompile("", history, memories, tasks) <==> history + memories + tasks >= 3
  {
    assert CompileMode("OFF") == "off";
    assert CompileMode("On") == "on";
    assert CompileMode("") == "auto";
  }

  const CompileHeader := "[Context Compilation]"

  /** The compiler call: it threw, or returned this text (`String(response
      || '')`, so a null reply is ""). */
  datatype CompilerReply = CompilerThrew | CompilerReplied(text: string)

  /** The output handling of `compileContext`. There is no output without a
      model, when the policy says no, when the call throws or when the
      trimmed reply is empty. Otherwise the output is the trimmed reply,
      with the header put in front unless it already starts with it. */
  function CompileContext(llm: bool, compile: bool, reply: CompilerReply): (r: Option<string>)
    ensures r.None? <==> !llm || !compile || reply.CompilerThrew? || Trim(reply.text) == ""
    ensures r.Some? ==> StartsWith(r.value, CompileHeader)
    ensures r.Some? ==> EndsWith(r.value, Trim(reply.text))
    ensures r.Some? ==> Trim(r.value) == r.value
  {
    if !llm || !compile then None
    else match reply
      case CompilerThrew => None
      case CompilerReplied(text) =>
        var compiled := Trim(text);
        if compiled == "" then None
        else
          TrimFacts(text);
          if StartsWith(compiled, CompileHeader) then Some(compiled)
          else
            HeaderKeepsTrim(compiled);
            Some(CompileHeader + "\n" + compiled)
  }

  /** Putting the header in front of a trimmed text keeps the text at
      the end and the result trimmed. */
  lemma HeaderKeepsTrim(t: string)
    requires t != "" && Trim(t) == t
    ensures var out := CompileHeader + "\n" + t;
      StartsWith(out, CompileHeader) && EndsWith(out, t) && Trim(out) == out
  {
    TrimFacts(t);
    var out := CompileHeader + "\n" + t;
    assert out[..|CompileHeader|] == CompileHeader;
    assert out[|out| - |t|..] == t;
    assert out[0] == '[' && out[|out| - 1] == t[|t| - 1];
    TrimFixedPoint(out);
  }

  /** Compiling an already compiled context again leaves it unchanged. */
  lemma CompileIdempotent(reply: CompilerReply)
    requires CompileContext(true, true, reply).Some?
    ensures var c := CompileContext(true, true, reply).value;
      CompileContext(true, true, CompilerReplied(c)) == Some(c)
  {
  }

  // ---------------------------------------------------------------------
  // Branch-aware history (getMessagesUpToNode)
  // ---------------------------------------------------------------------

  /** Whose turn a chat message is. */
  datatype Role = System | User | Assistant

  /** One entry of a message's edit history: its text fields by name. */
  datatype Edit = Edit(fields: map<string, string>)

  /** A history message. A `timestamp` of 0 and a `parentNodeId` of "" mean
      absent. */
  datatype Message = Message(
    id: string,
    role: Role,
    content: string,
    timestamp: int,
    parentNodeId: string,
    editHistory: seq<Edit>)

  /** A node of the saved canvas graph. */
  datatype GraphNode = GraphNode(
    id: string,
    kind: string,
    title: string,
    content: string,
    timestamp: int,
    parentNodeId: string,
    editHistory: seq<Edit>)

  /** `new Map(nodes.map(n => [n.id, n]))`: a later node with the same id
      replaces an earlier one. */
  function NodeMap(ns: seq<GraphNode>): (m: map<string, GraphNode>)
    ensures forall n :: n in ns ==> n.id in m
    ensures forall id :: id in m ==> m[id] in ns && m[id].id == id
  {
    if |ns| == 0 then map[]
    else
      assert ns == ns[..|ns| - 1] + [ns[|ns| - 1]];
      NodeMap(ns[..|ns| - 1])[ns[|ns| - 1].id := ns[|ns| - 1]]
  }

  /** The same map built over stored messages. */
  function MessageMap(ms: seq<Message>): (m: map<string, Message>)
    ensures forall x :: x in ms ==> x.id in m
    ensures forall id :: id in m ==> m[id] in ms && m[id].id == id
  {
    if |ms| == 0 then map[]
    else
      assert ms == ms[..|ms| - 1] + [ms[|ms| - 1]];
      MessageMap(ms[..|ms| - 1])[ms[|ms| - 1].id := ms[|ms| - 1]]
  }

  /** The parent pointers of a map of nodes or of messages: the walk
      needs nothing else of them. */
  function Parents<T>(m: map<string, T>, parentOf: T -> string): (p: map<string, string>)
    ensures p.Keys == m.Keys
    ensures forall id :: id in m ==> p[id] == parentOf(m[id])
  {
    map id | id in m :: parentOf(m[id])
  }

  function NodeParent(n: GraphNode): string {
    n.parentNodeId
  }

  function MessageParent(m: Message): string {
    m.parentNodeId
  }

  /** `current.parentNodeId && nodeMap.has(current.parentNodeId)` */
  predicate HasParent(parents: map<string, string>, id: string)
    requires id in parents
  {
    parents[id] != "" && parents[id] in parents
  }

  /** `path` is an ancestor chain: it starts at a node whose parent is not
      followed, and each later id is a child of the one before it. */
  predicate IsChain(parents: map<string, string>, path: seq<string>) {
    && |path| > 0
    && (forall i :: 0 <= i < |path| ==> path[i] in parents)
    && !HasParent(parents, path[0])
    && (forall i :: 0 < i < |path| ==> HasParent(parents, path[i]) && parents[path[i]] == path[i - 1])
  }

  /** The ancestor walk, root first. The source's loop has no cycle
      guard: when the walk comes back to an id it has already passed, the
      source never returns, which is None here. */
  function Walk(parents: map<string, string>, id: string, visited: set<string>): (r: Option<seq<string>>)
    requires id in parents
    ensures r.Some? ==> IsChain(parents, r.value) && r.value[|r.value| - 1] == id
    ensures r.Some? ==> Distinct(r.value) && forall x :: x in r.value ==> x !in visited
    decreases parents.Keys - visited
  {
    if id in visited then None
    else if HasParent(parents, id) then
      match Walk(parents, parents[id], visited + {id})
      case None => None
      case Some(path) => Some(path + [id])
    else Some([id])
  }

  /** Parent pointers are deterministic, so there is only one ancestor
      chain ending at a given id: the walk returns the chain. */
  lemma {:induction false} ChainUnique(parents: map<string, string>, p: seq<string>, q: seq<string>)
    requires IsChain(parents, p) && IsChain(parents, q)
    requires p[|p| - 1] == q[|q| - 1]
    ensures p == q
    decreases |p|
  {
    if |p| > 1 && |q| > 1 {
      var p', q' := p[..|p| - 1], q[..|q| - 1];
      assert IsChain(parents, p');
      assert IsChain(parents, q');
      ChainUnique(parents, p', q');
      assert p == p' + [p[|p| - 1]];
      assert q == q' + [q[|q| - 1]];
    }
  }

  /** A witness of acyclicity: every followed parent has a smaller rank. */
  ghost predicate Ranked(parents: map<string, string>, rank: map<string, nat>) {
    forall id :: id in parents ==> id in rank && (HasParent(parents, id) ==> parents[id] in rank && rank[parents[id]] < rank[id])
  }

  /** On an acyclic graph the walk always returns. */
  lemma {:induction false} RankedWalkReturns(parents: map<string, string>, rank: map<string, nat>, id: string, visited: set<string>)
    requires Ranked(parents, rank) && id in parents
    requires forall v :: v in visited ==> v in rank && rank[v] > rank[id]
    ensures Walk(parents, id, visited).Some?
    decreases parents.Keys - visited
  {
    if HasParent(parents, id) {
      var p := parents[id];
      assert p in rank && rank[p] < rank[id];
      RankedWalkReturns(parents, rank, p, visited + {id});
    }
  }

  /** Two nodes that name each other as parent: the walk does not return. */
  lemma CycleDiverges()
    ensures Walk(map["a" := "b", "b" := "a"], "a", {}) == None
  {
    var parents := map["a" := "b", "b" := "a"];
    assert Walk(parents, "a", {"a", "b"}) == None;
    assert Walk(parents, "b", {"a"}) == None;
  }

  /** `n.type === 'chat' || n.type === 'task'` */
  predicate IsConversation(n: GraphNode) {
    n.kind == "chat" || n.kind == "task"
  }

  /** The message a conversation node contributes; `now` is `Date.now()`. */
  function ToMessage(n: GraphNode, now: int): (m: Message)
    ensures m.id == n.id && m.content == n.content && m.parentNodeId == n.parentNodeId
    ensures m.role == User <==> n.kind == "chat" && n.title == "User"
    ensures m.role != System
    ensures m.timestamp == if n.timestamp != 0 then n.timestamp else now
  {
    Message(n.id, if n.kind == "chat" && n.title == "User" then User else Assistant,
            n.content, if n.timestamp != 0 then n.timestamp else now, n.parentNodeId, n.editHistory)
  }

  /** The nodes or messages named by a chain of ids, in chain order. */
  function Pick<T>(m: map<string, T>, ids: seq<string>): (r: seq<T>)
    requires forall i :: 0 <= i < |ids| ==> ids[i] in m
    ensures |r| == |ids| && forall i :: 0 <= i < |ids| ==> r[i] == m[ids[i]]
  {
    if |ids| == 0 then [] else Pick(m, ids[..|ids| - 1]) + [m[ids[|ids| - 1]]]
  }

  /** The filter and map of the graph path: conversation nodes only, in
      path order. */
  function Conversation(ns: seq<GraphNode>, now: int): (r: seq<Message>)
    ensures |r| <= |ns|
    ensures |ns| > 0 && IsConversation(ns[|ns| - 1]) ==> |r| > 0 && r[|r| - 1] == ToMessage(ns[|ns| - 1], now)
  {
    if |ns| == 0 then []
    else
      var n := ns[|ns| - 1];
      Conversation(ns[..|ns| - 1], now) + (if IsConversation(n) then [ToMessage(n, now)] else [])
  }

  /** `m` comes from a chat or task node of the map, never from an intent
      node. */
  predicate FromConversationNode(nm: map<string, GraphNode>, m: Message) {
    m.role != System && m.id in nm && IsConversation(nm[m.id])
  }

  /** When the nodes are the map's entries for their ids, every message of
      the filter comes from a conversation entry of the map. */
  lemma {:induction false} ConversationFromMap(ns: seq<GraphNode>, now: int, nm: map<string, GraphNode>)
    requires forall j :: 0 <= j < |ns| ==> ns[j].id in nm && nm[ns[j].id] == ns[j]
    ensures forall m :: m in Conversation(ns, now) ==> FromConversationNode(nm, m)
  {
    if |ns| > 0 {
      ConversationFromMap(ns[..|ns| - 1], now, nm);
    }
  }

  /** `getMessagesUpToNode`, with the saved graph, the stored messages and
      the clock as inputs. None means the source does not return: the
      ancestor walk went round a cycle. */
  function MessagesUpToNode(graph: seq<GraphNode>, store: seq<Message>, target: string, now: int): (r: Option<seq<Message>>)
    ensures r.Some? ==> |r.value| <= 20
    ensures (|graph| == 0 || target !in NodeMap(graph)) && target !in MessageMap(store) ==>
      r == Some(Last(store, 10))
    ensures (|graph| == 0 || target !in NodeMap(graph)) && r.Some? ==>
      forall i :: 0 <= i < |r.value| ==> r.value[i] in store
  {
    if |graph| > 0 && target in NodeMap(graph) then GraphHistory(graph, target, now)
    else FlatHistory(store, target)
  }

  /** The graph path: the conversation nodes of the target's ancestor
      chain, the newest twenty of them. */
  function GraphHistory(graph: seq<GraphNode>, target: string, now: int): (r: Option<seq<Message>>)
    requires target in NodeMap(graph)
    ensures r.Some? ==> |r.value| <= 20
  {
    var nm := NodeMap(graph);
    match Walk(Parents(nm, NodeParent), target, {})
    case None => None
    case Some(ids) => Some(Last(Conversation(Pick(nm, ids), now), 20))
  }

  /** Every message of the graph path comes from a chat or task node of
      the graph, never from an intent node. */
  lemma GraphHistoryConversationOnly(graph: seq<GraphNode>, target: string, now: int)
    requires target in NodeMap(graph)
    ensures var r := GraphHistory(graph, target, now);
      r.Some? ==> forall m :: m in r.value ==> FromConversationNode(NodeMap(graph), m)
  {
    var nm := NodeMap(graph);
    var w := Walk(Parents(nm, NodeParent), target, {});
    if w.Some? {
      var path := Pick(nm, w.value);
      PathFromMap(nm, w.value);
      ConversationFromMap(path, now, nm);
      LastIn(Conversation(path, now), 20);
    }
  }

  /** The nodes a chain of ids names are the map's entries for their ids. */
  lemma PathFromMap(nm: map<string, GraphNode>, ids: seq<string>)
    requires forall id :: id in nm ==> nm[id].id == id
    requires forall i :: 0 <= i < |ids| ==> ids[i] in nm
    ensures var path := Pick(nm, ids);
      forall j :: 0 <= j < |path| ==> path[j].id in nm && nm[path[j].id] == path[j]
  {
  }

  /** The flat path over the stored messages: the last ten when the target
      is not among them, else the newest twenty of its ancestor chain. */
  function FlatHistory(store: seq<Message>, target: string): (r: Option<seq<Message>>)
    ensures r.Some? ==> |r.value| <= 20 && forall i :: 0 <= i < |r.value| ==> r.value[i] in store
    ensures target !in MessageMap(store) ==> r == Some(Last(store, 10))
  {
    var mm := MessageMap(store);
    if target !in mm then
      LastIn(store, 10);
      Some(Last(store, 10))
    else match Walk(Parents(mm, MessageParent), target, {})
      case None => None
      case Some(ids) =>
        var all := Pick(mm, ids);
        StoredMessages(store, ids);
        LastIn(all, 20);
        Some(Last(all, 20))
  }

  /** The messages a chain of ids names are stored messages. */
  lemma StoredMessages(store: seq<Message>, ids: seq<string>)
    requires forall i :: 0 <= i < |ids| ==> ids[i] in MessageMap(store)
    ensures forall x :: x in Pick(MessageMap(store), ids) ==> x in store
  {
  }

  /** On an acyclic graph with the target in it, the history ends with the
      target itself when the target is a conversation node. */
  lemma GraphHistoryEndsAtTarget(graph: seq<GraphNode>, store: seq<Message>, target: string, now: int, rank: map<string, nat>)
    requires |graph| > 0 && target in NodeMap(graph)
    requires Ranked(Parents(NodeMap(graph), NodeParent), rank)
    requires IsConversation(NodeMap(graph)[target])
    ensures var r := MessagesUpToNode(graph, store, target, now);
      r.Some? && |r.value| > 0 && r.value[|r.value| - 1] == ToMessage(NodeMap(graph)[target], now)
  {
    var nm := NodeMap(graph);
    RankedWalkReturns(Parents(nm, NodeParent), rank, target, {});
    var ids := Walk(Parents(nm, NodeParent), target, {}).value;
    var path := Pick(nm, ids);
    assert path[|path| - 1] == nm[target];
  }

  /** On acyclic parent pointers, in the graph and in the store, the
      history is always produced. */
  lemma AcyclicHistoryReturns(graph: seq<GraphNode>, store: seq<Message>, target: string, now: int,
                              graphRank: map<string, nat>, storeRank: map<string, nat>)
    requires Ranked(Parents(NodeMap(graph), NodeParent), graphRank)
    requires Ranked(Parents(MessageMap(store), MessageParent), storeRank)
    ensures MessagesUpToNode(graph, store, target, now).Some?
  {
    var nm := NodeMap(graph);
    var mm := MessageMap(store);
    if |graph| > 0 && target in nm {
      RankedWalkReturns(Parents(nm, NodeParent), graphRank, target, {});
    } else if target in mm {
      RankedWalkReturns(Parents(mm, MessageParent), storeRank, target, {});
    }
  }

  // ---------------------------------------------------------------------
  // Prompt composition (composeContext)
  // ---------------------------------------------------------------------

  /** A message of the composed prompt. */
  datatype ChatMessage = ChatMessage(role: Role, content: string)

  /** The prompt texts, whose wording is not modelled: the system prompt,
      the intent directive, the specification directive and the memory
      block. */
  datatype Prompts = Prompts(system: string, intentDirective: string, specDirective: string, memoryBlock: string)

  /** The composed context and the metadata that depends on it. */
  datatype Composed = Composed(messages: seq<ChatMessage>, intentId: string, contextSize: nat, hasCompiledContext: bool)

  /** What the history loop reads for a message as the code is written:
      the `newContent` field of the newest edit. None when that field is
      missing, that is `undefined`. */
  function HistoryContentAsWritten(m: Message): Option<string> {
    if |m.editHistory| > 0 then
      var e := m.editHistory[|m.editHistory| - 1].fields;
      if "newContent" in e then Some(e["newContent"]) else None
    else Some(m.content)
  }

  /** The edited text the loop means to use: the newest edit's text under
      the name the client writes it (`editedContent`), else `newContent`,
      else the stored content. */
  function HistoryContent(m: Message): (c: string)
    ensures |m.editHistory| == 0 ==> c == m.content
    ensures HistoryContentAsWritten(m).Some? && (|m.editHistory| == 0 || "editedContent" !in m.editHistory[|m.editHistory| - 1].fields) ==>
      c == HistoryContentAsWritten(m).value
  {
    if |m.editHistory| > 0 then
      var e := m.editHistory[|m.editHistory| - 1].fields;
      if "editedContent" in e then e["editedContent"]
      else if "newContent" in e then e["newContent"]
      else m.content
    else m.content
  }

  /** The leading system messages: the prompt and the two directives, the
      compiled context when there is one, and the memory block when there
      are memories. */
  function SystemMessages(p: Prompts, compiled: Option<string>, hasMemories: bool): (r: seq<ChatMessage>)
    ensures |r| == HeadCount(compiled, hasMemories) && r[0] == ChatMessage(System, p.system)
    ensures forall i :: 0 <= i < |r| ==> r[i].role == System
  {
    [ChatMessage(System, p.system), ChatMessage(System, p.intentDirective), ChatMessage(System, p.specDirective)]
    + (if compiled.Some? && compiled.value != "" then [ChatMessage(System, compiled.value)] else [])
    + (if hasMemories then [ChatMessage(System, p.memoryBlock)] else [])
  }

  /** How many system messages lead the prompt. */
  function HeadCount(compiled: Option<string>, hasMemories: bool): nat {
    3 + (if compiled.Some? && compiled.value != "" then 1 else 0) + (if hasMemories then 1 else 0)
  }

  /** The history already ends with the current input. */
  predicate EndsWithInput(recent: seq<Message>, input: string) {
    |recent| > 0 && recent[|recent| - 1].role == User && recent[|recent| - 1].content == input
  }

  /** The history window: the last five messages when the input is already
      the last of them, else the last four, leaving room for the input. */
  function Window(recent: seq<Message>, input: string): seq<Message> {
    if EndsWithInput(recent, input) then Last(recent, 5) else Last(recent, 4)
  }

  function HistoryWith(window: seq<Message>, asWritten: bool): (r: Option<seq<ChatMessage>>)
    ensures !asWritten ==> r.Some? && |r.value| == |window|
    ensures !asWritten ==> forall i :: 0 <= i < |window| ==> r.value[i] == ChatMessage(window[i].role, HistoryContent(window[i]))
  {
    if |window| == 0 then Some([])
    else match HistoryWith(window[..|window| - 1], asWritten)
      case None => None
      case Some(h) =>
        var m := window[|window| - 1];
        var c := if asWritten then HistoryContentAsWritten(m) else Some(HistoryContent(m));
        if c.None? then None else Some(h + [ChatMessage(m.role, c.value)])
  }

  /** `messages.reduce((acc, m) => acc + m.content.length, 0)`, each
      `length` in UTF-16 code units. */
  function SumLengths(ms: seq<ChatMessage>): nat {
    if |ms| == 0 then 0 else SumLengths(ms[..|ms| - 1]) + Length(ms[|ms| - 1].content)
  }

  /** The context size of a message list is the sum of the sizes of its
      parts, and one message adds exactly its JavaScript `length`. */
  lemma {:induction false} SumLengthsAppend(a: seq<ChatMessage>, b: seq<ChatMessage>)
    ensures SumLengths(a + b) == SumLengths(a) + SumLengths(b)
    ensures SumLengths([ChatMessage(User, "\U{1F600}")]) == 2
    decreases |b|
  {
    if |b| == 0 {
      assert a + b == a;
    } else {
      var b' := b[..|b| - 1];
      assert (a + b)[..|a + b| - 1] == a + b';
      SumLengthsAppend(a, b');
    }
    assert [ChatMessage(User, "\U{1F600}")][..0] == [];
    LengthAstral("\U{1F600}");
  }

  /** The current input, unless the history already ends with it. */
  function InputTail(recent: seq<Message>, input: string): seq<ChatMessage> {
    if EndsWithInput(recent, input) then [] else [ChatMessage(User, input)]
  }

  /** The prompt and its metadata from its three parts. */
  function Assemble(req: Request, head: seq<ChatMessage>, history: seq<ChatMessage>, tail: seq<ChatMessage>,
                    compiled: Option<string>): Composed
  {
    var ms := head + history + tail;
    Composed(ms, req.id, SumLengths(ms), compiled.Some? && compiled.value != "")
  }

  function ComposeWith(req: Request, p: Prompts, compiled: Option<string>, memories: seq<Memory>,
                       recent: seq<Message>, asWritten: bool): Result<Composed>
  {
    match HistoryWith(Window(recent, req.userInput), asWritten)
    case None => Err("Cannot read properties of undefined (reading 'length')")
    case Some(h) =>
      Ok(Assemble(req, SystemMessages(p, compiled, |memories| > 0), h, InputTail(recent, req.userInput), compiled))
  }

  /** `composeContext` as written: an edited history message whose newest
      edit has no `newContent` field puts `undefined` into the prompt, and
      measuring the context then throws. */
  function ComposeContextAsWritten(req: Request, p: Prompts, compiled: Option<string>, memories: seq<Memory>,
                                   recent: seq<Message>): Result<Composed>
  {
    ComposeWith(req, p, compiled, memories, recent, true)
  }

  /** `composeContext`, reading the newest edit under the name the client
      writes it. */
  function ComposeContext(req: Request, p: Prompts, compiled: Option<string>, memories: seq<Memory>,
                          recent: seq<Message>): (r: Composed)
    ensures r.messages == SystemMessages(p, compiled, |memories| > 0)
      + HistoryWith(Window(recent, req.userInput), false).value + InputTail(recent, req.userInput)
    ensures r.contextSize == SumLengths(r.messages)
    ensures r.intentId == req.id
    ensures r.hasCompiledContext <==> compiled.Some? && compiled.value != ""
  {
    Assemble(req, SystemMessages(p, compiled, |memories| > 0),
             HistoryWith(Window(recent, req.userInput), false).value, InputTail(recent, req.userInput), compiled)
  }

  /** The prompt opens with the system prompt, and all system messages
      come before the history: three, plus one for a compiled context and
      one for memories. */
  lemma ComposeSystemFirst(req: Request, p: Prompts, compiled: Option<string>, memories: seq<Memory>,
                           recent: seq<Message>)
    ensures var ms := ComposeContext(req, p, compiled, memories, recent).messages;
      var k := HeadCount(compiled, |memories| > 0);
      && k <= |ms| && ms[0] == ChatMessage(System, p.system)
      && forall i :: 0 <= i < k ==> ms[i].role == System
  {
    var head := SystemMessages(p, compiled, |memories| > 0);
    var ms := ComposeContext(req, p, compiled, memories, recent).messages;
    assert ms[..|head|] == head;
  }

  /** After the system messages come the window's messages, in order and
      with their edited content, and then the input when the history does
      not already end with it. */
  lemma ComposeHistory(req: Request, p: Prompts, compiled: Option<string>, memories: seq<Memory>,
                       recent: seq<Message>)
    ensures var ms := ComposeContext(req, p, compiled, memories, recent).messages;
      var k := HeadCount(compiled, |memories| > 0);
      var w := Window(recent, req.userInput);
      && |ms| == k + |w| + (if EndsWithInput(recent, req.userInput) then 0 else 1)
      && (forall i :: 0 <= i < |w| ==> ms[k + i] == ChatMessage(w[i].role, HistoryContent(w[i])))
      && (!EndsWithInput(recent, req.userInput) ==> ms[|ms| - 1] == ChatMessage(User, req.userInput))
  {
    var head := SystemMessages(p, compiled, |memories| > 0);
    var w := Window(recent, req.userInput);
    var h := HistoryWith(w, false).value;
    var tail := InputTail(recent, req.userInput);
    var ms := ComposeContext(req, p, compiled, memories, recent).messages;
    assert ms == head + h + tail;
    ConcatMiddle(head, h, tail);
  }

  /** Indexing into the middle and the end of a three-part concatenation. */
  lemma ConcatMiddle<T>(a: seq<T>, b: seq<T>, c: seq<T>)
    ensures |a + b + c| == |a| + |b| + |c|
    ensures forall i :: 0 <= i < |b| ==> (a + b + c)[|a| + i] == b[i]
    ensures |c| > 0 ==> (a + b + c)[|a + b + c| - 1] == c[|c| - 1]
  {
  }

  /** The history window keeps the newest messages: at most five when the
      history already ends with the input, else at most four. */
  lemma WindowKeepsNewest(recent: seq<Message>, input: string)
    ensures var w := Window(recent, input);
      && |w| <= (if EndsWithInput(recent, input) then 5 else 4)
      && w == recent[|recent| - |w|..]
      && (|recent| > 0 ==> |w| > 0 && w[|w| - 1] == recent[|recent| - 1])
  {
  }

  /** The prompt always ends with the current input, exactly once at the
      tail: appended when the history does not end with it, else taken
      from the history (whose last message is then unedited). */
  lemma ComposeEndsWithInput(req: Request, p: Prompts, compiled: Option<string>, memories: seq<Memory>,
                             recent: seq<Message>)
    requires EndsWithInput(recent, req.userInput) ==> |recent[|recent| - 1].editHistory| == 0
    ensures var ms := ComposeContext(req, p, compiled, memories, recent).messages;
      ms[|ms| - 1] == ChatMessage(User, req.userInput)
  {
    ComposeHistory(req, p, compiled, memories, recent);
    if EndsWithInput(recent, req.userInput) {
      WindowKeepsNewest(recent, req.userInput);
    }
  }

  /** The edited-history defect: a history message edited on the canvas
      carries `editedContent`, so the code as written fails, while the
      intended reading puts the edited text into the prompt. */
  lemma EditedHistoryAsWrittenFails()
    ensures var req := Request("i1", "next", Str("question"), "", Arr([]), None, "", "");
      var p := Prompts("s", "d", "c", "m");
      var edited := Message("n1", User, "fixed", 1, "", [Edit(map["originalContent" := "typo", "editedContent" := "fixed"])]);
      && ComposeContextAsWritten(req, p, None, [], [edited]).Err?
      && ComposeContext(req, p, None, [], [edited]).messages[3] == ChatMessage(User, "fixed")
  {
    var edited := Message("n1", User, "fixed", 1, "", [Edit(map["originalContent" := "typo", "editedContent" := "fixed"])]);
    assert "newContent" !in edited.editHistory[0].fields;
    assert HistoryContentAsWritten(edited) == None;
    assert Window([edited], "next") == [edited];
    assert HistoryContent(edited) == "fixed";
  }
}
