/** The client store (client/src/store/index.js): the integer geometry of
    `LayoutUtils` and the reducer-style actions on nodes, tasks, events
    and the concurrency bookkeeping. Coordinates are integers; the
    positioning heuristics of `addNode` are not modelled, so a new node's
    position is given. */
module Store {
  import opened Wrappers
  import opened Js
  import opened Protocol

  // ---------------------------------------------------------------------
  // Nodes
  // ---------------------------------------------------------------------

  /** The node types the client creates. */
  datatype NodeKind = ChatNode | TaskNode | IntentNode | EventNode

  /** A canvas node. `parentNodeId` and `messageId` are "" when absent;
      `expanded` is None when the field is missing. */
  datatype Node = Node(
    id: string,
    kind: NodeKind,
    title: string,
    content: string,
    parentNodeId: string,
    x: int,
    y: int,
    expanded: Option<bool>,
    messageId: string)

  const NodeWidth := 600
  const MinNodeHeight := 120
  const MaxNodeHeight := 400
  const GapUserToAi := 24
  const GapAiToUser := 128
  const VerticalGap := 48
  const IntentExpandedHeight := 200
  const CharsPerLine := 45
  const MaxAttempts := 100

  predicate IsUser(n: Node) {
    n.kind == ChatNode && n.title == "User"
  }

  /** An AI reply or a task. */
  predicate IsReply(n: Node) {
    (n.kind == ChatNode && n.title != "User") || n.kind == TaskNode
  }

  /** `getGapBetweenNodes(parent, child)` */
  function Gap(parent: Node, child: Node): (r: int)
    ensures parent.kind == IntentNode || child.kind == IntentNode ==> r == VerticalGap
    ensures parent.kind != IntentNode && child.kind != IntentNode ==>
      r == (if IsUser(parent) && IsReply(child) then GapUserToAi
            else if IsReply(parent) && IsUser(child) then GapAiToUser
            else VerticalGap)
  {
    if parent.kind == IntentNode || child.kind == IntentNode then VerticalGap
    else if IsUser(parent) && IsReply(child) then GapUserToAi
    else if IsReply(parent) && IsUser(child) then GapAiToUser
    else VerticalGap
  }

  /** The gap is one of the three spacings, and the two special ones only
      separate a user message from a reply. */
  lemma GapValues(parent: Node, child: Node)
    ensures Gap(parent, child) in {GapUserToAi, GapAiToUser, VerticalGap}
    ensures Gap(parent, child) != VerticalGap ==>
      (IsUser(parent) && IsReply(child)) || (IsReply(parent) && IsUser(child))
  {
  }

  /** `isNodeVisible`: only an intent explicitly collapsed is hidden. */
  predicate IsVisible(n: Node) {
    !(n.kind == IntentNode && n.expanded == Some(false))
  }

  /** The width a character counts for: CJK ideographs in U+4E00..U+9FA5
      count two, and so does a character outside the Basic Multilingual
      Plane, which `split('')` cuts into two UTF-16 code units. */
  function CharWidth(c: char): nat {
    if ('一' <= c <= '龥') || c as int > 0xFFFF then 2 else 1
  }

  function LineWidth(line: string): nat
    decreases |line|
  {
    if |line| == 0 then 0 else LineWidth(line[..|line| - 1]) + CharWidth(line[|line| - 1])
  }

  /** `Math.max(1, Math.ceil(width / 45))` */
  function LineRows(line: string): (r: nat)
    ensures r >= 1
  {
    var w := LineWidth(line);
    if w == 0 then 1 else (w + CharsPerLine - 1) / CharsPerLine
  }

  function Rows(lines: seq<string>): (r: nat)
    ensures r >= |lines|
    decreases |lines|
  {
    if |lines| == 0 then 0 else Rows(lines[..|lines| - 1]) + LineRows(lines[|lines| - 1])
  }

  /** Non-overlapping occurrences of "```", scanning left to right. */
  function Fences(s: string): nat
    decreases |s|
  {
    if |s| < 3 then 0
    else if s[..3] == "```" then 1 + Fences(s[3..])
    else Fences(s[1..])
  }

  /** `estimateNodeHeight`: a collapsed intent is not drawn, an open one
      has a fixed height, and any other node gets 40 + 32 + 24 per row plus
      60 per pair of fences (30 per fence, half pairs included), clamped to
      [120, 400]. */
  function EstimateNodeHeight(n: Node): (r: int)
    ensures n.kind == IntentNode && n.expanded == Some(false) ==> r == 0
    ensures n.kind == IntentNode && n.expanded != Some(false) ==> r == IntentExpandedHeight
    ensures n.kind != IntentNode ==> MinNodeHeight <= r <= MaxNodeHeight
    ensures n.kind != IntentNode && n.content == "" ==> r == MinNodeHeight
  {
    if n.kind == IntentNode && n.expanded == Some(false) then 0
    else if n.kind == IntentNode then IntentExpandedHeight
    else if n.content == "" then MinNodeHeight
    else
      var estimated := 40 + 32 + Rows(Split(n.content, '\n')) * 24 + Fences(n.content) * 30;
      Max(MinNodeHeight, Min(estimated, MaxNodeHeight))
  }

  function Max(a: int, b: int): int {
    if a >= b then a else b
  }

  function Min(a: int, b: int): int {
    if a <= b then a else b
  }

  /** Text of fourteen lines or more reaches the cap: 72 + 14 * 24 > 400. */
  lemma TallContentCapped(n: Node)
    requires n.kind != IntentNode && |Split(n.content, '\n')| >= 14
    ensures EstimateNodeHeight(n) == MaxNodeHeight
  {
    assert n.content != "";
  }

  /** One short line of narrow characters and no fences stays at the
      minimum: 72 + 24 < 120. */
  lemma ShortLineAtMinimum(n: Node)
    requires n.kind != IntentNode && n.content != "" && |n.content| <= CharsPerLine
    requires forall i :: 0 <= i < |n.content| ==> CharWidth(n.content[i]) == 1 && n.content[i] != '\n' && n.content[i] != '`'
    ensures EstimateNodeHeight(n) == MinNodeHeight
  {
    SplitNoSep(n.content, '\n');
    NarrowWidth(n.content);
    NoFences(n.content);
    assert Rows([n.content]) == Rows([]) + LineRows(n.content);
  }

  lemma {:induction false} NarrowWidth(s: string)
    requires forall i :: 0 <= i < |s| ==> CharWidth(s[i]) == 1
    ensures LineWidth(s) == |s|
    decreases |s|
  {
    if |s| > 0 {
      NarrowWidth(s[..|s| - 1]);
    }
  }

  lemma {:induction false} NoFences(s: string)
    requires forall i :: 0 <= i < |s| ==> s[i] != '`'
    ensures Fences(s) == 0
    decreases |s|
  {
    if |s| >= 3 {
      assert s[..3][0] != '`';
      NoFences(s[1..]);
    }
  }

  // ---------------------------------------------------------------------
  // Collision detection
  // ---------------------------------------------------------------------

  datatype Rect = Rect(x: int, y: int, width: int, height: int)

  /** `isRectOverlapping(r1, r2, margin)`: two rectangles overlap when
      they come closer than `margin` on both axes; a rectangle of height 0
      (a collapsed intent) overlaps nothing. */
  predicate Overlapping(r1: Rect, r2: Rect, margin: int) {
    && r1.height != 0 && r2.height != 0
    && !(r1.x + r1.width + margin <= r2.x || r2.x + r2.width + margin <= r1.x)
    && !(r1.y + r1.height + margin <= r2.y || r2.y + r2.height + margin <= r1.y)
  }

  /** Overlap does not depend on the order of the rectangles, nor on where
      both are moved together. */
  lemma OverlapSymmetric(r1: Rect, r2: Rect, margin: int)
    ensures Overlapping(r1, r2, margin) <==> Overlapping(r2, r1, margin)
  {
  }

  lemma OverlapTranslation(r1: Rect, r2: Rect, margin: int, dx: int, dy: int)
    ensures Overlapping(r1, r2, margin)
        <==> Overlapping(r1.(x := r1.x + dx, y := r1.y + dy), r2.(x := r2.x + dx, y := r2.y + dy), margin)
  {
  }

  /** Two node-wide rectangles in one column at least their height plus
      the margin apart do not overlap. */
  lemma StackedApart(r1: Rect, r2: Rect, margin: int)
    requires r1.y + r1.height + margin <= r2.y
    ensures !Overlapping(r1, r2, margin) && !Overlapping(r2, r1, margin)
  {
  }

  /** `getNodeRect` */
  function NodeRect(n: Node): Rect {
    Rect(n.x, n.y, NodeWidth, EstimateNodeHeight(n))
  }

  /** Node `n` is in the way of `r`: not excluded, visible, and closer than
      the default margin. */
  predicate Blocks(r: Rect, n: Node, exclude: set<string>) {
    n.id !in exclude && IsVisible(n) && Overlapping(r, NodeRect(n), VerticalGap)
  }

  /** `hasCollision(x, y, width, height, nodes, exclude)` */
  function HasCollision(r: Rect, nodes: seq<Node>, exclude: set<string>): (b: bool)
    ensures b <==> exists i :: 0 <= i < |nodes| && Blocks(r, nodes[i], exclude)
    decreases |nodes|
  {
    if |nodes| == 0 then false
    else if Blocks(r, nodes[0], exclude) then true
    else
      var rest := HasCollision(r, nodes[1..], exclude);
      assert forall i :: 1 <= i < |nodes| ==> nodes[i] == nodes[1..][i - 1];
      rest
  }

  /** Excluded ids and collapsed intents never cause a collision. */
  lemma CollisionIgnores(r: Rect, nodes: seq<Node>, exclude: set<string>)
    requires forall i :: 0 <= i < |nodes| ==> nodes[i].id in exclude || !IsVisible(nodes[i])
    ensures !HasCollision(r, nodes, exclude)
  {
  }

  /** `findAvailablePosition`: from `startY` downwards in steps of the
      default gap, the first position without a collision, giving up after
      100 attempts at the position after the last one tried. */
  method FindAvailablePosition(startX: int, startY: int, width: int, height: int, nodes: seq<Node>, exclude: set<string>)
    returns (x: int, y: int, attempts: nat)
    ensures x == startX && y == startY + attempts * VerticalGap && attempts <= MaxAttempts
    ensures attempts < MaxAttempts ==> !HasCollision(Rect(x, y, width, height), nodes, exclude)
    ensures forall k :: 0 <= k < attempts ==> HasCollision(Rect(startX, startY + k * VerticalGap, width, height), nodes, exclude)
  {
    y := startY;
    attempts := 0;
    while attempts < MaxAttempts
      invariant attempts <= MaxAttempts && y == startY + attempts * VerticalGap
      invariant forall k :: 0 <= k < attempts ==> HasCollision(Rect(startX, startY + k * VerticalGap, width, height), nodes, exclude)
    {
      if !HasCollision(Rect(startX, y, width, height), nodes, exclude) {
        return startX, y, attempts;
      }
      y := y + VerticalGap;
      attempts := attempts + 1;
    }
    x := startX;
  }

  // ---------------------------------------------------------------------
  // Node actions
  // ---------------------------------------------------------------------

  function Ids(nodes: seq<Node>): set<string> {
    set n | n in nodes :: n.id
  }

  /** The ids of the nodes whose parent is in `s`. */
  function Children(nodes: seq<Node>, s: set<string>): (r: set<string>)
    ensures r <= Ids(nodes)
  {
    set n | n in nodes && n.parentNodeId in s :: n.id
  }

  /** A set that holds the children of each of its members. */
  predicate ChildClosed(nodes: seq<Node>, s: set<string>) {
    Children(nodes, s) <= s
  }

  /** Growing `s` by new members of `all` shrinks what is left of `all`. */
  lemma ShrinkingGap(all: set<string>, s: set<string>, next: set<string>)
    requires s < next && next - s <= all
    ensures |all - next| < |all - s|
  {
    assert next == s + (next - s);
    var x :| x in next - s;
    assert all - next <= (all - s) - {x};
    SubsetCard(all - next, (all - s) - {x});
  }

  lemma {:induction false} SubsetCard(a: set<string>, b: set<string>)
    requires a <= b
    ensures |a| <= |b|
  {
    assert b == a + (b - a);
  }

  /** Adding children until nothing new appears. */
  function Closure(nodes: seq<Node>, s: set<string>): (r: set<string>)
    ensures s <= r && ChildClosed(nodes, r)
    decreases |Ids(nodes) - s|
  {
    var next := s + Children(nodes, s);
    if next == s then s
    else
      ShrinkingGap(Ids(nodes), s, next);
      Closure(nodes, next)
  }

  /** The closure is the smallest child-closed set containing the start:
      it holds the node, its children, their children, and nothing else. */
  lemma {:induction false} ClosureLeast(nodes: seq<Node>, s: set<string>, bound: set<string>)
    requires s <= bound && ChildClosed(nodes, bound)
    ensures Closure(nodes, s) <= bound
    decreases |Ids(nodes) - s|
  {
    var next := s + Children(nodes, s);
    if next != s {
      assert Children(nodes, s) <= Children(nodes, bound);
      ShrinkingGap(Ids(nodes), s, next);
      ClosureLeast(nodes, next, bound);
    }
  }

  /** The node and all its descendants through `parentNodeId`. */
  function Descendants(nodes: seq<Node>, id: string): set<string> {
    Closure(nodes, {id})
  }

  /** The ids of the parents of the nodes whose id is in `s`: the members
      of `s` among them are the ones with a child in `s`. */
  function Parents(nodes: seq<Node>, s: set<string>): set<string> {
    set n | n in nodes && n.id in s :: n.parentNodeId
  }

  /** What is left of `s` after dropping, again and again, the members
      with no child left in it: the ids from which a walk down through
      children can go on for ever. */
  function Core(nodes: seq<Node>, s: set<string>): (r: set<string>)
    ensures r <= s && r <= Parents(nodes, r)
    decreases |s|
  {
    var next := s * Parents(nodes, s);
    if next == s then s
    else
      ProperSubsetCard(next, s);
      Core(nodes, next)
  }

  lemma ProperSubsetCard(a: set<string>, b: set<string>)
    requires a < b
    ensures |a| < |b|
  {
    assert b == a + (b - a);
    var x :| x in b - a;
    SubsetCard(a, b - {x});
  }

  /** Every set whose members all have a child in it, inside `s`, is
      inside the core of `s`. */
  lemma {:induction false} CoreGreatest(nodes: seq<Node>, s: set<string>, c: set<string>)
    requires c <= s && c <= Parents(nodes, c)
    ensures c <= Core(nodes, s)
    decreases |s|
  {
    var next := s * Parents(nodes, s);
    assert Parents(nodes, c) <= Parents(nodes, s);
    if next != s {
      ProperSubsetCard(next, s);
      CoreGreatest(nodes, next, c);
    }
  }

  /** When a rank grows from every parent to its child inside `s`, no walk
      down from `s` goes on for ever. */
  lemma RankedCoreEmpty(nodes: seq<Node>, s: set<string>, rank: map<string, int>)
    requires s <= rank.Keys
    requires forall n :: n in nodes && n.id in s && n.parentNodeId in s ==> rank[n.parentNodeId] < rank[n.id]
    ensures Core(nodes, s) == {}
  {
    var p := Core(nodes, s);
    if p != {} {
      var x := HighestRanked(p, rank);
      assert false;
    }
  }

  /** A member of highest rank. */
  lemma {:induction false} HighestRanked(p: set<string>, rank: map<string, int>) returns (x: string)
    requires p != {} && p <= rank.Keys
    ensures x in p && forall y :: y in p ==> rank[y] <= rank[x]
    decreases |p|
  {
    var y :| y in p;
    if p == {y} {
      x := y;
    } else {
      var z := HighestRanked(p - {y}, rank);
      x := if rank[y] <= rank[z] then z else y;
    }
  }

  /** `findAllChildren(id)` recurses into every child without remembering
      where it has been, so it never returns (the stack overflows) exactly
      when the walk down from `id` can go on for ever. */
  predicate Diverges(nodes: seq<Node>, id: string) {
    Core(nodes, Descendants(nodes, id)) != {}
  }

  /** A set of descendants of `id` in which each member has a child makes
      the walk diverge; a node that is its own parent is such a set. */
  lemma CycleDiverges(nodes: seq<Node>, id: string, c: set<string>)
    requires c != {} && c <= Descendants(nodes, id) && c <= Parents(nodes, c)
    ensures Diverges(nodes, id)
  {
    CoreGreatest(nodes, Descendants(nodes, id), c);
  }

  /** The nodes whose id is not in `gone`, in order. */
  function Without(nodes: seq<Node>, gone: set<string>): (r: seq<Node>)
    ensures forall n :: n in r <==> n in nodes && n.id !in gone
    ensures |r| <= |nodes|
    decreases |nodes|
  {
    if |nodes| == 0 then []
    else
      var rest := Without(nodes[..|nodes| - 1], gone);
      var last := nodes[|nodes| - 1];
      assert forall n :: n in nodes <==> n in nodes[..|nodes| - 1] || n == last;
      if last.id in gone then rest else rest + [last]
  }

  /** `updateNode(id, { content })`: every node with that id gets the
      content; nothing else changes. */
  function UpdateContent(nodes: seq<Node>, id: string, content: string): (r: seq<Node>)
    ensures |r| == |nodes|
    ensures forall i :: 0 <= i < |nodes| ==> nodes[i].id != id ==> r[i] == nodes[i]
    ensures forall i :: 0 <= i < |nodes| ==> nodes[i].id == id ==> r[i].content == content && r[i].(content := nodes[i].content) == nodes[i]
  {
    seq(|nodes|, i requires 0 <= i < |nodes| => if nodes[i].id == id then nodes[i].(content := content) else nodes[i])
  }

  /** Updating twice with the same content is updating once, and a later
      update wins. */
  lemma UpdateContentLastWins(nodes: seq<Node>, id: string, c1: string, c2: string)
    ensures UpdateContent(UpdateContent(nodes, id, c1), id, c2) == UpdateContent(nodes, id, c2)
  {
  }

  /** `moveNode(id, x, y)` */
  function MoveNode(nodes: seq<Node>, id: string, x: int, y: int): (r: seq<Node>)
    ensures |r| == |nodes|
    ensures forall i :: 0 <= i < |nodes| ==> nodes[i].id != id ==> r[i] == nodes[i]
    ensures forall i :: 0 <= i < |nodes| ==> nodes[i].id == id ==> r[i].x == x && r[i].y == y && r[i].(x := nodes[i].x, y := nodes[i].y) == nodes[i]
  {
    seq(|nodes|, i requires 0 <= i < |nodes| => if nodes[i].id == id then nodes[i].(x := x, y := y) else nodes[i])
  }

  /** Moving keeps the set of ids, and the height estimate of every node. */
  lemma MoveKeepsShape(nodes: seq<Node>, id: string, x: int, y: int)
    ensures Ids(MoveNode(nodes, id, x, y)) == Ids(nodes)
    ensures forall i :: 0 <= i < |nodes| ==> EstimateNodeHeight(MoveNode(nodes, id, x, y)[i]) == EstimateNodeHeight(nodes[i])
  {
    var r := MoveNode(nodes, id, x, y);
    forall v | v in Ids(r) ensures v in Ids(nodes) {
      var i :| 0 <= i < |r| && r[i].id == v;
      assert nodes[i].id == v;
    }
    forall v | v in Ids(nodes) ensures v in Ids(r) {
      var i :| 0 <= i < |nodes| && nodes[i].id == v;
      assert r[i].id == v;
    }
  }

  // ---------------------------------------------------------------------
  // Tasks and events
  // ---------------------------------------------------------------------

  /** A task card: its id and its other fields. */
  datatype Task = Task(id: string, fields: map<string, Value>)

  function TaskIds(tasks: seq<Task>): seq<string> {
    seq(|tasks|, i requires 0 <= i < |tasks| => tasks[i].id)
  }

  /** Every field of `updates` has its value in `fields`. */
  predicate Overrides(updates: map<string, Value>, fields: map<string, Value>) {
    forall k :: k in updates ==> k in fields && fields[k] == updates[k]
  }

  /** `{ ...t, ...updates }` on the task with id `id`. */
  function Merge(tasks: seq<Task>, id: string, updates: map<string, Value>): (r: seq<Task>)
    ensures |r| == |tasks| && TaskIds(r) == TaskIds(tasks)
    ensures forall i :: 0 <= i < |tasks| ==> r[i].fields == if tasks[i].id == id then tasks[i].fields + updates else tasks[i].fields
  {
    seq(|tasks|, i requires 0 <= i < |tasks| => if tasks[i].id == id then tasks[i].(fields := tasks[i].fields + updates) else tasks[i])
  }

  /** `addTask(task)`: a new id is appended, a known one is merged into. */
  function AddTask(tasks: seq<Task>, t: Task): (r: seq<Task>)
    ensures t.id in TaskIds(tasks) ==> TaskIds(r) == TaskIds(tasks)
    ensures t.id !in TaskIds(tasks) ==> TaskIds(r) == TaskIds(tasks) + [t.id]
    ensures forall i :: 0 <= i < |r| && r[i].id == t.id ==> Overrides(t.fields, r[i].fields)
  {
    if t.id in TaskIds(tasks) then Merge(tasks, t.id, t.fields)
    else
      assert TaskIds(tasks + [t]) == TaskIds(tasks) + [t.id];
      assert forall i :: 0 <= i < |tasks| ==> tasks[i].id == TaskIds(tasks)[i];
      tasks + [t]
  }

  /** `addTask` never creates a second card with the same id. */
  lemma AddTaskDistinct(tasks: seq<Task>, t: Task)
    requires Distinct(TaskIds(tasks))
    ensures Distinct(TaskIds(AddTask(tasks, t)))
  {
    var ids := TaskIds(tasks);
    if t.id !in ids {
      var r := ids + [t.id];
      forall i, j | 0 <= i < j < |r|
        ensures r[i] != r[j]
      {
        if j == |ids| {
          assert r[i] == ids[i];
        }
      }
    }
  }

  /** `updateTask(id, updates)` */
  function UpdateTask(tasks: seq<Task>, id: string, updates: map<string, Value>): (r: seq<Task>)
    ensures TaskIds(r) == TaskIds(tasks)
    ensures forall i :: 0 <= i < |r| && r[i].id == id ==> Overrides(updates, r[i].fields)
  {
    Merge(tasks, id, updates)
  }

  /** An entry of the event feed. */
  datatype Event = Event(id: string, source: string, eventType: string, data: Value)

  const MaxEvents := 50

  /** `addEvent(event)`: newest first, the 50 newest kept. */
  function AddEvent(events: seq<Event>, e: Event): (r: seq<Event>)
    ensures |r| == Min(|events| + 1, MaxEvents)
    ensures r[0] == e && r[1..] == events[..|r| - 1]
  {
    var all := [e] + events;
    if |all| <= MaxEvents then all else all[..MaxEvents]
  }

  // ---------------------------------------------------------------------
  // The store
  // ---------------------------------------------------------------------

  datatype State = State(
    nodes: seq<Node>,
    tasks: seq<Task>,
    events: seq<Event>,
    streaming: set<string>,
    statuses: map<string, Stage>,
    active: set<string>,
    totalStreaming: int,
    totalProcessing: int,
    selected: Option<string>,
    activeNode: Option<string>)

  /** The two counters shown in the status bar are the sizes of their sets. */
  predicate StatsAgree(st: State) {
    st.totalStreaming == |st.streaming| && st.totalProcessing == |st.active|
  }

  function AddStreamingNode(st: State, id: string): (r: State)
    ensures r.streaming == st.streaming + {id} && r.totalStreaming == |r.streaming|
    ensures r.totalProcessing == st.totalProcessing && r.active == st.active
  {
    st.(streaming := st.streaming + {id}, totalStreaming := |st.streaming + {id}|)
  }

  function RemoveStreamingNode(st: State, id: string): (r: State)
    ensures r.streaming == st.streaming - {id} && r.totalStreaming == |r.streaming|
    ensures r.totalProcessing == st.totalProcessing && r.active == st.active
  {
    st.(streaming := st.streaming - {id}, totalStreaming := |st.streaming - {id}|)
  }

  /** `endStreaming`: every stream is considered finished. */
  function EndStreaming(st: State): (r: State)
    ensures r.streaming == {} && r.totalStreaming == 0
  {
    st.(streaming := {}, totalStreaming := 0)
  }

  function AddActiveProcessing(st: State, id: string): (r: State)
    ensures r.active == st.active + {id} && r.totalProcessing == |r.active|
    ensures r.totalStreaming == st.totalStreaming && r.streaming == st.streaming
  {
    st.(active := st.active + {id}, totalProcessing := |st.active + {id}|)
  }

  function RemoveActiveProcessing(st: State, id: string): (r: State)
    ensures r.active == st.active - {id} && r.totalProcessing == |r.active|
    ensures r.totalStreaming == st.totalStreaming && r.streaming == st.streaming
  {
    st.(active := st.active - {id}, totalProcessing := |st.active - {id}|)
  }

  /** The counters agree with the sets after each of the five actions,
      whatever they were before; adding then removing an id not yet there
      restores the set. */
  lemma StatsFollowSets(st: State, id: string)
    requires StatsAgree(st)
    ensures StatsAgree(AddStreamingNode(st, id)) && StatsAgree(RemoveStreamingNode(st, id))
    ensures StatsAgree(AddActiveProcessing(st, id)) && StatsAgree(RemoveActiveProcessing(st, id))
    ensures StatsAgree(EndStreaming(st))
    ensures id !in st.active ==> RemoveActiveProcessing(AddActiveProcessing(st, id), id) == st
  {
    if id !in st.active {
      assert st.active + {id} - {id} == st.active;
    }
  }

  /** `removeNode(id)`: an unknown id changes nothing; a walk that
      diverges throws (None) before anything is set; otherwise the node
      and all its descendants go, and the selected and active ids are
      cleared if they went with them. The deleted ids are returned for the
      call to the server. */
  function RemoveNode(st: State, id: string): (r: Option<(State, set<string>)>)
    ensures id !in Ids(st.nodes) ==> r == Some((st, {}))
    ensures id in Ids(st.nodes) ==> (r.None? <==> Diverges(st.nodes, id))
    ensures r.Some? && id in Ids(st.nodes) ==> r.value.1 == Descendants(st.nodes, id)
    ensures r.Some? ==> forall n :: n in r.value.0.nodes <==> n in st.nodes && n.id !in r.value.1
    ensures r.Some? ==> r.value.0.selected == if st.selected.Some? && st.selected.value in r.value.1 then None else st.selected
    ensures r.Some? ==> r.value.0.activeNode == if st.activeNode.Some? && st.activeNode.value in r.value.1 then None else st.activeNode
    ensures r.Some? ==> r.value.0.tasks == st.tasks && r.value.0.streaming == st.streaming && r.value.0.active == st.active
  {
    if id !in Ids(st.nodes) then Some((st, {}))
    else if Diverges(st.nodes, id) then None
    else
      var gone := Descendants(st.nodes, id);
      var selected := if st.selected.Some? && st.selected.value in gone then None else st.selected;
      var activeNode := if st.activeNode.Some? && st.activeNode.value in gone then None else st.activeNode;
      Some((st.(nodes := Without(st.nodes, gone), selected := selected, activeNode := activeNode), gone))
  }

  /** A node that is its own parent makes its removal throw. */
  lemma SelfParentThrows(st: State, n: Node)
    requires n in st.nodes && n.parentNodeId == n.id
    ensures RemoveNode(st, n.id).None?
  {
    var d := Descendants(st.nodes, n.id);
    assert n.id in Parents(st.nodes, {n.id});
    CycleDiverges(st.nodes, n.id, {n.id});
  }

  /** Removal succeeds when ranks grow from parent to child below the
      node, as they do in a tree (rank = depth). */
  lemma RankedRemoveSucceeds(st: State, id: string, rank: map<string, int>)
    requires Descendants(st.nodes, id) <= rank.Keys
    requires forall n :: n in st.nodes && n.parentNodeId in rank && n.id in rank ==> rank[n.parentNodeId] < rank[n.id]
    ensures RemoveNode(st, id).Some?
  {
    RankedCoreEmpty(st.nodes, Descendants(st.nodes, id), rank);
  }

  /** What a successful `removeNode` deletes is the node, every child of a
      deleted node, and nothing outside the node's subtree: every remaining
      node whose parent is gone is gone too, and any child-closed set
      containing the node contains all of it. */
  lemma RemoveNodeExactly(st: State, id: string, subtree: set<string>)
    requires id in Ids(st.nodes) && !Diverges(st.nodes, id)
    requires id in subtree && ChildClosed(st.nodes, subtree)
    ensures RemoveNode(st, id).Some?
    ensures var gone := RemoveNode(st, id).value.1;
      && id in gone
      && gone <= subtree
      && (forall n :: n in st.nodes && n.parentNodeId in gone ==> n.id in gone)
  {
    ClosureLeast(st.nodes, {id}, subtree);
    var gone := Descendants(st.nodes, id);
    forall n | n in st.nodes && n.parentNodeId in gone
      ensures n.id in gone
    {
      assert n.id in Children(st.nodes, gone);
    }
  }

  /** A node outside the subtree of `id` survives its successful removal:
      nodes that are not descendants, such as the removed node's parent in
      a tree, are kept. */
  lemma RemoveNodeKeepsOthers(st: State, id: string, n: Node, subtree: set<string>)
    requires n in st.nodes && id in subtree && ChildClosed(st.nodes, subtree) && n.id !in subtree
    requires RemoveNode(st, id).Some?
    ensures n in RemoveNode(st, id).value.0.nodes
  {
    if id in Ids(st.nodes) {
      ClosureLeast(st.nodes, {id}, subtree);
    }
  }

  /** `addNode(node)` at the position the layout chose. The stored node
      defaults `expanded` to false for an intent and true otherwise. */
  function AddNode(nodes: seq<Node>, n: Node, x: int, y: int): (r: seq<Node>)
    ensures |r| == |nodes| + 1 && r[..|nodes|] == nodes
    ensures r[|nodes|].id == n.id && r[|nodes|].x == x && r[|nodes|].y == y
    ensures n.expanded.None? ==> r[|nodes|].expanded == Some(n.kind != IntentNode)
  {
    var expanded := if n.expanded.Some? then n.expanded else Some(n.kind != IntentNode);
    nodes + [n.(x := x, y := y, expanded := expanded)]
  }
}
