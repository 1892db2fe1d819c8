/** The document a run executes: squares, arrows, doors and goals
    (outreach/schemas.py), and the questions the node registry answers
    (outreach/nodes). */
module Board {
  import opened Wrappers
  import opened Window

  // ---- The document ----

  datatype Kind = Wait | Send | Call | Action | Condition | Split

  /** A square. `lasts` is a wait's own duration in microseconds; `topics` are
      the letters a listening wait hears. */
  datatype Node = Node(
    id: string, kind: Kind, lasts: Option<int>, topics: seq<string>,
    window: Option<WaitWindow>, stage: Option<string>)

  datatype Edge = Edge(src: string, dst: string, on: Option<string>)

  datatype Door = Door(topic: string, start: string, debounce: int, restartOnRepeat: bool)

  datatype GoalKey = GoalKey(event: string, run: string)

  datatype Goal = Goal(topics: seq<string>, key: Option<GoalKey>, conditions: nat, exitReason: string)

  datatype Mode = Pin | Migrate

  datatype Definition = Definition(
    doors: seq<Door>, nodes: seq<Node>, edges: seq<Edge>, goals: seq<Goal>, maxAge: int, onPublish: Mode)

  // ---- The registry ----

  const TIMEOUT := "timeout"
  const ELSE := "else"

  /** Does landing here mean waiting? */
  predicate IsWait(node: Node) {
    node.kind == Wait
  }

  /** Does a letter wake this square? */
  predicate Listens(node: Node) {
    IsWait(node) && node.topics != []
  }

  /** Do this square's arrows carry labels? */
  predicate Branches(node: Node) {
    node.kind == Condition || node.kind == Split || Listens(node)
  }

  function Alarm(node: Node, now: int, runEndsAt: int): int {
    AlarmAt(node.lasts, node.topics != [], node.window, now, runEndsAt)
  }

  // ---- Looking squares up ----

  /** `{node.id: node for node in nodes}[id]`: the last square of that name. */
  function NodeNamed(nodes: seq<Node>, id: string): (found: Option<Node>)
    ensures found.Some? ==> found.value in nodes && found.value.id == id
    ensures found.None? ==> forall node | node in nodes :: node.id != id
  {
    if nodes == [] then None
    else if nodes[|nodes| - 1].id == id then Some(nodes[|nodes| - 1])
    else NodeNamed(nodes[..|nodes| - 1], id)
  }

  /** `next(n for n in nodes if n.id == id)`: the first square of that name. */
  function FirstNamed(nodes: seq<Node>, id: string): (found: Option<Node>)
    ensures found.Some? ==> found.value in nodes && found.value.id == id
    ensures found.None? ==> forall node | node in nodes :: node.id != id
  {
    if nodes == [] then None
    else if nodes[0].id == id then Some(nodes[0])
    else FirstNamed(nodes[1..], id)
  }

  predicate DistinctIds(nodes: seq<Node>) {
    forall i, j | 0 <= i < j < |nodes| :: nodes[i].id != nodes[j].id
  }

  /** With distinct ids both readings, and membership, name the same square. */
  lemma DistinctIdsNameOneNode(nodes: seq<Node>, node: Node)
    requires DistinctIds(nodes) && node in nodes
    ensures NodeNamed(nodes, node.id) == FirstNamed(nodes, node.id) == Some(node)
  {
    assert NodeNamed(nodes, node.id).Some? && FirstNamed(nodes, node.id).Some?;
  }

  // ---- Arrows ----

  datatype Arrow = Arrow(dst: string, on: Option<string>)

  /** The arrows out of `src`, in document order. */
  function ArrowsFrom(edges: seq<Edge>, src: string): seq<Arrow> {
    if edges == [] then []
    else
      var last := edges[|edges| - 1];
      ArrowsFrom(edges[..|edges| - 1], src) + (if last.src == src then [Arrow(last.dst, last.on)] else [])
  }

  lemma {:induction false} ArrowsAreEdges(edges: seq<Edge>, src: string, arrow: Arrow)
    ensures arrow in ArrowsFrom(edges, src) <==> Edge(src, arrow.dst, arrow.on) in edges
  {
    if edges != [] {
      ArrowsAreEdges(edges[..|edges| - 1], src, arrow);
      assert edges == edges[..|edges| - 1] + [edges[|edges| - 1]];
    }
  }

  lemma ArrowsFromLonger(edges: seq<Edge>, edge: Edge, src: string)
    ensures ArrowsFrom(edges + [edge], src)
            == ArrowsFrom(edges, src) + (if edge.src == src then [Arrow(edge.dst, edge.on)] else [])
  {
    assert (edges + [edge])[..|edges|] == edges;
  }

  /** A square with no arrows has no entry in the table. */
  ghost predicate IsTableOf(table: map<string, seq<Arrow>>, edges: seq<Edge>) {
    forall src :: ArrowsFrom(edges, src) == (if src in table then table[src] else [])
                  && (src in table ==> table[src] != [])
  }

  lemma TableGrows(table: map<string, seq<Arrow>>, edges: seq<Edge>, edge: Edge)
    requires IsTableOf(table, edges)
    ensures var have := if edge.src in table then table[edge.src] else [];
            IsTableOf(table[edge.src := have + [Arrow(edge.dst, edge.on)]], edges + [edge])
  {
    var have := if edge.src in table then table[edge.src] else [];
    var longer := table[edge.src := have + [Arrow(edge.dst, edge.on)]];
    forall src
      ensures ArrowsFrom(edges + [edge], src) == (if src in longer then longer[src] else [])
      ensures src in longer ==> longer[src] != []
    {
      ArrowsFromLonger(edges, edge, src);
    }
  }

  /** `outgoing()`: the arrows of every square, filled edge by edge. */
  method Outgoing(edges: seq<Edge>) returns (table: map<string, seq<Arrow>>)
    ensures IsTableOf(table, edges)
  {
    table := map[];
    for i := 0 to |edges|
      invariant IsTableOf(table, edges[..i])
    {
      var edge := edges[i];
      TableGrows(table, edges[..i], edge);
      assert edges[..i + 1] == edges[..i] + [edge];
      var have := if edge.src in table then table[edge.src] else [];
      table := table[edge.src := have + [Arrow(edge.dst, edge.on)]];
    }
    assert edges[..|edges|] == edges;
  }

  // ---- A run's context ----

  /** A stored value: JSON null, a text, a list of texts, or anything else by
      its printed form. */
  datatype Value = Null | Text(text: string) | Many(items: seq<string>) | Other(printed: string)

  type Context = map<string, Value>

  /** `context.get(key)`, where a stored null reads as absent. */
  function Get(context: Context, key: string): Option<Value> {
    if key in context && context[key] != Null then Some(context[key]) else None
  }

  function Str(value: Value): string {
    match value
    case Null => "None"
    case Text(text) => text
    case Many(items) => "list"
    case Other(printed) => printed
  }

  const REPLY_PREFIX := "reply_"
  const OUTCOME_KEY := "_outcome"
  const CUT_SHORT_BY_KEY := "cut_short_by"

  predicate HasPrefix(text: string, prefix: string) {
    prefix <= text
  }

  /** Where a branching square's answer lives. */
  function ReplyKey(id: string): string {
    REPLY_PREFIX + id
  }

  predicate IsReplyKey(key: string) {
    HasPrefix(key, REPLY_PREFIX)
  }

  function WithoutReply(context: Context, id: string): Context {
    context - {ReplyKey(id)}
  }

  // ---- Choosing an arrow ----

  /** The first arrow carrying this label. */
  function FirstLabelled(arrows: seq<Arrow>, word: string): (dst: Option<string>)
    ensures dst.Some? ==> Arrow(dst.value, Some(word)) in arrows
    ensures dst.None? ==> forall arrow | arrow in arrows :: arrow.on != Some(word)
  {
    if arrows == [] then None
    else if arrows[0].on == Some(word) then Some(arrows[0].dst)
    else FirstLabelled(arrows[1..], word)
  }

  /** The arrow an answer names; a value that is not a text names none. */
  function Wanted(arrows: seq<Arrow>, answer: Option<Value>): Option<string> {
    match answer
    case None => FirstLabelled(arrows, TIMEOUT)
    case Some(Text(text)) => FirstLabelled(arrows, text)
    case Some(_) => None
  }

  /** Which arrow leaves this square, None when the run ends here. */
  function PickNext(node: Node, arrows: seq<Arrow>, context: Context): (next: Option<string>)
    ensures next.Some? ==> exists arrow :: arrow in arrows && arrow.dst == next.value
  {
    if !Branches(node) then
      if arrows != [] then Some(arrows[0].dst) else None
    else
      OrElse(Wanted(arrows, Get(context, ReplyKey(node.id))), FirstLabelled(arrows, ELSE))
  }

  // ---- Goals ----

  /** The keyed tiers, or the unkeyed ones, in document order. */
  function TiersOf(goals: seq<Goal>, keyed: bool): seq<Goal> {
    if goals == [] then []
    else (if goals[0].key.Some? == keyed then [goals[0]] else []) + TiersOf(goals[1..], keyed)
  }

  lemma {:induction false} TiersAreTheGoals(goals: seq<Goal>, keyed: bool, tier: Goal)
    ensures tier in TiersOf(goals, keyed) <==> tier in goals && tier.key.Some? == keyed
  {
    if goals != [] {
      TiersAreTheGoals(goals[1..], keyed, tier);
    }
  }

  /** Each tier keeps its place among those of its kind. */
  lemma {:induction false} TiersKeepTheirOrder(before: seq<Goal>, after: seq<Goal>, keyed: bool)
    ensures TiersOf(before + after, keyed) == TiersOf(before, keyed) + TiersOf(after, keyed)
  {
    if before == [] {
      assert before + after == after;
    } else {
      assert (before + after)[0] == before[0] && (before + after)[1..] == before[1..] + after;
      TiersKeepTheirOrder(before[1..], after, keyed);
    }
  }

  /** Judging order: keyed first. */
  function GoalTiers(goals: seq<Goal>): seq<Goal> {
    TiersOf(goals, true) + TiersOf(goals, false)
  }
}
