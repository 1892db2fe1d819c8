/** The stages ladder (outreach/ladder.py): an ordered funnel, compiled into the
    board it means. */
module Ladder {
  import opened Wrappers
  import opened Board

  // ---- The funnel ----

  datatype StageAction = StageAction(kind: Kind)

  datatype StageOverride = StageOverride(idle: Option<int>, onIdle: Option<StageAction>, afterAction: Option<int>)

  /** Stage topics in order, one clock for silence, one action, one clock for
      listening after it; and what a stage says otherwise. */
  datatype Stages = Stages(
    order: seq<string>, idle: int, onIdle: StageAction, afterAction: int, restartOnRepeat: bool,
    overrides: map<string, StageOverride>)

  predicate IsStageAction(action: StageAction) {
    action.kind == Call || action.kind == Send
  }

  predicate OverrideIsShaped(own: StageOverride) {
    && (own.idle.Some? ==> own.idle.value > 0)
    && (own.afterAction.Some? ==> own.afterAction.value > 0)
    && (own.onIdle.Some? ==> IsStageAction(own.onIdle.value))
  }

  /** What the document model lets through. */
  predicate IsShaped(stages: Stages) {
    && |stages.order| >= 2 && stages.idle > 0 && stages.afterAction > 0 && IsStageAction(stages.onIdle)
    && (forall topic | topic in stages.order :: topic != "")
    && (forall i, j | 0 <= i < j < |stages.order| :: stages.order[i] != stages.order[j])
    && forall topic | topic in stages.overrides ::
         topic in stages.order && OverrideIsShaped(stages.overrides[topic])
  }

  // ---- Slugs ----

  predicate IsSlugChar(c: char) {
    'a' <= c <= 'z' || '0' <= c <= '9'
  }

  function Lower(c: char): char {
    if 'A' <= c <= 'Z' then c - 'A' + 'a' else c
  }

  /** The part after the last dot. */
  function AfterLastDot(topic: string): string {
    if topic == "" || topic[|topic| - 1] == '.' then ""
    else AfterLastDot(topic[..|topic| - 1]) + [topic[|topic| - 1]]
  }

  /** Every run of anything but letters and digits, as one dash. */
  function Dashed(name: string, inRun: bool): string {
    if name == "" then ""
    else
      var c := Lower(name[0]);
      if IsSlugChar(c) then [c] + Dashed(name[1..], false)
      else (if inRun then "" else "-") + Dashed(name[1..], true)
  }

  function WithoutTrailingDashes(text: string): string {
    if text != "" && text[|text| - 1] == '-' then WithoutTrailingDashes(text[..|text| - 1]) else text
  }

  function WithoutLeadingDashes(text: string): string {
    if text != "" && text[0] == '-' then WithoutLeadingDashes(text[1..]) else text
  }

  /** The part of a stage topic its squares are named by. */
  function SlugOf(topic: string): string {
    WithoutTrailingDashes(WithoutLeadingDashes(Dashed(AfterLastDot(topic), false)))
  }

  /** Letters and digits, single dashes between them. */
  ghost predicate IsSlug(text: string) {
    && DashesAreSingle(text)
    && (text != "" ==> text[0] != '-' && text[|text| - 1] != '-')
  }

  ghost predicate DashesAreSingle(text: string) {
    && (forall c | c in text :: IsSlugChar(c) || c == '-')
    && forall i | 0 < i < |text| :: text[i - 1] != '-' || text[i] != '-'
  }

  lemma {:induction false} DashedIsSingle(name: string, inRun: bool)
    ensures DashesAreSingle(Dashed(name, inRun))
    ensures inRun && Dashed(name, inRun) != "" ==> Dashed(name, inRun)[0] != '-'
  {
    if name != "" {
      DashedIsSingle(name[1..], !IsSlugChar(Lower(name[0])));
    }
  }

  lemma {:induction false} TrimmingLeadingKeeps(text: string)
    requires DashesAreSingle(text)
    ensures DashesAreSingle(WithoutLeadingDashes(text))
    ensures WithoutLeadingDashes(text) != "" ==> WithoutLeadingDashes(text)[0] != '-'
    decreases |text|
  {
    if text != "" && text[0] == '-' {
      assert forall i | 0 < i < |text[1..]| :: text[1..][i - 1] == text[i] && text[1..][i] == text[i + 1];
      TrimmingLeadingKeeps(text[1..]);
    }
  }

  lemma {:induction false} TrimmingTrailingKeeps(text: string)
    requires DashesAreSingle(text) && (text != "" ==> text[0] != '-')
    ensures IsSlug(WithoutTrailingDashes(text))
    decreases |text|
  {
    if text != "" && text[|text| - 1] == '-' {
      TrimmingTrailingKeeps(text[..|text| - 1]);
    }
  }

  lemma SlugsAreSlugs(topic: string)
    ensures IsSlug(SlugOf(topic))
  {
    DashedIsSingle(AfterLastDot(topic), false);
    TrimmingLeadingKeeps(Dashed(AfterLastDot(topic), false));
    TrimmingTrailingKeeps(WithoutLeadingDashes(Dashed(AfterLastDot(topic), false)));
  }

  /** A slug is its own slug: names derived from it are stable. */
  lemma SlugsAreStable(topic: string)
    ensures SlugOf(SlugOf(topic)) == SlugOf(topic)
  {
    SlugsAreSlugs(topic);
    var slug := SlugOf(topic);
    SlugsHaveNoDots(slug);
    SlugsAreDashedAlready(slug, false);
  }

  lemma {:induction false} SlugsHaveNoDots(text: string)
    requires forall c | c in text :: IsSlugChar(c) || c == '-'
    ensures AfterLastDot(text) == text
  {
    if text != "" {
      assert text[|text| - 1] in text;
      SlugsHaveNoDots(text[..|text| - 1]);
      assert text == text[..|text| - 1] + [text[|text| - 1]];
    }
  }

  lemma {:induction false} SlugsAreDashedAlready(text: string, inRun: bool)
    requires DashesAreSingle(text) && (inRun && text != "" ==> text[0] != '-')
    ensures Dashed(text, inRun) == text
  {
    if text != "" {
      assert text[0] in text;
      assert forall i | 0 < i < |text[1..]| :: text[1..][i - 1] == text[i] && text[1..][i] == text[i + 1];
      SlugsAreDashedAlready(text[1..], text[0] == '-');
    }
  }

  // ---- One stage ----

  /** A stage as the expander's loop sees it: its topic, its squares' ids, and
      its own clocks and action, or the ladder's. */
  datatype Stage = Stage(
    topic: string, at: string, act: string, after: string, idle: int, afterAction: int, action: StageAction,
    rearms: bool)

  function StageOf(stages: Stages, topic: string): Stage {
    var slug := SlugOf(topic);
    var own := if topic in stages.overrides then stages.overrides[topic] else StageOverride(None, None, None);
    Stage(topic, "at-" + slug, "act-" + slug, "after-" + slug,
          own.idle.GetOr(stages.idle), own.afterAction.GetOr(stages.afterAction), own.onIdle.GetOr(stages.onIdle),
          stages.restartOnRepeat)
  }

  function StagesOf(stages: Stages): (f: seq<Stage>)
    ensures |f| == |stages.order|
    ensures forall i | 0 <= i < |f| :: f[i] == StageOf(stages, stages.order[i])
  {
    seq(|stages.order|, i requires 0 <= i < |stages.order| => StageOf(stages, stages.order[i]))
  }

  function Topics(f: seq<Stage>): (topics: seq<string>)
    ensures |topics| == |f| && forall i {:trigger topics[i]} | 0 <= i < |f| :: topics[i] == f[i].topic
  {
    seq(|f|, i requires 0 <= i < |f| => f[i].topic)
  }

  /** The later stages' arrows: their letters move a run to their at- squares. */
  function LaterEdges(f: seq<Stage>, src: string, j: nat): seq<Edge>
    decreases |f| - j
  {
    if j >= |f| then [] else [Edge(src, f[j].at, Some(f[j].topic))] + LaterEdges(f, src, j + 1)
  }

  function AtNode(f: seq<Stage>, i: nat): Node
    requires i < |f|
  {
    Node(f[i].at, Wait, Some(f[i].idle), Topics(f)[i + 1..], None, Some(f[i].topic))
  }

  function ActNode(f: seq<Stage>, i: nat): Node
    requires i < |f|
  {
    Node(f[i].act, f[i].action.kind, None, [], None, Some(f[i].topic))
  }

  function AfterNode(f: seq<Stage>, i: nat): Node
    requires i < |f|
  {
    Node(f[i].after, Wait, Some(f[i].afterAction), Topics(f)[i + 1..], None, Some(f[i].topic))
  }

  /** The last stage has nothing later to listen for: its action ends the run. */
  function StageNodes(f: seq<Stage>, i: nat): seq<Node>
    requires i < |f|
  {
    [AtNode(f, i), ActNode(f, i)] + if i + 1 == |f| then [] else [AfterNode(f, i)]
  }

  function StageEdges(f: seq<Stage>, i: nat): seq<Edge>
    requires i < |f|
  {
    if i + 1 == |f| then [Edge(f[i].at, f[i].act, None)]
    else
      LaterEdges(f, f[i].at, i + 1)
      + [Edge(f[i].at, f[i].act, Some(TIMEOUT)), Edge(f[i].act, f[i].after, None)]
      + LaterEdges(f, f[i].after, i + 1)
  }

  function StageDoor(f: seq<Stage>, i: nat): Door
    requires i < |f|
  {
    Door(f[i].topic, f[i].at, f[i].idle, f[i].rearms)
  }

  // ---- The whole board ----

  /** One stage's part after another. */
  function Flat<T>(parts: seq<seq<T>>): seq<T> {
    if parts == [] then [] else Flat(parts[..|parts| - 1]) + parts[|parts| - 1]
  }

  function NodeParts(f: seq<Stage>, n: nat): (parts: seq<seq<Node>>)
    requires n <= |f|
  {
    seq(n, i requires 0 <= i < n <= |f| => StageNodes(f, i))
  }

  function EdgeParts(f: seq<Stage>, n: nat): (parts: seq<seq<Edge>>)
    requires n <= |f|
  {
    seq(n, i requires 0 <= i < n <= |f| => StageEdges(f, i))
  }

  function DoorsUpTo(f: seq<Stage>, n: nat): (doors: seq<Door>)
    requires n <= |f|
  {
    seq(n, i requires 0 <= i < n <= |f| => StageDoor(f, i))
  }

  lemma OneStageMore(f: seq<Stage>, i: nat)
    requires i < |f|
    ensures Flat(NodeParts(f, i + 1)) == Flat(NodeParts(f, i)) + StageNodes(f, i)
    ensures Flat(EdgeParts(f, i + 1)) == Flat(EdgeParts(f, i)) + StageEdges(f, i)
  {
    MoreNodes(f, i);
    MoreEdges(f, i);
  }

  lemma MoreNodes(f: seq<Stage>, i: nat)
    requires i < |f|
    ensures Flat(NodeParts(f, i + 1)) == Flat(NodeParts(f, i)) + StageNodes(f, i)
  {
    var parts := NodeParts(f, i + 1);
    OnePartMore(parts);
    assert parts[..i] == NodeParts(f, i);
  }

  lemma MoreEdges(f: seq<Stage>, i: nat)
    requires i < |f|
    ensures Flat(EdgeParts(f, i + 1)) == Flat(EdgeParts(f, i)) + StageEdges(f, i)
  {
    var parts := EdgeParts(f, i + 1);
    OnePartMore(parts);
    assert parts[..i] == EdgeParts(f, i);
  }

  lemma OnePartMore<T>(parts: seq<seq<T>>)
    requires parts != []
    ensures Flat(parts) == Flat(parts[..|parts| - 1]) + parts[|parts| - 1]
  {
  }

  lemma OneDoorMore(f: seq<Stage>, i: nat)
    requires i < |f|
    ensures DoorsUpTo(f, i + 1) == DoorsUpTo(f, i) + [StageDoor(f, i)]
  {
  }

  datatype Expansion = Expansion(nodes: seq<Node>, edges: seq<Edge>, doors: seq<Door>)

  function Drawn(f: seq<Stage>): Expansion {
    Expansion(Flat(NodeParts(f, |f|)), Flat(EdgeParts(f, |f|)), DoorsUpTo(f, |f|))
  }

  function BoardOf(stages: Stages): Expansion {
    Drawn(StagesOf(stages))
  }

  /** Every stage has a name, and no two the same. */
  predicate SlugsAreDistinct(order: seq<string>) {
    && (forall i | 0 <= i < |order| :: SlugOf(order[i]) != "")
    && forall i, j | 0 <= i < j < |order| :: SlugOf(order[i]) != SlugOf(order[j])
  }

  /** Stages that cannot be told apart, a board drawn beside the ladder, or a
      word the ladder owns. */
  datatype LadderProblem = NamesClash | DrawnBeside | OwnedWord

  datatype Built = Board(expansion: Expansion) | Refused(problem: LadderProblem)

  /** Two stages need distinct names, and every stage needs one. */
  method NamesAreClear(order: seq<string>) returns (clear: bool)
    ensures clear <==> SlugsAreDistinct(order)
  {
    var taken: set<string> := {};
    for i := 0 to |order|
      invariant forall k | 0 <= k < i :: SlugOf(order[k]) != ""
      invariant forall k, l | 0 <= k < l < i :: SlugOf(order[k]) != SlugOf(order[l])
      invariant forall slug :: slug in taken <==> exists k | 0 <= k < i :: SlugOf(order[k]) == slug
    {
      var slug := SlugOf(order[i]);
      if slug == "" || slug in taken {
        return false;
      }
      taken := taken + {slug};
    }
    return true;
  }

  /** One stage's squares and arrows, in the order the expander appends them. */
  method DrawStage(f: seq<Stage>, i: nat) returns (nodes: seq<Node>, edges: seq<Edge>)
    requires i < |f|
    ensures nodes == StageNodes(f, i) && edges == StageEdges(f, i)
  {
    var later := Topics(f)[i + 1..];
    nodes := [Node(f[i].at, Wait, Some(f[i].idle), later, None, Some(f[i].topic))];
    nodes := nodes + [Node(f[i].act, f[i].action.kind, None, [], None, Some(f[i].topic))];
    if later == [] {
      edges := [Edge(f[i].at, f[i].act, None)];
      return;
    }
    nodes := nodes + [Node(f[i].after, Wait, Some(f[i].afterAction), later, None, Some(f[i].topic))];
    edges := LettersOut(f, f[i].at, i + 1);
    edges := edges + [Edge(f[i].at, f[i].act, Some(TIMEOUT)), Edge(f[i].act, f[i].after, None)];
    var back := LettersOut(f, f[i].after, i + 1);
    edges := edges + back;
  }

  /** The inner loop: an arrow to every later stage. */
  method LettersOut(f: seq<Stage>, src: string, first: nat) returns (edges: seq<Edge>)
    requires first <= |f|
    ensures edges == LaterEdges(f, src, first)
  {
    edges := [];
    for j := first to |f|
      invariant edges + LaterEdges(f, src, j) == LaterEdges(f, src, first)
    {
      edges := edges + [Edge(src, f[j].at, Some(f[j].topic))];
    }
  }

  /** `_board`: squares, arrows and doors, stage by stage. Refused exactly when
      two stages cannot be told apart by name. */
  method BuildBoard(stages: Stages) returns (built: Built)
    ensures built == if SlugsAreDistinct(stages.order) then Board(BoardOf(stages)) else Refused(NamesClash)
  {
    var clear := NamesAreClear(stages.order);
    if !clear {
      return Refused(NamesClash);
    }
    var f := StagesOf(stages);
    var nodes: seq<Node>, edges: seq<Edge>, doors: seq<Door> := [], [], [];
    for i := 0 to |f|
      invariant nodes == Flat(NodeParts(f, i)) && edges == Flat(EdgeParts(f, i)) && doors == DoorsUpTo(f, i)
    {
      doors := doors + [Door(f[i].topic, f[i].at, f[i].idle, f[i].rearms)];
      var stageNodes, stageEdges := DrawStage(f, i);
      nodes, edges := nodes + stageNodes, edges + stageEdges;
      OneStageMore(f, i);
      OneDoorMore(f, i);
    }
    return Board(Expansion(nodes, edges, doors));
  }

  // ---- The stored form ----

  /** A document as it is written: a ladder or not, and what it draws. */
  datatype Written = Written(
    stages: Option<Stages>, nodes: Option<seq<Node>>, edges: Option<seq<Edge>>, doors: Option<seq<Door>>,
    ownsLadderWord: bool)

  datatype Expanded = Doc(doc: Written) | Refusal(problem: LadderProblem)

  predicate Agrees<T(==)>(drawn: Option<T>, produced: T) {
    drawn.None? || drawn.value == produced
  }

  /** `expand_stages`: a ladder gets its board beside it; any other document
      comes back as it is. */
  function Expand(raw: Written): Expanded {
    if raw.stages.None? then Doc(raw)
    else
      var stages := raw.stages.value;
      if raw.ownsLadderWord then Refusal(OwnedWord)
      else if !SlugsAreDistinct(stages.order) then Refusal(NamesClash)
      else
        var board := BoardOf(stages);
        if Agrees(raw.nodes, board.nodes) && Agrees(raw.edges, board.edges) && Agrees(raw.doors, board.doors) then
          Doc(raw.(nodes := Some(board.nodes), edges := Some(board.edges), doors := Some(board.doors)))
        else Refusal(DrawnBeside)
  }

  /** The stored form reads as itself; and a document is its own stored form
      exactly when, if it carries a ladder, it carries that ladder's board. */
  lemma ExpansionIsIdempotent(raw: Written)
    ensures Expand(raw).Doc? ==> Expand(Expand(raw).doc) == Expand(raw)
    ensures raw.stages.Some? && Expand(raw).Doc? ==>
              (Expand(raw).doc == raw <==>
               raw.nodes.Some? && raw.edges.Some? && raw.doors.Some?)
  {
  }
}
