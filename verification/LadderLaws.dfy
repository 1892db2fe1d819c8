/** Every ladder compiles to a lawful board (outreach/ladder.py under the laws of
    outreach/plans.py). */
module LadderLaws {
  import opened Wrappers
  import opened Board
  import opened Plans
  import opened Ladder

  /** The document a ladder is stored as, with the author's goals beside it. */
  function LadderDoc(f: seq<Stage>, goals: seq<Goal>, maxAge: int): Definition {
    Definition(Drawn(f).doors, Drawn(f).nodes, Drawn(f).edges, goals, maxAge, Pin)
  }

  // ---- Names ----

  /** No square of one stage shares an id with a square of the other, nor with
      another square of its own. */
  predicate StagesApart(f: seq<Stage>, i: nat, j: nat)
    requires i < |f| && j < |f|
  {
    && f[i].at != f[j].act && f[i].at != f[j].after && f[i].act != f[j].after
    && (i != j ==> f[i].at != f[j].at && f[i].act != f[j].act && f[i].after != f[j].after)
  }

  predicate Apart(f: seq<Stage>) {
    forall i, j | 0 <= i < |f| && 0 <= j < |f| :: StagesApart(f, i, j)
  }

  /** A funnel of at least two stages, told apart by topic, clocks ticking. */
  predicate FunnelFits(f: seq<Stage>) {
    && |f| >= 2 && Apart(f)
    && (forall i, j | 0 <= i < j < |f| :: f[i].topic != f[j].topic)
    && forall i | 0 <= i < |f| :: f[i].idle > 0 && f[i].afterAction > 0 && IsStageAction(f[i].action)
  }

  /** The three prefixes, and distinct slugs, keep every square's id apart. */
  lemma PrefixesKeepIdsApart(a: string, b: string)
    ensures "at-" + a != "act-" + b && "at-" + a != "after-" + b && "act-" + a != "after-" + b
    ensures a != b ==> "at-" + a != "at-" + b && "act-" + a != "act-" + b && "after-" + a != "after-" + b
  {
    assert ("at-" + a)[1] == 't' && ("act-" + a)[1] == ("act-" + b)[1] == 'c' && ("after-" + b)[1] == 'f';
    assert ("at-" + a)[3..] == a && ("at-" + b)[3..] == b;
    assert ("act-" + a)[4..] == a && ("act-" + b)[4..] == b;
    assert ("after-" + a)[6..] == a && ("after-" + b)[6..] == b;
  }

  /** Every ladder the expander honours compiles from such a funnel. */
  lemma LaddersAreFunnels(stages: Stages)
    requires IsShaped(stages) && SlugsAreDistinct(stages.order)
    ensures FunnelFits(StagesOf(stages))
  {
    var f := StagesOf(stages);
    forall i, j | 0 <= i < |f| && 0 <= j < |f| ensures StagesApart(f, i, j) {
      PrefixesKeepIdsApart(SlugOf(stages.order[i]), SlugOf(stages.order[j]));
    }
    forall i | 0 <= i < |f| ensures f[i].idle > 0 && f[i].afterAction > 0 && IsStageAction(f[i].action) {
      var topic := stages.order[i];
      assert topic in stages.overrides ==> OverrideIsShaped(stages.overrides[topic]);
    }
  }

  // ---- Parts laid end to end ----

  lemma {:induction false} PartOfTheWhole<T>(parts: seq<seq<T>>, i: nat, x: T)
    requires i < |parts| && x in parts[i]
    ensures x in Flat(parts)
  {
    if i < |parts| - 1 {
      PartOfTheWhole(parts[..|parts| - 1], i, x);
    }
  }

  lemma {:induction false} SomePartHolds<T>(parts: seq<seq<T>>, x: T) returns (i: nat)
    requires x in Flat(parts)
    ensures i < |parts| && x in parts[i]
  {
    if x in parts[|parts| - 1] {
      i := |parts| - 1;
    } else {
      i := SomePartHolds(parts[..|parts| - 1], x);
    }
  }

  /** Parts that are empty leave the one that is not. */
  lemma {:induction false} OnlyPart<T>(parts: seq<seq<T>>, i: nat)
    requires forall j | 0 <= j < |parts| && j != i :: parts[j] == []
    ensures Flat(parts) == if i < |parts| then parts[i] else []
  {
    if parts != [] {
      OnlyPart(parts[..|parts| - 1], i);
    }
  }

  lemma DistinctTogether(a: seq<Node>, b: seq<Node>)
    requires DistinctIds(a) && DistinctIds(b)
    requires forall x, y | x in a && y in b :: x.id != y.id
    ensures DistinctIds(a + b)
  {
    var all := a + b;
    forall i, j | 0 <= i < j < |all| ensures all[i].id != all[j].id {
      if i < |a| <= j {
        assert all[i] in a && all[j] in b;
      }
    }
  }

  lemma StageIdsAreDistinct(f: seq<Stage>, i: nat)
    requires Apart(f) && i < |f|
    ensures DistinctIds(StageNodes(f, i))
  {
    assert StagesApart(f, i, i);
  }

  lemma StagesShareNoId(f: seq<Stage>, i: nat, j: nat, node: Node, other: Node)
    requires Apart(f) && i < j < |f| && node in StageNodes(f, i) && other in StageNodes(f, j)
    ensures node.id != other.id
  {
    assert StagesApart(f, i, j) && StagesApart(f, j, i);
  }

  lemma {:induction false} PartsAreDistinct(parts: seq<seq<Node>>)
    requires forall i | 0 <= i < |parts| :: DistinctIds(parts[i])
    requires forall i, j, a, b | 0 <= i < j < |parts| && a in parts[i] && b in parts[j] :: a.id != b.id
    ensures DistinctIds(Flat(parts))
  {
    if parts != [] {
      var before, last := parts[..|parts| - 1], parts[|parts| - 1];
      PartsAreDistinct(before);
      forall x: Node, y: Node | x in Flat(before) && y in last ensures x.id != y.id {
        var i := SomePartHolds(before, x);
        assert x in parts[i];
      }
      DistinctTogether(Flat(before), last);
    }
  }

  lemma IdsAreDistinct(f: seq<Stage>)
    requires Apart(f)
    ensures DistinctIds(Drawn(f).nodes)
  {
    var parts := NodeParts(f, |f|);
    forall i | 0 <= i < |parts| ensures DistinctIds(parts[i]) {
      StageIdsAreDistinct(f, i);
    }
    forall i, j, a: Node, b: Node | 0 <= i < j < |parts| && a in parts[i] && b in parts[j] ensures a.id != b.id {
      StagesShareNoId(f, i, j, a, b);
    }
    PartsAreDistinct(parts);
  }

  /** Every square is some stage's, and every stage's square is drawn. */
  lemma DrawnBySomeStage(f: seq<Stage>, node: Node) returns (i: nat)
    requires node in Drawn(f).nodes
    ensures i < |f| && node in StageNodes(f, i)
  {
    i := SomePartHolds(NodeParts(f, |f|), node);
  }

  lemma StageNodeIsNamed(f: seq<Stage>, i: nat, node: Node)
    requires Apart(f) && i < |f| && node in StageNodes(f, i)
    ensures node in Drawn(f).nodes && NodeNamed(Drawn(f).nodes, node.id) == Some(node)
  {
    PartOfTheWhole(NodeParts(f, |f|), i, node);
    IdsAreDistinct(f);
    DistinctIdsNameOneNode(Drawn(f).nodes, node);
  }

  /** A stage's squares are found under their own names. */
  lemma StageNodesAreNamed(f: seq<Stage>, i: nat)
    requires Apart(f) && i < |f|
    ensures NodeNamed(Drawn(f).nodes, f[i].at) == Some(AtNode(f, i))
    ensures NodeNamed(Drawn(f).nodes, f[i].act) == Some(ActNode(f, i))
    ensures i + 1 < |f| ==> NodeNamed(Drawn(f).nodes, f[i].after) == Some(AfterNode(f, i))
  {
    var nodes := StageNodes(f, i);
    assert nodes[0] == AtNode(f, i) && nodes[1] == ActNode(f, i);
    StageNodeIsNamed(f, i, nodes[0]);
    StageNodeIsNamed(f, i, nodes[1]);
    if i + 1 < |f| {
      assert nodes[2] == AfterNode(f, i);
      StageNodeIsNamed(f, i, nodes[2]);
    }
  }

  // ---- Arrows ----

  lemma {:induction false} ArrowsOfBoth(a: seq<Edge>, b: seq<Edge>, src: string)
    ensures ArrowsFrom(a + b, src) == ArrowsFrom(a, src) + ArrowsFrom(b, src)
    decreases |b|
  {
    if b == [] {
      assert a + b == a;
    } else {
      ArrowsOfBoth(a, b[..|b| - 1], src);
      assert (a + b)[..|a + b| - 1] == a + b[..|b| - 1];
    }
  }

  /** The later stages' arrows, as they leave one square. */
  function LaterArrows(f: seq<Stage>, j: nat): seq<Arrow> {
    if j >= |f| then []
    else seq(|f| - j, k requires 0 <= k < |f| - j => Arrow(f[j + k].at, Some(f[j + k].topic)))
  }

  lemma FirstLaterArrow(f: seq<Stage>, j: nat)
    requires j < |f|
    ensures LaterArrows(f, j) == [Arrow(f[j].at, Some(f[j].topic))] + LaterArrows(f, j + 1)
  {
  }

  lemma {:induction false} ArrowsOfLaterEdges(f: seq<Stage>, src: string, other: string, j: nat)
    ensures ArrowsFrom(LaterEdges(f, src, j), other) == if other == src then LaterArrows(f, j) else []
    decreases |f| - j
  {
    if j < |f| {
      var first := [Edge(src, f[j].at, Some(f[j].topic))];
      ArrowsOfLaterEdges(f, src, other, j + 1);
      ArrowsOfBoth(first, LaterEdges(f, src, j + 1), other);
      FirstLaterArrow(f, j);
      assert first[..0] == [];
    }
  }

  /** What leaves a square of stage `i` in that stage's own arrows. */
  function ArrowsAt(f: seq<Stage>, i: nat): seq<Arrow>
    requires i < |f|
  {
    if i + 1 == |f| then [Arrow(f[i].act, None)]
    else LaterArrows(f, i + 1) + [Arrow(f[i].act, Some(TIMEOUT))]
  }

  function ArrowsOfAct(f: seq<Stage>, i: nat): seq<Arrow>
    requires i < |f|
  {
    if i + 1 == |f| then [] else [Arrow(f[i].after, None)]
  }

  function ArrowsAfter(f: seq<Stage>, i: nat): seq<Arrow>
    requires i < |f|
  {
    if i + 1 == |f| then [] else LaterArrows(f, i + 1)
  }

  /** What leaves `src` among one stage's arrows. */
  function FromStage(f: seq<Stage>, i: nat, src: string): seq<Arrow>
    requires i < |f|
  {
    if src == f[i].at then ArrowsAt(f, i)
    else if src == f[i].act then ArrowsOfAct(f, i)
    else if src == f[i].after then ArrowsAfter(f, i)
    else []
  }

  lemma ArrowsOfLastStage(f: seq<Stage>, i: nat, src: string)
    requires Apart(f) && i + 1 == |f|
    ensures ArrowsFrom(StageEdges(f, i), src) == FromStage(f, i, src)
  {
    assert StageEdges(f, i)[..0] == [];
  }

  /** What leaves `src` among a middle stage's arrows, part by part. */
  lemma ArrowsOfMiddleStage(f: seq<Stage>, i: nat, src: string)
    requires i + 1 < |f|
    ensures ArrowsFrom(StageEdges(f, i), src)
            == (if src == f[i].at then LaterArrows(f, i + 1) else [])
             + (if src == f[i].at then [Arrow(f[i].act, Some(TIMEOUT))] else [])
             + (if src == f[i].act then [Arrow(f[i].after, None)] else [])
             + (if src == f[i].after then LaterArrows(f, i + 1) else [])
  {
    var out, back := LaterEdges(f, f[i].at, i + 1), LaterEdges(f, f[i].after, i + 1);
    var first, second := Edge(f[i].at, f[i].act, Some(TIMEOUT)), Edge(f[i].act, f[i].after, None);
    ArrowsOfLaterEdges(f, f[i].at, src, i + 1);
    ArrowsOfLaterEdges(f, f[i].after, src, i + 1);
    ArrowsOfFour(out, first, second, back, src);
  }

  lemma ArrowsOfFour(out: seq<Edge>, first: Edge, second: Edge, back: seq<Edge>, src: string)
    ensures ArrowsFrom(out + [first, second] + back, src)
            == ArrowsFrom(out, src)
             + (if first.src == src then [Arrow(first.dst, first.on)] else [])
             + (if second.src == src then [Arrow(second.dst, second.on)] else [])
             + ArrowsFrom(back, src)
  {
    ArrowsOfBoth(out + [first, second], back, src);
    ArrowsOfBoth(out, [first, second], src);
    ArrowsOfTwo(first, second, src);
  }

  lemma ArrowsOfStage(f: seq<Stage>, i: nat, src: string)
    requires Apart(f) && i < |f|
    ensures ArrowsFrom(StageEdges(f, i), src) == FromStage(f, i, src)
  {
    assert StagesApart(f, i, i);
    if i + 1 == |f| {
      ArrowsOfLastStage(f, i, src);
    } else {
      ArrowsOfMiddleStage(f, i, src);
    }
  }

  lemma ArrowsOfTwo(first: Edge, second: Edge, src: string)
    ensures ArrowsFrom([first, second], src)
            == (if first.src == src then [Arrow(first.dst, first.on)] else [])
             + (if second.src == src then [Arrow(second.dst, second.on)] else [])
  {
    assert [first, second] == [first] + [second];
    ArrowsOfBoth([first], [second], src);
    assert [first][..0] == [] && [second][..0] == [];
  }

  predicate IsSquareOf(stage: Stage, src: string) {
    src == stage.at || src == stage.act || src == stage.after
  }

  lemma OtherStagesStayOut(f: seq<Stage>, i: nat, j: nat, src: string)
    requires Apart(f) && i < |f| && j < |f| && i != j && IsSquareOf(f[i], src)
    ensures ArrowsFrom(StageEdges(f, j), src) == []
  {
    ArrowsOfStage(f, j, src);
    assert StagesApart(f, i, j) && StagesApart(f, j, i);
  }

  function ArrowParts(parts: seq<seq<Edge>>, src: string): seq<seq<Arrow>> {
    seq(|parts|, i requires 0 <= i < |parts| => ArrowsFrom(parts[i], src))
  }

  /** What leaves a square, part by part. */
  lemma {:induction false} ArrowsOfParts(parts: seq<seq<Edge>>, src: string)
    ensures ArrowsFrom(Flat(parts), src) == Flat(ArrowParts(parts, src))
  {
    if parts != [] {
      var before, last := parts[..|parts| - 1], parts[|parts| - 1];
      ArrowsOfParts(before, src);
      ArrowsOfBoth(Flat(before), last, src);
      assert ArrowParts(parts, src)[..|before|] == ArrowParts(before, src);
    }
  }

  /** Other stages add no arrow to a stage's squares. */
  lemma ArrowsOfBoard(f: seq<Stage>, i: nat, src: string)
    requires Apart(f) && i < |f| && IsSquareOf(f[i], src)
    ensures ArrowsFrom(Drawn(f).edges, src) == FromStage(f, i, src)
  {
    var edges := EdgeParts(f, |f|);
    var parts := ArrowParts(edges, src);
    forall j | 0 <= j < |parts| && j != i ensures parts[j] == [] {
      OtherStagesStayOut(f, i, j, src);
    }
    ArrowsOfParts(edges, src);
    OnlyPart(parts, i);
    ArrowsOfStage(f, i, src);
  }

  lemma BoardArrows(f: seq<Stage>, i: nat)
    requires Apart(f) && i < |f|
    ensures ArrowsFrom(Drawn(f).edges, f[i].at) == ArrowsAt(f, i)
    ensures ArrowsFrom(Drawn(f).edges, f[i].act) == ArrowsOfAct(f, i)
    ensures ArrowsFrom(Drawn(f).edges, f[i].after) == ArrowsAfter(f, i)
  {
    assert StagesApart(f, i, i);
    ArrowsOfBoard(f, i, f[i].at);
    ArrowsOfBoard(f, i, f[i].act);
    ArrowsOfBoard(f, i, f[i].after);
  }

  lemma LaterArrowsAreLetters(f: seq<Stage>, j: nat)
    requires j <= |f|
    ensures |LaterArrows(f, j)| == |f| - j
    ensures forall k {:trigger LaterArrows(f, j)[k]} | 0 <= k < |LaterArrows(f, j)| ::
              LaterArrows(f, j)[k] == Arrow(f[j + k].at, Some(f[j + k].topic))
  {
  }

  // ---- The laws ----

  lemma LadderNodesAreLawful(f: seq<Stage>)
    requires FunnelFits(f)
    ensures NodesAreLawful(Drawn(f).nodes)
  {
    IdsAreDistinct(f);
    forall node | node in Drawn(f).nodes ensures NodeIsLawful(node) {
      var i := DrawnBySomeStage(f, node);
    }
  }

  /** One door per stage, each onto that stage's own waiting square. */
  lemma LadderDoorsAreLawful(f: seq<Stage>, goals: seq<Goal>, maxAge: int)
    requires FunnelFits(f)
    ensures var doc := LadderDoc(f, goals, maxAge);
            |doc.doors| == |f| && DoorsAreLawful(doc, doc.doors)
  {
    var doc := LadderDoc(f, goals, maxAge);
    forall door | door in doc.doors ensures DoorIsLawful(doc, door) {
      var i :| 0 <= i < |doc.doors| && doc.doors[i] == door;
      StageNodesAreNamed(f, i);
    }
  }

  lemma {:induction false} LaterEdgesEndAtStages(f: seq<Stage>, src: string, j: nat)
    requires Apart(f) && NodeNamed(Drawn(f).nodes, src).Some?
    ensures forall edge | edge in LaterEdges(f, src, j) :: EndpointsAreReal(Drawn(f).nodes, edge)
    decreases |f| - j
  {
    if j < |f| {
      StageNodesAreNamed(f, j);
      LaterEdgesEndAtStages(f, src, j + 1);
    }
  }

  lemma StageEdgesEndAtStages(f: seq<Stage>, i: nat)
    requires Apart(f) && i < |f|
    ensures forall edge | edge in StageEdges(f, i) :: EndpointsAreReal(Drawn(f).nodes, edge)
  {
    StageNodesAreNamed(f, i);
    if i + 1 < |f| {
      LaterEdgesEndAtStages(f, f[i].at, i + 1);
      LaterEdgesEndAtStages(f, f[i].after, i + 1);
    }
  }

  lemma EdgesEndAtStages(f: seq<Stage>)
    requires Apart(f)
    ensures forall edge | edge in Drawn(f).edges :: EndpointsAreReal(Drawn(f).nodes, edge)
  {
    forall edge | edge in Drawn(f).edges ensures EndpointsAreReal(Drawn(f).nodes, edge) {
      var i := SomePartHolds(EdgeParts(f, |f|), edge);
      StageEdgesEndAtStages(f, i);
    }
  }

  /** The arrows of a stage's waiting square fit it unless a later stage's topic
      is the timer's own word. */
  lemma WaitLabelsFit(f: seq<Stage>, i: nat)
    requires FunnelFits(f) && i < |f|
    ensures ArrowsFit(AtNode(f, i), ArrowsAt(f, i)) <==> TIMEOUT !in Topics(f)[i + 1..]
  {
    if i + 1 < |f| {
      LaterArrowsAreLetters(f, i + 1);
      LabelsOf(Topics(f)[i + 1..], LaterArrows(f, i + 1), f[i].act);
      assert ArrowsAt(f, i) == LaterArrows(f, i + 1) + [Arrow(f[i].act, Some(TIMEOUT))];
    }
  }

  /** Distinct topics and then the timer's word: distinct labels exactly when no
      topic is that word. */
  lemma LabelsOf(topics: seq<string>, letters: seq<Arrow>, timerTo: string)
    requires |topics| == |letters|
    requires forall k | 0 <= k < |topics| :: letters[k].on == Some(topics[k])
    requires forall k, l | 0 <= k < l < |topics| :: topics[k] != topics[l]
    ensures var arrows := letters + [Arrow(timerTo, Some(TIMEOUT))];
            && (forall arrow | arrow in arrows :: arrow.on.Some?)
            && ((forall k, l | 0 <= k < l < |arrows| :: arrows[k].on != arrows[l].on) <==> TIMEOUT !in topics)
  {
    var arrows := letters + [Arrow(timerTo, Some(TIMEOUT))];
    if TIMEOUT in topics {
      var k :| 0 <= k < |topics| && topics[k] == TIMEOUT;
      assert arrows[k].on == arrows[|topics|].on;
    }
  }

  lemma OtherLabelsFit(f: seq<Stage>, i: nat)
    requires FunnelFits(f) && i < |f|
    ensures ArrowsFit(ActNode(f, i), ArrowsOfAct(f, i))
    ensures i + 1 < |f| ==> ArrowsFit(AfterNode(f, i), ArrowsAfter(f, i))
  {
    LaterArrowsAreLetters(f, i + 1);
  }

  lemma StageLabelsFit(f: seq<Stage>, i: nat)
    requires FunnelFits(f) && i < |f|
    ensures LabelsFit(Drawn(f).edges, AtNode(f, i)) <==> TIMEOUT !in Topics(f)[i + 1..]
    ensures LabelsFit(Drawn(f).edges, ActNode(f, i))
    ensures i + 1 < |f| ==> LabelsFit(Drawn(f).edges, AfterNode(f, i))
  {
    BoardArrows(f, i);
    WaitLabelsFit(f, i);
    OtherLabelsFit(f, i);
  }

  lemma NodeLabelsFit(f: seq<Stage>, node: Node)
    requires FunnelFits(f) && TIMEOUT !in Topics(f)[1..] && node in Drawn(f).nodes
    ensures LabelsFit(Drawn(f).edges, node)
  {
    var i := DrawnBySomeStage(f, node);
    assert Topics(f)[i + 1..] == Topics(f)[1..][i..];
    StageLabelsFit(f, i);
    assert node == AtNode(f, i) || node == ActNode(f, i) || (i + 1 < |f| && node == AfterNode(f, i));
  }

  lemma LadderLabelsFit(f: seq<Stage>)
    requires FunnelFits(f)
    ensures (forall node | node in Drawn(f).nodes :: LabelsFit(Drawn(f).edges, node)) <==> TIMEOUT !in Topics(f)[1..]
  {
    if TIMEOUT !in Topics(f)[1..] {
      forall node | node in Drawn(f).nodes ensures LabelsFit(Drawn(f).edges, node) {
        NodeLabelsFit(f, node);
      }
    } else {
      assert AtNode(f, 0) == StageNodes(f, 0)[0];
      StageNodeIsNamed(f, 0, AtNode(f, 0));
      StageLabelsFit(f, 0);
      assert AtNode(f, 0) in Drawn(f).nodes && !LabelsFit(Drawn(f).edges, AtNode(f, 0));
    }
  }

  lemma LadderHasNoWindows(f: seq<Stage>)
    ensures forall node | node in Drawn(f).nodes :: node.window.None?
  {
    forall node | node in Drawn(f).nodes ensures node.window.None? {
      var i := DrawnBySomeStage(f, node);
    }
  }

  /** The whole board is lawful exactly when no stage after the first is named
      by the timer's own word. */
  lemma LadderIsLawfulIffNoTopicIsTimeout(f: seq<Stage>, goals: seq<Goal>, maxAge: int)
    requires FunnelFits(f) && GoalsAreLawful(goals)
    ensures BoardIsLawful(LadderDoc(f, goals, maxAge)) <==> TIMEOUT !in Topics(f)[1..]
  {
    var doc := LadderDoc(f, goals, maxAge);
    LadderNodesAreLawful(f);
    LadderDoorsAreLawful(f, goals, maxAge);
    EdgesEndAtStages(f);
    LadderHasNoWindows(f);
    LadderLabelsFit(f);
  }

  // ---- Sizes ----

  lemma {:induction false} LaterEdgesCount(f: seq<Stage>, src: string, j: nat)
    requires j <= |f|
    ensures |LaterEdges(f, src, j)| == |f| - j
    decreases |f| - j
  {
    if j < |f| {
      LaterEdgesCount(f, src, j + 1);
    }
  }

  lemma StageSizes(f: seq<Stage>, i: nat)
    requires i + 1 < |f|
    ensures |StageNodes(f, i)| == 3
    ensures |StageEdges(f, i)| == 2 * (|f| - i)
  {
    LaterEdgesCount(f, f[i].at, i + 1);
    LaterEdgesCount(f, f[i].after, i + 1);
  }

  /** The arrows of the first `k` of `n` stages, none of them the last. */
  function ArrowsBefore(n: nat, k: nat): int {
    if k == 0 then 0 else ArrowsBefore(n, k - 1) + 2 * (n - k) + 2
  }

  lemma {:induction false} ArrowsBeforeIs(n: nat, k: nat)
    ensures ArrowsBefore(n, k) == k * (2 * n + 1 - k)
  {
    if k > 0 {
      ArrowsBeforeIs(n, k - 1);
    }
  }

  lemma {:induction false} NodesCount(parts: seq<seq<Node>>)
    requires forall i | 0 <= i < |parts| :: |parts[i]| == 3
    ensures |Flat(parts)| == 3 * |parts|
  {
    if parts != [] {
      NodesCount(parts[..|parts| - 1]);
    }
  }

  lemma {:induction false} EdgesCount(parts: seq<seq<Edge>>, n: nat)
    requires forall i | 0 <= i < |parts| :: |parts[i]| == 2 * (n - i)
    ensures |Flat(parts)| == ArrowsBefore(n, |parts|)
  {
    if parts != [] {
      EdgesCount(parts[..|parts| - 1], n);
    }
  }

  lemma SquareOfStages(n: nat)
    requires n > 0
    ensures ArrowsBefore(n, n - 1) + 1 == n * n + n - 1
  {
    ArrowsBeforeIs(n, n - 1);
  }

  /** A ladder of n stages has 3n - 1 squares and n*n + n - 1 arrows. */
  lemma LadderSizes(f: seq<Stage>)
    requires f != []
    ensures |Drawn(f).nodes| == 3 * |f| - 1
    ensures |Drawn(f).edges| == |f| * |f| + |f| - 1
  {
    LadderNodes(f);
    LadderEdges(f);
  }

  lemma LadderNodes(f: seq<Stage>)
    requires f != []
    ensures |Drawn(f).nodes| == 3 * |f| - 1
  {
    var n := |f|;
    var nodes := NodeParts(f, n);
    forall i | 0 <= i < n - 1 ensures |nodes[i]| == 3 {
      StageSizes(f, i);
    }
    NodesCount(nodes[..n - 1]);
  }

  lemma LadderEdges(f: seq<Stage>)
    requires f != []
    ensures |Drawn(f).edges| == |f| * |f| + |f| - 1
  {
    var n := |f|;
    var edges := EdgeParts(f, n);
    forall i | 0 <= i < n - 1 ensures |edges[i]| == 2 * (n - i) {
      StageSizes(f, i);
    }
    EdgesCount(edges[..n - 1], n);
    SquareOfStages(n);
  }
}
