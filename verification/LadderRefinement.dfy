/** Walking an expanded ladder is walking the funnel: the compiled board refines
    a machine over (stage, idle or acted) (outreach/ladder.py under
    outreach/walker.py). */
module LadderRefinement {
  import opened Wrappers
  import opened Board
  import opened Steps
  import opened Walker
  import opened Trail
  import opened Ladder
  import opened LadderLaws

  // ---- The funnel machine ----

  /** Waiting on a stage, listening after its action, or finished. */
  datatype Place = Idle(stage: nat) | Acted(stage: nat) | Done

  datatype Signal = Silence | LetterOf(stage: nat)

  predicate IsPlace(n: nat, place: Place) {
    match place
    case Idle(i) => i < n
    case Acted(i) => i + 1 < n
    case Done => true
  }

  /** Only a later stage's letter is ever an answer. */
  predicate CanHear(n: nat, place: Place, signal: Signal) {
    signal.LetterOf? ==> !place.Done? && place.stage < signal.stage < n
  }

  /** A later stage's letter moves the run there; silence acts, then listens,
      then ends; after the last stage's action nothing is left to hear. */
  function Follow(n: nat, place: Place, signal: Signal): Place {
    match (place, signal)
    case (Done, _) => Done
    case (_, LetterOf(j)) => Idle(j)
    case (Idle(i), Silence) => if i + 1 == n then Done else Acted(i)
    case (Acted(_), Silence) => Done
  }

  /** The squares a visit closes: the one left, and the action if it fired. */
  function Closes(place: Place, signal: Signal): nat {
    match (place, signal)
    case (Done, _) => 0
    case (Idle(_), Silence) => 2
    case _ => 1
  }

  /** How far along the board a place is: the number of squares before it. */
  function Rank(n: nat, place: Place): int {
    match place
    case Idle(i) => 3 * i
    case Acted(i) => 3 * i + 2
    case Done => 3 * n - 1
  }

  /** Every visit moves a run at least as far along as the squares it closes. */
  lemma EveryVisitAdvances(n: nat, place: Place, signal: Signal)
    requires IsPlace(n, place) && CanHear(n, place, signal)
    ensures IsPlace(n, Follow(n, place, signal))
    ensures Rank(n, place) + Closes(place, signal) <= Rank(n, Follow(n, place, signal)) <= 3 * n - 1 || place.Done?
    ensures !place.Done? ==> Closes(place, signal) >= 1
  {
  }

  function ClosedOver(n: nat, place: Place, signals: seq<Signal>): nat
    decreases |signals|
  {
    if signals == [] then 0
    else Closes(place, signals[0]) + ClosedOver(n, Follow(n, place, signals[0]), signals[1..])
  }

  ghost predicate CanHearAll(n: nat, place: Place, signals: seq<Signal>)
    decreases |signals|
  {
    signals == [] || (CanHear(n, place, signals[0]) && CanHearAll(n, Follow(n, place, signals[0]), signals[1..]))
  }

  function FollowAll(n: nat, place: Place, signals: seq<Signal>): Place
    decreases |signals|
  {
    if signals == [] then place else FollowAll(n, Follow(n, place, signals[0]), signals[1..])
  }

  /** A run closes at most 3n - 1 squares in its whole life, whatever it hears;
      and any 3n - 1 signals end it. */
  lemma {:induction false} ALifeIsShort(n: nat, place: Place, signals: seq<Signal>)
    requires IsPlace(n, place) && CanHearAll(n, place, signals) && n > 0
    ensures Rank(n, place) + ClosedOver(n, place, signals) <= 3 * n - 1
    ensures Rank(n, place) + |signals| >= 3 * n - 1 ==> FollowAll(n, place, signals) == Done
    decreases |signals|
  {
    if signals != [] {
      EveryVisitAdvances(n, place, signals[0]);
      if place.Done? {
        StaysDone(n, signals);
      } else {
        ALifeIsShort(n, Follow(n, place, signals[0]), signals[1..]);
      }
    }
  }

  lemma {:induction false} StaysDone(n: nat, signals: seq<Signal>)
    ensures FollowAll(n, Done, signals) == Done && ClosedOver(n, Done, signals) == 0
    decreases |signals|
  {
    if signals != [] {
      StaysDone(n, signals[1..]);
    }
  }

  // ---- The board's turns ----

  /** The square a place stands on. */
  function SquareOf(f: seq<Stage>, place: Place): string
    requires IsPlace(|f|, place) && !place.Done?
  {
    if place.Idle? then f[place.stage].at else f[place.stage].after
  }

  /** The answer a run brings to its square. */
  predicate Brings(f: seq<Stage>, run: Run, signal: Signal)
    requires signal.LetterOf? ==> signal.stage < |f|
  {
    Get(run.context, ReplyKey(run.node))
    == if signal.Silence? then None else Some(Text(f[signal.stage].topic))
  }

  /** No goal has been met, the run is not too old, and every word succeeds. */
  ghost predicate Uneventful(doc: Definition, run: Run, world: World) {
    && world.now - run.entered <= doc.maxAge
    && Verdict(GoalTiers(doc.goals), run.context, world.says, 0).None?
    && WordsKeepToThemselves(world)
    && forall k: nat, node: Node, context: Context :: world.performs(k, node, context).Patched?
  }

  /** The topics that are the walker's own words. */
  predicate TopicsAreLetters(f: seq<Stage>) {
    forall i | 0 <= i < |f| :: f[i].topic != TIMEOUT && f[i].topic != ELSE
  }

  lemma {:induction false} FirstLabelledIs(arrows: seq<Arrow>, word: string, k: nat)
    requires k < |arrows| && arrows[k].on == Some(word)
    requires forall l | 0 <= l < k :: arrows[l].on != Some(word)
    ensures FirstLabelled(arrows, word) == Some(arrows[k].dst)
  {
    if k > 0 {
      FirstLabelledIs(arrows[1..], word, k - 1);
    }
  }

  /** The word some later stage is called by is that stage's arrow. */
  lemma LaterStageIsFound(f: seq<Stage>, first: nat, j: nat, after: seq<Arrow>)
    requires FunnelFits(f) && first <= j < |f|
    ensures FirstLabelled(LaterArrows(f, first), f[j].topic) == Some(f[j].at)
    ensures FirstLabelled(LaterArrows(f, first) + after, f[j].topic) == Some(f[j].at)
  {
    LaterArrowsAreLetters(f, first);
    FirstLabelledIs(LaterArrows(f, first), f[j].topic, j - first);
    FirstLabelledIs(LaterArrows(f, first) + after, f[j].topic, j - first);
  }

  /** A word no later stage is called by is found after their arrows, if at all. */
  lemma NoLaterStageIsFound(f: seq<Stage>, first: nat, word: string, dst: string)
    requires first <= |f| && forall j | 0 <= j < |f| :: f[j].topic != word
    ensures FirstLabelled(LaterArrows(f, first), word).None?
    ensures FirstLabelled(LaterArrows(f, first) + [Arrow(dst, Some(word))], word) == Some(dst)
  {
    LaterArrowsAreLetters(f, first);
    FirstLabelledIs(LaterArrows(f, first) + [Arrow(dst, Some(word))], word, |f| - first);
  }

  /** Silence finds the action from the first wait, and nothing from the second. */
  lemma SilenceFindsTheAction(f: seq<Stage>, i: nat)
    requires TopicsAreLetters(f) && i + 1 < |f|
    ensures FirstLabelled(ArrowsAt(f, i), TIMEOUT) == Some(f[i].act)
    ensures FirstLabelled(ArrowsAfter(f, i), TIMEOUT).None? && FirstLabelled(ArrowsAfter(f, i), ELSE).None?
  {
    NoLaterStageIsFound(f, i + 1, TIMEOUT, f[i].act);
    NoLaterStageIsFound(f, i + 1, ELSE, f[i].act);
  }

  /** A turn whose arrow leads to a wait with a clock ends the visit there. */
  lemma TurnOntoAWait(
    doc: Definition, run: Run, world: World, k: nat, s: Walking, node: Node, patch: Context, target: Node)
    requires NodeNamed(doc.nodes, s.at) == Some(node) && node.window.None?
    requires Perform(node, s.context, world, k) == Patched(patch)
    requires PickNext(node, ArrowsFrom(doc.edges, s.at), Merged(s.context, patch)) == Some(target.id)
    requires NodeNamed(doc.nodes, target.id) == Some(target)
    requires IsWait(target) && target.window.None? && target.lasts.Some? && target.lasts.value > 0
    requires s.arrivedAt.Some?
    ensures var turning := TurnOnce(doc, run, world, k, s);
            && turning.Stops? && turning.ending.Writes? && turning.ending.move.Moved?
            && turning.ending.move.node == target.id && |turning.ending.move.steps| == |s.walked| + 1
            && turning.ending.move.wake == world.leftAt(k) + target.lasts.value
  {
  }

  /** A turn with no arrow to take completes the run. */
  lemma TurnEndsTheRun(doc: Definition, run: Run, world: World, k: nat, s: Walking, node: Node, patch: Context)
    requires NodeNamed(doc.nodes, s.at) == Some(node) && node.window.None?
    requires Perform(node, s.context, world, k) == Patched(patch)
    requires PickNext(node, ArrowsFrom(doc.edges, s.at), Merged(s.context, patch)).None?
    requires s.arrivedAt.Some?
    ensures var turning := TurnOnce(doc, run, world, k, s);
            && turning.Stops? && turning.ending.Writes? && turning.ending.move.Exits?
            && turning.ending.move.reason == "completed" && |turning.ending.move.closed| == |s.walked| + 1
  {
  }

  /** A turn whose arrow leads to an action walks on to it. */
  lemma TurnOntoAnAction(
    doc: Definition, run: Run, world: World, k: nat, s: Walking, node: Node, patch: Context, target: Node)
    requires NodeNamed(doc.nodes, s.at) == Some(node) && node.window.None?
    requires Perform(node, s.context, world, k) == Patched(patch)
    requires PickNext(node, ArrowsFrom(doc.edges, s.at), Merged(s.context, patch)) == Some(target.id)
    requires NodeNamed(doc.nodes, target.id) == Some(target) && !IsWait(target) && s.arrivedAt.Some?
    ensures var turning := TurnOnce(doc, run, world, k, s);
            && turning.Onward? && turning.state.at == target.id && turning.state.arrivedAt.Some?
            && |turning.state.walked| == |s.walked| + 1
  {
  }

  // ---- The refinement ----

  /** How long a place waits. */
  function ClockOf(f: seq<Stage>, place: Place): int
    requires IsPlace(|f|, place) && !place.Done?
  {
    if place.Idle? then f[place.stage].idle else f[place.stage].afterAction
  }

  /** A visit that does what the funnel machine does, and sets the next place's
      clock from the instant it left the last square. */
  ghost predicate Follows(f: seq<Stage>, place: Place, signal: Signal, world: World, ending: Ending)
    requires IsPlace(|f|, place) && CanHear(|f|, place, signal)
  {
    var next := Follow(|f|, place, signal);
    && ending.Writes?
    && if next.Done? then
         ending.move.Exits? && ending.move.reason == "completed"
         && |ending.move.closed| == Closes(place, signal)
       else
         ending.move.Moved? && IsPlace(|f|, next) && ending.move.node == SquareOf(f, next)
         && |ending.move.steps| == Closes(place, signal)
         && ending.move.wake == world.leftAt(Closes(place, signal) - 1) + ClockOf(f, next)
  }

  /** The visit's first state brings the signal the run brought. */
  lemma BeginKeepsTheAnswer(run: Run)
    ensures Get(Begin(run).context, ReplyKey(run.node)) == Get(run.context, ReplyKey(run.node))
    ensures Merged(Begin(run).context, map[]) == Begin(run).context
  {
    assert ReplyKey(run.node)[0] != CUT_SHORT_BY_KEY[0];
  }

  /** A later stage's letter, heard on one of a stage's two waits. */
  lemma LetterTurn(
    doc: Definition, run: Run, world: World, node: Node, word: string, target: Node)
    requires NodeNamed(doc.nodes, run.node) == Some(node) && IsWait(node) && node.window.None? && Branches(node)
    requires NodeNamed(doc.nodes, target.id) == Some(target)
    requires IsWait(target) && target.window.None? && target.lasts.Some? && target.lasts.value > 0
    requires Get(run.context, ReplyKey(run.node)) == Some(Text(word)) && run.arrivedAt.Some?
    requires FirstLabelled(ArrowsFrom(doc.edges, run.node), word) == Some(target.id)
    ensures var ending := WalkFrom(doc, run, world, 0, Begin(run));
            && ending.Writes? && ending.move.Moved? && ending.move.node == target.id && |ending.move.steps| == 1
            && ending.move.wake == world.leftAt(0) + target.lasts.value
  {
    BeginKeepsTheAnswer(run);
    TurnOntoAWait(doc, run, world, 0, Begin(run), node, map[], target);
  }

  /** The wait a place stands on. */
  function WaitOf(f: seq<Stage>, place: Place): Node
    requires IsPlace(|f|, place) && !place.Done?
  {
    if place.Idle? then AtNode(f, place.stage) else AfterNode(f, place.stage)
  }

  /** The board's answer to a later stage's letter. */
  ghost predicate Hears(f: seq<Stage>, place: Place, j: nat)
    requires IsPlace(|f|, place) && !place.Done? && place.stage < j < |f|
  {
    && NodeNamed(Drawn(f).nodes, SquareOf(f, place)) == Some(WaitOf(f, place))
    && FirstLabelled(ArrowsFrom(Drawn(f).edges, SquareOf(f, place)), f[j].topic) == Some(f[j].at)
    && NodeNamed(Drawn(f).nodes, f[j].at) == Some(AtNode(f, j)) && f[j].idle > 0
  }

  lemma EveryPlaceHears(f: seq<Stage>, place: Place, j: nat)
    requires FunnelFits(f) && IsPlace(|f|, place) && !place.Done? && place.stage < j < |f|
    ensures Hears(f, place, j)
  {
    EveryPlaceIsNamed(f, place);
    EveryPlaceIsNamed(f, Idle(j));
    if place.Idle? {
      ALetterLeavesTheStage(f, place.stage, j);
    } else {
      ALetterLeavesTheAction(f, place.stage, j);
    }
  }

  lemma EveryPlaceIsNamed(f: seq<Stage>, place: Place)
    requires Apart(f) && IsPlace(|f|, place) && !place.Done?
    ensures NodeNamed(Drawn(f).nodes, SquareOf(f, place)) == Some(WaitOf(f, place))
  {
    StageNodesAreNamed(f, place.stage);
  }

  lemma ALetterLeavesTheStage(f: seq<Stage>, i: nat, j: nat)
    requires FunnelFits(f) && i < j < |f|
    ensures FirstLabelled(ArrowsFrom(Drawn(f).edges, f[i].at), f[j].topic) == Some(f[j].at)
  {
    ArrowsOfBoard(f, i, f[i].at);
    LaterStageIsFound(f, i + 1, j, [Arrow(f[i].act, Some(TIMEOUT))]);
  }

  lemma ALetterLeavesTheAction(f: seq<Stage>, i: nat, j: nat)
    requires FunnelFits(f) && i < j < |f|
    ensures FirstLabelled(ArrowsFrom(Drawn(f).edges, f[i].after), f[j].topic) == Some(f[j].at)
  {
    ArrowsOfBoard(f, i, f[i].after);
    assert StagesApart(f, i, i);
    LaterStageIsFound(f, i + 1, j, []);
  }

  lemma LetterVisit(f: seq<Stage>, doc: Definition, run: Run, world: World, place: Place, j: nat)
    requires IsPlace(|f|, place) && !place.Done? && place.stage < j < |f| && Hears(f, place, j)
    requires doc.nodes == Drawn(f).nodes && doc.edges == Drawn(f).edges
    requires run.node == SquareOf(f, place) && run.arrivedAt.Some? && Brings(f, run, LetterOf(j))
    ensures Follows(f, place, LetterOf(j), world, WalkFrom(doc, run, world, 0, Begin(run)))
  {
    LetterTurn(doc, run, world, WaitOf(f, place), f[j].topic, AtNode(f, j));
  }

  lemma SilenceAfterTheAction(f: seq<Stage>, doc: Definition, run: Run, world: World, i: nat)
    requires FunnelFits(f) && TopicsAreLetters(f) && i + 1 < |f|
    requires doc.nodes == Drawn(f).nodes && doc.edges == Drawn(f).edges
    requires run.node == f[i].after && run.arrivedAt.Some? && Brings(f, run, Silence)
    ensures Follows(f, Acted(i), Silence, world, WalkFrom(doc, run, world, 0, Begin(run)))
  {
    StageNodesAreNamed(f, i);
    BoardArrows(f, i);
    SilenceFindsTheAction(f, i);
    BeginKeepsTheAnswer(run);
    TurnEndsTheRun(doc, run, world, 0, Begin(run), AfterNode(f, i), map[]);
  }

  /** Silence on a stage: its timer's arrow, or the last stage's only one,
      leads onto the action. */
  lemma SilenceLeadsToTheAction(f: seq<Stage>, i: nat, context: Context)
    requires Apart(f) && TopicsAreLetters(f) && i < |f|
    requires Get(context, ReplyKey(f[i].at)).None?
    ensures PickNext(AtNode(f, i), ArrowsFrom(Drawn(f).edges, f[i].at), context) == Some(f[i].act)
  {
    BoardArrows(f, i);
    if i + 1 < |f| {
      SilenceFindsTheAction(f, i);
    }
  }

  lemma SilenceReachesTheAction(f: seq<Stage>, doc: Definition, run: Run, world: World, i: nat)
    requires FunnelFits(f) && TopicsAreLetters(f) && i < |f|
    requires doc.nodes == Drawn(f).nodes && doc.edges == Drawn(f).edges
    requires run.node == f[i].at && run.arrivedAt.Some? && Brings(f, run, Silence)
    ensures var turning := TurnOnce(doc, run, world, 0, Begin(run));
            && turning.Onward? && turning.state.at == f[i].act && turning.state.arrivedAt.Some?
            && |turning.state.walked| == 1
  {
    StageNodesAreNamed(f, i);
    BeginKeepsTheAnswer(run);
    SilenceLeadsToTheAction(f, i, Begin(run).context);
    assert IsStageAction(f[i].action);
    TurnOntoAnAction(doc, run, world, 0, Begin(run), AtNode(f, i), map[], ActNode(f, i));
  }

  /** The action itself: it listens next, or, on the last stage, ends the run. */
  lemma ActionTurn(f: seq<Stage>, doc: Definition, run: Run, world: World, i: nat, s: Walking)
    requires FunnelFits(f) && i < |f|
    requires doc.nodes == Drawn(f).nodes && doc.edges == Drawn(f).edges
    requires s.at == f[i].act && s.arrivedAt.Some? && |s.walked| == 1
    requires world.performs(1, ActNode(f, i), s.context).Patched?
    ensures TurnOnce(doc, run, world, 1, s).Stops?
    ensures Follows(f, Idle(i), Silence, world, TurnOnce(doc, run, world, 1, s).ending)
  {
    if i + 1 < |f| {
      ActionListens(f, doc, run, world, i, s);
    } else {
      ActionEnds(f, doc, run, world, i, s);
    }
  }

  lemma ActionListens(f: seq<Stage>, doc: Definition, run: Run, world: World, i: nat, s: Walking)
    requires FunnelFits(f) && i + 1 < |f|
    requires doc.nodes == Drawn(f).nodes && doc.edges == Drawn(f).edges
    requires s.at == f[i].act && s.arrivedAt.Some? && |s.walked| == 1
    requires world.performs(1, ActNode(f, i), s.context).Patched?
    ensures TurnOnce(doc, run, world, 1, s).Stops?
    ensures Follows(f, Idle(i), Silence, world, TurnOnce(doc, run, world, 1, s).ending)
  {
    StageNodesAreNamed(f, i);
    BoardArrows(f, i);
    var patch := world.performs(1, ActNode(f, i), s.context).patch;
    TurnOntoAWait(doc, run, world, 1, s, ActNode(f, i), patch, AfterNode(f, i));
  }

  lemma ActionEnds(f: seq<Stage>, doc: Definition, run: Run, world: World, i: nat, s: Walking)
    requires FunnelFits(f) && i + 1 == |f|
    requires doc.nodes == Drawn(f).nodes && doc.edges == Drawn(f).edges
    requires s.at == f[i].act && s.arrivedAt.Some? && |s.walked| == 1
    requires world.performs(1, ActNode(f, i), s.context).Patched?
    ensures TurnOnce(doc, run, world, 1, s).Stops?
    ensures Follows(f, Idle(i), Silence, world, TurnOnce(doc, run, world, 1, s).ending)
  {
    StageNodesAreNamed(f, i);
    BoardArrows(f, i);
    var patch := world.performs(1, ActNode(f, i), s.context).patch;
    TurnEndsTheRun(doc, run, world, 1, s, ActNode(f, i), patch);
  }

  lemma SilenceOnAStage(f: seq<Stage>, doc: Definition, run: Run, world: World, i: nat)
    requires FunnelFits(f) && TopicsAreLetters(f) && i < |f|
    requires doc.nodes == Drawn(f).nodes && doc.edges == Drawn(f).edges
    requires run.node == f[i].at && run.arrivedAt.Some? && Brings(f, run, Silence)
    requires forall k: nat, node: Node, context: Context :: world.performs(k, node, context).Patched?
    ensures Follows(f, Idle(i), Silence, world, WalkFrom(doc, run, world, 0, Begin(run)))
  {
    SilenceReachesTheAction(f, doc, run, world, i);
    var s := TurnOnce(doc, run, world, 0, Begin(run)).state;
    ActionTurn(f, doc, run, world, i, s);
    assert WalkFrom(doc, run, world, 0, Begin(run)) == WalkFrom(doc, run, world, 1, s);
  }

  /** Compiler correctness. On an expanded ladder, a visit to a run standing on
      any place of the funnel, bringing any signal, does exactly what the funnel
      machine does: it writes the next place's square with that place's clock, or
      completes the run, and closes one square, or two when the action fires. So it never parks, and
      never as a runaway. */
  lemma LadderVisitsFollowTheFunnel(
    stages: Stages, goals: seq<Goal>, maxAge: int, run: Run, world: World, place: Place, signal: Signal)
    requires IsShaped(stages) && SlugsAreDistinct(stages.order)
    requires TIMEOUT !in stages.order && ELSE !in stages.order
    requires IsPlace(|stages.order|, place) && CanHear(|stages.order|, place, signal) && !place.Done?
    requires var f := StagesOf(stages);
             && run.node == SquareOf(f, place) && run.arrivedAt.Some? && Brings(f, run, signal)
             && Uneventful(LadderDoc(f, goals, maxAge), run, world)
    ensures Follows(StagesOf(stages), place, signal, world,
                    Visit(LadderDoc(StagesOf(stages), goals, maxAge), run, world))
  {
    var f := StagesOf(stages);
    var doc := LadderDoc(f, goals, maxAge);
    LaddersAreFunnels(stages);
    match (place, signal)
    case (_, LetterOf(j)) =>
      EveryPlaceHears(f, place, j);
      LetterVisit(f, doc, run, world, place, j);
    case (Idle(i), Silence) => SilenceOnAStage(f, doc, run, world, i);
    case (Acted(i), Silence) => SilenceAfterTheAction(f, doc, run, world, i);
  }
}
