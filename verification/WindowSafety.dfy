/** What the publish law and the walker's hold guarantee together: nothing is
    dialled out of hours (outreach/plans.py with outreach/walker.py). */
module WindowSafety {
  import opened Wrappers
  import opened Window
  import opened Board
  import opened Steps
  import opened Walker
  import opened Trail
  import opened Plans

  // ---- The turns of a visit ----

  /** The k-th turn goes on, from one state of the loop to the next. */
  ghost predicate GoesOn(doc: Definition, run: Run, world: World, k: nat, s: Walking, after: Walking) {
    TurnOnce(doc, run, world, k, s) == Onward(after)
  }

  /** The loop's variables as each of the visit's first turns begins. */
  ghost predicate IsWalk(doc: Definition, run: Run, world: World, states: seq<Walking>) {
    && 0 < |states| <= MAX_STEPS_PER_VISIT
    && states[0] == Begin(run)
    && forall k: nat | k < |states| - 1 :: GoesOnAt(doc, run, world, states, k)
  }

  ghost predicate GoesOnAt(doc: Definition, run: Run, world: World, states: seq<Walking>, k: nat)
    requires k < |states| - 1
  {
    GoesOn(doc, run, world, k, states[k], states[k + 1])
  }

  /** They are the turns the visit takes: what the walk from the last of them
      ends in, the visit ends in. */
  lemma {:induction false} WalksAreVisits(doc: Definition, run: Run, world: World, states: seq<Walking>, k: nat)
    requires IsWalk(doc, run, world, states) && k < |states|
    ensures WalkFrom(doc, run, world, 0, Begin(run)) == WalkFrom(doc, run, world, k, states[k])
  {
    if k > 0 {
      WalksAreVisits(doc, run, world, states, k - 1);
      assert GoesOnAt(doc, run, world, states, k - 1);
      OneTurnOn(doc, run, world, k - 1, states[k - 1], states[k]);
    }
  }

  lemma OneTurnOn(doc: Definition, run: Run, world: World, i: nat, s: Walking, after: Walking)
    requires i < MAX_STEPS_PER_VISIT && GoesOn(doc, run, world, i, s, after)
    ensures WalkFrom(doc, run, world, i, s) == WalkFrom(doc, run, world, i + 1, after)
  {
  }

  ghost predicate TurnIsOn(doc: Definition, states: seq<Walking>, k: nat, node: Node) {
    k < |states| && NodeNamed(doc.nodes, states[k].at) == Some(node)
  }

  /** The square this turn works on is a call, and it is placed. */
  ghost predicate DialsAt(doc: Definition, world: World, states: seq<Walking>, k: nat, node: Node) {
    TurnIsOn(doc, states, k, node) && node.kind == Call && !Held(node, states[k].context, world.now)
  }

  /** A turn that goes on is not held, and took an arrow to a real square. */
  lemma GoingOnTakesAnArrow(doc: Definition, run: Run, world: World, k: nat, s: Walking, after: Walking)
    requires GoesOn(doc, run, world, k, s, after)
    ensures HasArrow(doc.edges, s.at, after.at) && NodeNamed(doc.nodes, after.at).Some?
    ensures NodeNamed(doc.nodes, s.at).Some? && !Held(NodeNamed(doc.nodes, s.at).value, s.context, world.now)
  {
    var node := NodeNamed(doc.nodes, s.at).value;
    var patch := Perform(node, s.context, world, k).patch;
    var next := PickNext(node, ArrowsFrom(doc.edges, s.at), Merged(s.context, patch)).value;
    assert next == after.at;
  }

  /** After its first turn a visit carries no answer but what its own words
      write as they are walked. */
  lemma {:induction false} WalkedContextsHoldNoAnswers(
    doc: Definition, run: Run, world: World, states: seq<Walking>, k: nat)
    requires WordsKeepToThemselves(world) && OnlyOwnAnswer(doc.nodes, run.node, run.context)
    requires IsWalk(doc, run, world, states) && k < |states|
    ensures OnlyOwnAnswer(doc.nodes, states[k].at, states[k].context)
    ensures k > 0 ==> NoAnswers(states[k].context)
  {
    if k == 0 {
      forall key | HoldsAnswer(Begin(run).context, key) ensures HoldsAnswer(run.context, key) {
      }
    } else {
      WalkedContextsHoldNoAnswers(doc, run, world, states, k - 1);
      assert GoesOnAt(doc, run, world, states, k - 1);
      GoingOnSpendsAnswers(doc, run, world, k - 1, states[k - 1], states[k]);
    }
  }

  lemma GoingOnSpendsAnswers(doc: Definition, run: Run, world: World, k: nat, s: Walking, after: Walking)
    requires WordsKeepToThemselves(world) && OnlyOwnAnswer(doc.nodes, s.at, s.context)
    requires GoesOn(doc, run, world, k, s, after)
    ensures NoAnswers(after.context)
  {
    var node := NodeNamed(doc.nodes, s.at).value;
    LeavingSpendsTheAnswer(doc.nodes, node, s.context, Perform(node, s.context, world, k).patch);
  }

  // ---- The law ----

  /** A letter's arrow is never the timer's, unless the letter says `timeout`. */
  lemma LettersTakeLabelledArrows(node: Node, arrows: seq<Arrow>, context: Context)
    requires Branches(node) && PickNext(node, arrows, context).Some?
    requires Get(context, ReplyKey(node.id)).Some? && Get(context, ReplyKey(node.id)) != Some(Text(TIMEOUT))
    ensures exists arrow | arrow in arrows ::
              arrow.dst == PickNext(node, arrows, context).value && arrow.on != Some(TIMEOUT)
  {
    var answer := Get(context, ReplyKey(node.id)).value;
    var dst := PickNext(node, arrows, context).value;
    if answer.Text? && FirstLabelled(arrows, answer.text).Some? {
      assert Arrow(dst, Some(answer.text)) in arrows;
    } else {
      assert Arrow(dst, Some(ELSE)) in arrows;
      assert ELSE[0] != TIMEOUT[0];
    }
  }

  /** A windowed square left by a letter leads to a wait before any call. */
  lemma LetterOutOfAWindowReachesNoCall(
    doc: Definition, run: Run, world: World, k: nat, s: Walking, after: Walking, node: Node)
    requires NodesAreLawful(doc.nodes) && NoLetterReachesACall(doc)
    requires OnlyOwnAnswer(doc.nodes, s.at, s.context) && NodeNamed(doc.nodes, s.at) == Some(node)
    requires GoesOn(doc, run, world, k, s, after) && node.window.Some?
    requires Get(s.context, ReplyKey(node.id)).Some? && Get(s.context, ReplyKey(node.id)) != Some(Text(TIMEOUT))
    ensures !ReachesACall(doc, after.at)
  {
    assert HoldsAnswer(s.context, ReplyKey(node.id));
    assert NodeIsLawful(node);
    assert Merged(s.context, map[]) == s.context;
    LettersTakeLabelledArrows(node, ArrowsFrom(doc.edges, s.at), s.context);
    assert NodeKeepsItsHours(doc, node);
  }

  /** Every square but a walk's first was reached along an arrow. */
  lemma WalkedOnto(doc: Definition, run: Run, world: World, states: seq<Walking>, turn: nat)
    requires IsWalk(doc, run, world, states) && 0 < turn < |states|
    ensures HasArrow(doc.edges, states[turn - 1].at, states[turn].at) && NodeNamed(doc.nodes, states[turn].at).Some?
  {
    assert GoesOnAt(doc, run, world, states, turn - 1);
    GoingOnTakesAnArrow(doc, run, world, turn - 1, states[turn - 1], states[turn]);
  }

  /** The turns from `from` to `j`, when none before `j` waits, walk straight
      onto the call the last of them places. */
  lemma TurnsReachTheCall(
    doc: Definition, run: Run, world: World, states: seq<Walking>, from: nat, j: nat, call: Node)
    requires IsWalk(doc, run, world, states) && 0 < from <= j && DialsAt(doc, world, states, j, call)
    requires forall k, between | from <= k < j && TurnIsOn(doc, states, k, between) :: !IsWait(between)
    ensures ReachesACall(doc, states[from].at)
  {
    SquaresAct(doc, run, world, states, from, j, call);
    SquaresLeadOn(doc, run, world, states, from, j);
    var path := SquaresOf(states, from, j);
    assert PathBetween(doc, path, states[from].at, states[j].at);
    assert IsCall(doc, states[j].at);
  }

  lemma SquaresAct(doc: Definition, run: Run, world: World, states: seq<Walking>, from: nat, j: nat, call: Node)
    requires IsWalk(doc, run, world, states) && 0 < from <= j && DialsAt(doc, world, states, j, call)
    requires forall turn, between | from <= turn < j && TurnIsOn(doc, states, turn, between) :: !IsWait(between)
    ensures forall k | 0 <= k < |SquaresOf(states, from, j)| :: ActsAt(doc, SquaresOf(states, from, j)[k])
  {
    forall k | 0 <= k < |SquaresOf(states, from, j)| ensures ActsAt(doc, SquaresOf(states, from, j)[k]) {
      WalkedOntoAnAction(doc, run, world, states, from, j, call, k);
    }
  }

  lemma SquaresLeadOn(doc: Definition, run: Run, world: World, states: seq<Walking>, from: nat, j: nat)
    requires IsWalk(doc, run, world, states) && 0 < from <= j < |states|
    ensures var path := SquaresOf(states, from, j);
            forall k | 0 <= k < |path| - 1 :: HasArrow(doc.edges, path[k], path[k + 1])
  {
    var path := SquaresOf(states, from, j);
    forall k | 0 <= k < |path| - 1 ensures HasArrow(doc.edges, path[k], path[k + 1]) {
      WalkedOnto(doc, run, world, states, from + k + 1);
    }
  }

  function SquaresOf(states: seq<Walking>, from: nat, j: nat): seq<string>
    requires from <= j < |states|
  {
    seq(j - from + 1, k requires 0 <= k <= j - from && from <= j < |states| => states[from + k].at)
  }

  lemma WalkedOntoAnAction(
    doc: Definition, run: Run, world: World, states: seq<Walking>, from: nat, j: nat, call: Node, k: nat)
    requires IsWalk(doc, run, world, states) && 0 < from <= j && DialsAt(doc, world, states, j, call) && k <= j - from
    requires forall turn, between | from <= turn < j && TurnIsOn(doc, states, turn, between) :: !IsWait(between)
    ensures ActsAt(doc, states[from + k].at)
  {
    WalkedOnto(doc, run, world, states, from + k);
    assert TurnIsOn(doc, states, from + k, NodeNamed(doc.nodes, states[from + k].at).value);
  }

  /** Whenever a visit leaves a windowed square and places a call before it
      reaches another wait, the timer moved it and the visit's clock is inside
      that window. */
  lemma NoCallIsPlacedOutsideItsWindow(
    doc: Definition, run: Run, world: World, states: seq<Walking>, i: nat, j: nat, node: Node, call: Node)
    requires NodesAreLawful(doc.nodes) && NoLetterReachesACall(doc)
    requires WordsKeepToThemselves(world) && OnlyOwnAnswer(doc.nodes, run.node, run.context)
    requires Get(run.context, ReplyKey(run.node)) != Some(Text(TIMEOUT))
    requires IsWalk(doc, run, world, states)
    requires i < j && TurnIsOn(doc, states, i, node) && node.window.Some?
    requires DialsAt(doc, world, states, j, call)
    requires forall k, between | i < k < j && TurnIsOn(doc, states, k, between) :: !IsWait(between)
    ensures Get(states[i].context, ReplyKey(node.id)).None?
    ensures Open(world.now, node.window.value)
  {
    var s := states[i];
    assert GoesOnAt(doc, run, world, states, i);
    if Get(s.context, ReplyKey(node.id)).Some? {
      WalkedContextsHoldNoAnswers(doc, run, world, states, i);
      assert HoldsAnswer(s.context, ReplyKey(node.id));
      LetterOutOfAWindowReachesNoCall(doc, run, world, i, s, states[i + 1], node);
      TurnsReachTheCall(doc, run, world, states, i + 1, j, call);
      assert false;
    }
    GoingOnTakesAnArrow(doc, run, world, i, s, states[i + 1]);
    OpensAtIsTheNextOpenInstant(world.now, node.window.value);
  }

  // ---- The answer that is literally `timeout` ----

  /** The hours are kept only because no answer spells the timer's own word. On any
      board, a listening, windowed square that holds the answer `timeout`, and
      whose timer arrow leads to a call, is never held: the visit walks straight
      onto the call and places it, at whatever hour it comes. */
  lemma ATimeoutAnswerDialsAtAnyHour(doc: Definition, run: Run, world: World, node: Node, call: Node)
    returns (states: seq<Walking>)
    requires NodeNamed(doc.nodes, run.node) == Some(node) && Listens(node) && node.window.Some?
    requires Get(run.context, ReplyKey(run.node)) == Some(Text(TIMEOUT))
    requires FirstLabelled(ArrowsFrom(doc.edges, run.node), TIMEOUT) == Some(call.id)
    requires NodeNamed(doc.nodes, call.id) == Some(call) && call.kind == Call && call.window.None?
    ensures IsWalk(doc, run, world, states) && |states| == 2
    ensures TurnIsOn(doc, states, 0, node) && DialsAt(doc, world, states, 1, call)
  {
    var s := Begin(run);
    assert ReplyKey(run.node)[0] != CUT_SHORT_BY_KEY[0];
    assert Get(s.context, ReplyKey(run.node)) == Some(Text(TIMEOUT));
    assert Merged(s.context, map[]) == s.context;
    assert PickNext(node, ArrowsFrom(doc.edges, run.node), s.context) == Some(call.id);
    assert Leave(doc, run, s, node, map[], world.leftAt(0)).Onward?;
    states := [s, TurnOnce(doc, run, world, 0, s).state];
    assert GoesOnAt(doc, run, world, states, 0);
  }

  /** A listening, windowed wait whose timer arrow leads to a call. */
  function NightBoard(): Definition {
    Definition(
      [Door("cart", "ask", 0, false)],
      [Node("ask", Wait, Some(MINUTE), ["reply"], Some(Hours(540, 1080, 0, 0)), None),
       Node("ring", Call, None, [], None, None)],
      [Edge("ask", "ring", Some(TIMEOUT))],
      [Goal(["order"], None, 0, "goal_met")], 7 * DAY, Pin)
  }

  function NightRun(): Run {
    Run("run", 1, Waiting, "ask", Some(Stamp(0, 0)), 0, map[ReplyKey("ask") := Text(TIMEOUT)], 1, None, Some(0), None)
  }

  function NightWorld(): World {
    World(0, i => false, (i, node, context) => Patched(map[]), i => 0, 1)
  }

  /** A board that breaks no law, and a letter that answers `timeout`: the visit
      dials at midnight. */
  lemma ALetterSayingTimeoutDialsAtNight() returns (states: seq<Walking>)
    ensures BoardIsLawful(NightBoard())
    ensures OnlyOwnAnswer(NightBoard().nodes, NightRun().node, NightRun().context)
    ensures IsWalk(NightBoard(), NightRun(), NightWorld(), states)
    ensures TurnIsOn(NightBoard(), states, 0, NightBoard().nodes[0])
    ensures DialsAt(NightBoard(), NightWorld(), states, 1, NightBoard().nodes[1])
    ensures !Open(NightWorld().now, NightBoard().nodes[0].window.value)
  {
    var doc, run := NightBoard(), NightRun();
    NightBoardReads();
    NightBoardIsLawful();
    InsideIsOpen(NightWorld().now, doc.nodes[0].window.value);
    states := ATimeoutAnswerDialsAtAnyHour(doc, run, NightWorld(), doc.nodes[0], doc.nodes[1]);
  }

  lemma NightBoardIsLawful()
    ensures BoardIsLawful(NightBoard())
  {
    NightBoardReads();
    NightSquaresAreLawful();
  }

  lemma NightSquaresAreLawful()
    ensures NodesAreLawful(NightBoard().nodes) && ArrowsAreLawful(NightBoard()) && NoLetterReachesACall(NightBoard())
  {
    NightBoardReads();
  }

  lemma NightBoardReads()
    ensures var doc := NightBoard();
            && NodeNamed(doc.nodes, "ask") == Some(doc.nodes[0]) && NodeNamed(doc.nodes, "ring") == Some(doc.nodes[1])
            && ArrowsFrom(doc.edges, "ask") == [Arrow("ring", Some(TIMEOUT))] && ArrowsFrom(doc.edges, "ring") == []
            && DistinctIds(doc.nodes)
  {
    var doc := NightBoard();
    assert "ask"[0] != "ring"[0];
    assert doc.nodes[..1] == [doc.nodes[0]] && doc.edges[..0] == [];
  }
}
