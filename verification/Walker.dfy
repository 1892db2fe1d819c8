/** One visit of the clock to one claimed run (outreach/walker.py).

    What the world says during a visit (the clock, whether a goal's letter
    exists, what each square's word did) is a `World`; everything the code
    decides from it is here. */
module Walker {
  import opened Wrappers
  import opened Window
  import opened Board
  import opened Steps

  const MAX_STEPS_PER_VISIT: nat := 10
  const MAX_ATTEMPTS: nat := 3

  // ---- What a visit reads ----

  /** A square's word either returns a patch, says the document is wrong, or
      fails in passing. */
  datatype Performed = Patched(patch: Context) | ParkedBy(why: string) | RaisedBy(why: string)

  /** `says(i)`: the i-th tier's letter exists. `performs(i, node, context)`:
      what the word of the i-th square walked did. `leftAt(i)`: when that square
      was left. */
  datatype World = World(
    now: int, says: nat -> bool, performs: (nat, Node, Context) -> Performed, leftAt: nat -> int, retryIn: nat)

  datatype PlanStatus = Draft | Live | Paused | Archived

  /** The pinned document: no such version, one that no longer parses, or it. */
  datatype DocRead = Missing | Unreadable | Read(definition: Definition)

  // ---- What a visit writes ----

  datatype Move =
    | Rests
    | Moved(node: string, wake: int, context: Context, arrivedAt: Option<int>, steps: seq<StepRecord>)
    | Exits(reason: string, at: Option<string>, left: Option<Context>, closed: seq<StepRecord>)
    | Parks(defect: Reason)
    | Retries(error: string, delay: nat)

  /** Why a run is parked: the document is wrong in one of four ways, a square's
      word said so, or a failure used up the attempts. */
  datatype Reason =
    | VersionMissing
    | SquareMissing
    | ArrowIntoNowhere
    | Runaway
    | Word(why: string)
    | Exhausted(error: string)

  function Sentence(reason: Reason): string {
    match reason
    case VersionMissing => "definition missing"
    case SquareMissing => "node not in definition"
    case ArrowIntoNowhere => "edge points at unknown node"
    case Runaway => "immediate nodes in one visit: runaway document"
    case Word(why) => why
    case Exhausted(error) => "attempts exhausted: " + error
  }

  /** How the board's part of a visit stops. */
  datatype Ending = Writes(move: Move) | Defect(reason: Reason) | Failure(error: string)

  // ---- Goals ----

  /** Can this tier be asked about this run at all? A keyed tier needs the
      run's value; a tier with conditions needs a key. */
  predicate Askable(tier: Goal, context: Context) {
    && (tier.key.Some? ==> Get(context, tier.key.value.run) !in {None, Some(Text(""))})
    && (tier.conditions > 0 ==> tier.key.Some?)
  }

  /** The first tier, in judging order, that the run's letters satisfy. */
  function Verdict(tiers: seq<Goal>, context: Context, says: nat -> bool, from: nat): (hit: Option<nat>)
    requires from <= |tiers|
    ensures hit.Some? ==>
              && from <= hit.value < |tiers| && Askable(tiers[hit.value], context) && says(hit.value)
              && forall i | from <= i < hit.value :: !(Askable(tiers[i], context) && says(i))
    ensures hit.None? ==> forall i | from <= i < |tiers| :: !(Askable(tiers[i], context) && says(i))
    decreases |tiers| - from
  {
    if from == |tiers| then None
    else if Askable(tiers[from], context) && says(from) then Some(from)
    else Verdict(tiers, context, says, from + 1)
  }

  /** A keyed tier that holds is always preferred to an unkeyed one. */
  lemma KeyedTiersWin(goals: seq<Goal>, context: Context, says: nat -> bool, i: nat)
    requires i < |GoalTiers(goals)| && GoalTiers(goals)[i].key.Some?
    requires Askable(GoalTiers(goals)[i], context) && says(i)
    ensures Verdict(GoalTiers(goals), context, says, 0).Some?
    ensures GoalTiers(goals)[Verdict(GoalTiers(goals), context, says, 0).value].key.Some?
  {
    var keyed, plain := TiersOf(goals, true), TiersOf(goals, false);
    var hit := Verdict(GoalTiers(goals), context, says, 0).value;
    if i >= |keyed| {
      assert plain[i - |keyed|] in plain;
      TiersAreTheGoals(goals, false, plain[i - |keyed|]);
    }
    assert keyed[hit] in keyed;
    TiersAreTheGoals(goals, true, keyed[hit]);
  }

  // ---- The loop ----

  /** The loop's variables: the square in hand, the context as walked, and the
      squares this visit has closed. */
  datatype Walking = Walking(
    at: string, context: Context, arrivedAt: Option<int>, arrivedBy: ArrivedBy, walked: seq<StepRecord>,
    cutShortBy: Option<string>, first: bool)

  datatype Turning = Onward(state: Walking) | Stops(ending: Ending)

  function Begin(run: Run): Walking {
    var cut := LetterLeft(run.context);
    Walking(run.node, run.context - {CUT_SHORT_BY_KEY}, run.arrivedAt, FirstArrival(run, cut), [], cut, true)
  }

  /** Outside a window's hours a timer waits for the opening; a letter never
      does. */
  predicate Held(node: Node, context: Context, now: int) {
    node.window.Some? && Get(context, ReplyKey(node.id)).None? && OpensAt(now, node.window.value) > now
  }

  /** The hold writes the run back onto the square it stands on, the letter
      that woke it included. */
  function Hold(node: Node, now: int, s: Walking): Move
    requires node.window.Some?
  {
    Moved(
      node.id, OpensAt(now, node.window.value),
      if s.cutShortBy.Some? then s.context[CUT_SHORT_BY_KEY := Text(s.cutShortBy.value)] else s.context,
      if s.first then None else s.arrivedAt, s.walked)
  }

  /** A wait's action is its alarm: nothing runs on it. */
  function Perform(node: Node, context: Context, world: World, i: nat): Performed {
    if IsWait(node) then Patched(map[]) else world.performs(i, node, context)
  }

  /** What this square just handed to a dispatcher, read from its own patch. */
  function DispatchId(patch: Context, id: string): Option<string> {
    var lead := Get(patch, "lead_" + id);
    var message := Get(patch, "message_" + id);
    if lead.Some? && lead.value != Text("") then Some(Str(lead.value))
    else if message.Some? && message.value != Text("") then Some(Str(message.value))
    else None
  }

  function Said(patch: Context): Option<string> {
    var said := Get(patch, OUTCOME_KEY);
    if said.Some? then Some(Str(said.value)) else None
  }

  /** A branching square's outcome is the answer that resolved it. */
  function OutcomeOf(node: Node, patch: Context, context: Context): Option<string> {
    if Branches(node) then
      var answer := Get(context, ReplyKey(node.id));
      Some(if answer.None? then TIMEOUT else Str(answer.value))
    else Said(patch)
  }

  function Merged(context: Context, patch: Context): Context {
    context + (patch - {OUTCOME_KEY})
  }

  /** Leaving a branching square spends its answer. */
  function Spent(node: Node, context: Context): Context {
    if Branches(node) then WithoutReply(context, node.id) else context
  }

  /** Leaving `node`: the run ends, waits on the next square, or walks on. */
  function Leave(doc: Definition, run: Run, s: Walking, node: Node, patch: Context, leftAt: int): Turning {
    var context := Merged(s.context, patch);
    var next := PickNext(node, ArrowsFrom(doc.edges, s.at), context);
    var after := Spent(node, context);
    var walked := s.walked + Step(
      node, s.arrivedAt, leftAt, s.arrivedBy, OutcomeOf(node, patch, context), next, run, s.cutShortBy, s.first,
      DispatchId(patch, node.id));
    match next
    case None => Stops(Writes(Exits("completed", Some(s.at), Some(after), walked)))
    case Some(id) =>
      match NodeNamed(doc.nodes, id)
      case None => Stops(Defect(ArrowIntoNowhere))
      case Some(target) =>
        var wake := Alarm(target, leftAt, run.entered + doc.maxAge);
        if IsWait(target) && wake > leftAt then
          Stops(Writes(Moved(id, wake, after, Some(leftAt), walked)))
        else
          Onward(Walking(id, after, Some(leftAt), ByWalk, walked, None, false))
  }

  /** One turn of the loop. */
  function TurnOnce(doc: Definition, run: Run, world: World, i: nat, s: Walking): Turning {
    match NodeNamed(doc.nodes, s.at)
    case None => Stops(Defect(SquareMissing))
    case Some(node) =>
      if Held(node, s.context, world.now) then Stops(Writes(Hold(node, world.now, s)))
      else
        match Perform(node, s.context, world, i)
        case ParkedBy(why) => Stops(Defect(Word(why)))
        case RaisedBy(why) => Stops(Failure(why))
        case Patched(patch) => Leave(doc, run, s, node, patch, world.leftAt(i))
  }

  function WalkFrom(doc: Definition, run: Run, world: World, i: nat, s: Walking): Ending
    requires i <= MAX_STEPS_PER_VISIT
    decreases MAX_STEPS_PER_VISIT - i
  {
    if i == MAX_STEPS_PER_VISIT then Defect(Runaway)
    else
      match TurnOnce(doc, run, world, i, s)
      case Stops(ending) => ending
      case Onward(after) => WalkFrom(doc, run, world, i + 1, after)
  }

  /** One visit: the age ceiling, then the goals, then the board. */
  function Visit(doc: Definition, run: Run, world: World): Ending {
    if world.now - run.entered > doc.maxAge then
      Writes(Exits("timed_out", None, None, Closing(run, Some(doc), "timed_out", world.now, None)))
    else
      var tiers := GoalTiers(doc.goals);
      match Verdict(tiers, run.context, world.says, 0)
      case Some(i) =>
        Writes(Exits(tiers[i].exitReason, None, None,
                     Closing(run, Some(doc), tiers[i].exitReason, world.now, None)))
      case None => WalkFrom(doc, run, world, 0, Begin(run))
  }

  /** What a defect, or a failure with its attempts spent, becomes. */
  function Settled(run: Run, world: World, ending: Ending): Move {
    match ending
    case Writes(move) => move
    case Defect(reason) => Parks(reason)
    case Failure(error) =>
      if run.attempts >= MAX_ATTEMPTS then Parks(Exhausted(error)) else Retries(error, world.retryIn)
  }

  /** `walk_run`: the plan's status first, then the document the run is pinned
      to. An archived plan releases the run even when that document is gone. */
  function WalkRun(run: Run, status: Option<PlanStatus>, read: DocRead, world: World): Move {
    if run.wake.None? then Rests
    else if status.None? || status.value == Archived then
      Exits("ejected", None, None,
            Closing(run, if read.Read? then Some(read.definition) else None, "ejected", world.now, None))
    else if status.value == Paused then Rests
    else
      Settled(run, world,
              match read
              case Missing => Defect(VersionMissing)
              case Unreadable => Failure("definition unreadable")
              case Read(doc) => Visit(doc, run, world))
  }

  /** Whether a run is over is settled before any square acts: on an archived or a
      paused plan, past its age, or with a goal met, no word of a square is asked
      for anything, so a customer who bought is not called. */
  lemma NothingActsOnAFinishedRun(
    run: Run, status: Option<PlanStatus>, doc: Definition, world: World,
    performs: (nat, Node, Context) -> Performed, leftAt: nat -> int)
    requires || status !in {Some(Live), Some(Draft)} || world.now - run.entered > doc.maxAge
             || exists i | 0 <= i < |GoalTiers(doc.goals)| ::
                  Askable(GoalTiers(doc.goals)[i], run.context) && world.says(i)
    ensures WalkRun(run, status, Read(doc), world)
            == WalkRun(run, status, Read(doc), world.(performs := performs, leftAt := leftAt))
    ensures var move := WalkRun(run, status, Read(doc), world);
            move.Rests? || (move.Exits? && move.left.None?)
  {
    if status in {Some(Live), Some(Draft)} {
      AFinishedVisitOnlyExits(run, doc, world);
      AFinishedVisitOnlyExits(run, doc, world.(performs := performs, leftAt := leftAt));
    }
  }

  lemma AFinishedVisitOnlyExits(run: Run, doc: Definition, world: World)
    requires || world.now - run.entered > doc.maxAge
             || exists i | 0 <= i < |GoalTiers(doc.goals)| ::
                  Askable(GoalTiers(doc.goals)[i], run.context) && world.says(i)
    ensures var tiers := GoalTiers(doc.goals);
            var reason := if world.now - run.entered > doc.maxAge then "timed_out"
                          else tiers[Verdict(tiers, run.context, world.says, 0).value].exitReason;
            Visit(doc, run, world)
            == Writes(Exits(reason, None, None, Closing(run, Some(doc), reason, world.now, None)))
  {
  }

  /** The goal re-check, tier by tier. */
  method JudgeGoals(doc: Definition, run: Run, world: World) returns (reason: Option<string>)
    ensures var tiers := GoalTiers(doc.goals);
            var hit := Verdict(tiers, run.context, world.says, 0);
            reason == (if hit.Some? then Some(tiers[hit.value].exitReason) else None)
  {
    var tiers := GoalTiers(doc.goals);
    for i := 0 to |tiers|
      invariant Verdict(tiers, run.context, world.says, 0) == Verdict(tiers, run.context, world.says, i)
    {
      var tier := tiers[i];
      var keyed := false;
      if tier.key.Some? {
        var value := Get(run.context, tier.key.value.run);
        if value == None || value == Some(Text("")) {
          continue;
        }
        keyed := true;
      }
      if tier.conditions > 0 && !keyed {
        continue;
      }
      if world.says(i) {
        return Some(tier.exitReason);
      }
    }
    return None;
  }

  /** The tail of a turn: the square has done its work, so it is closed and the
      token goes where its arrow points. */
  method LeaveSquare(doc: Definition, run: Run, s: Walking, node: Node, patch: Context, leftAt: int)
    returns (turning: Turning)
    ensures turning == Leave(doc, run, s, node, patch, leftAt)
  {
    var context := s.context + (patch - {OUTCOME_KEY});
    var next := PickNext(node, ArrowsFrom(doc.edges, s.at), context);
    var outcome := Said(patch);
    if Branches(node) {
      var answer := Get(context, ReplyKey(node.id));
      outcome := Some(if answer.None? then TIMEOUT else Str(answer.value));
      context := WithoutReply(context, node.id);
    }
    var walked := s.walked + Step(
      node, s.arrivedAt, leftAt, s.arrivedBy, outcome, next, run, s.cutShortBy, s.first, DispatchId(patch, node.id));
    if next.None? {
      return Stops(Writes(Exits("completed", Some(s.at), Some(context), walked)));
    }
    var target := NodeNamed(doc.nodes, next.value);
    if target.None? {
      return Stops(Defect(ArrowIntoNowhere));
    }
    if IsWait(target.value) {
      var wake := Alarm(target.value, leftAt, run.entered + doc.maxAge);
      if wake > leftAt {
        return Stops(Writes(Moved(next.value, wake, context, Some(leftAt), walked)));
      }
    }
    return Onward(Walking(next.value, context, Some(leftAt), ByWalk, walked, None, false));
  }

  /** One turn: hold, act, or be told the document is wrong. */
  method TakeTurn(doc: Definition, run: Run, world: World, i: nat, s: Walking) returns (turning: Turning)
    ensures turning == TurnOnce(doc, run, world, i, s)
  {
    var found := NodeNamed(doc.nodes, s.at);
    if found.None? {
      return Stops(Defect(SquareMissing));
    }
    var node := found.value;
    if node.window.Some? && Get(s.context, ReplyKey(node.id)).None? {
      if OpensAt(world.now, node.window.value) > world.now {
        return Stops(Writes(Hold(node, world.now, s)));
      }
    }
    var patch: Context := map[];
    if !IsWait(node) {
      match world.performs(i, node, s.context) {
        case ParkedBy(why) => return Stops(Defect(Word(why)));
        case RaisedBy(why) => return Stops(Failure(why));
        case Patched(written) => patch := written;
      }
    }
    turning := LeaveSquare(doc, run, s, node, patch, world.leftAt(i));
  }

  /** The board's part: consecutive immediate squares under the one claim. */
  method WalkTheBoard(doc: Definition, run: Run, world: World) returns (ending: Ending)
    ensures ending == WalkFrom(doc, run, world, 0, Begin(run))
  {
    var s := Begin(run);
    for i := 0 to MAX_STEPS_PER_VISIT
      invariant WalkFrom(doc, run, world, 0, Begin(run)) == WalkFrom(doc, run, world, i, s)
    {
      var turning := TakeTurn(doc, run, world, i, s);
      if turning.Stops? {
        return turning.ending;
      }
      s := turning.state;
    }
    return Defect(Runaway);
  }

  /** The visit as the walker runs it: exits judged first, then the board. */
  method Advance(doc: Definition, run: Run, world: World) returns (ending: Ending)
    ensures ending == Visit(doc, run, world)
  {
    if world.now - run.entered > doc.maxAge {
      return Writes(Exits("timed_out", None, None, Closing(run, Some(doc), "timed_out", world.now, None)));
    }
    var reason := JudgeGoals(doc, run, world);
    if reason.Some? {
      return Writes(Exits(reason.value, None, None, Closing(run, Some(doc), reason.value, world.now, None)));
    }
    ending := WalkTheBoard(doc, run, world);
  }
}
