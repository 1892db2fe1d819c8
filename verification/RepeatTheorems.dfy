/** What becomes of a repeat: taken once, or lost under a visit and taken again
    (outreach/repeat.py with outreach/walker.py). */
module RepeatTheorems {
  import opened Wrappers
  import opened Board
  import opened Steps
  import opened Walker
  import opened Entry
  import opened Lease
  import opened RunHistory
  import opened RunTheorems

  /** Some walker holds the run's lease. */
  ghost predicate HoldsTheLease(s: State, w: nat) {
    w in s.visits && s.row.wake == s.visits[w].run.wake && s.row.wake.Some?
  }

  /** A move that advances the run or completes it writes the context as it was
      walked; any other leaves the row's own. */
  function ContextWritten(move: Move): Option<Context> {
    match move
    case Moved(_, _, context, _, _) => Some(context)
    case Exits(_, _, left, _) => left
    case _ => None
  }

  /** A square's word writes neither the founding mark nor the repeats'. */
  ghost predicate WordsLeaveTheMarks(world: World) {
    forall i: nat, node: Node, context: Context | world.performs(i, node, context).Patched? ::
      LeavesTheMarks(world.performs(i, node, context).patch)
  }

  predicate LeavesTheMarks(patch: Context) {
    REPEAT_EVENTS_KEY !in patch && SOURCE_EVENT_KEY !in patch
  }

  /** The letters a context is marked with: its repeats', and its founder's. */
  datatype Marks = Marks(repeats: Option<Value>, founder: Option<Value>)

  function MarksOf(context: Context): Marks {
    Marks(Get(context, REPEAT_EVENTS_KEY), Get(context, SOURCE_EVENT_KEY))
  }

  lemma MarksAreNotTheWalkers(id: string)
    ensures {REPEAT_EVENTS_KEY, SOURCE_EVENT_KEY} !! {OUTCOME_KEY, CUT_SHORT_BY_KEY, ReplyKey(id)}
  {
    NamesThatAreNotAnswers();
    assert IsReplyKey(ReplyKey(id));
    assert REPEAT_EVENTS_KEY[0] != OUTCOME_KEY[0] && REPEAT_EVENTS_KEY[0] != CUT_SHORT_BY_KEY[0];
    assert SOURCE_EVENT_KEY[0] != OUTCOME_KEY[0] && SOURCE_EVENT_KEY[0] != CUT_SHORT_BY_KEY[0];
  }

  lemma LeavingKeepsTheMarks(node: Node, context: Context, patch: Context)
    requires LeavesTheMarks(patch)
    ensures MarksOf(Spent(node, Merged(context, patch))) == MarksOf(context)
  {
    MarksAreNotTheWalkers(node.id);
  }

  lemma HoldingKeepsTheMarks(node: Node, now: int, s: Walking)
    requires node.window.Some?
    ensures MarksOf(Hold(node, now, s).context) == MarksOf(s.context)
  {
    MarksAreNotTheWalkers(node.id);
  }

  predicate EndsWithTheMarks(marks: Marks, ending: Ending) {
    ending.Writes? ==> MoveHasTheMarks(marks, ending.move)
  }

  predicate MoveHasTheMarks(marks: Marks, move: Move) {
    ContextWritten(move).Some? ==> MarksOf(ContextWritten(move).value) == marks
  }

  lemma {:induction false} WalkingKeepsTheMarks(
    doc: Definition, run: Run, world: World, i: nat, s: Walking, marks: Marks)
    requires i <= MAX_STEPS_PER_VISIT && WordsLeaveTheMarks(world) && MarksOf(s.context) == marks
    ensures EndsWithTheMarks(marks, WalkFrom(doc, run, world, i, s))
    decreases MAX_STEPS_PER_VISIT - i
  {
    if i < MAX_STEPS_PER_VISIT {
      var turning := TurnOnce(doc, run, world, i, s);
      TurnsKeepTheMarks(doc, run, world, i, s);
      if turning.Onward? {
        WalkingKeepsTheMarks(doc, run, world, i + 1, turning.state, marks);
      }
    }
  }

  lemma TurnsKeepTheMarks(doc: Definition, run: Run, world: World, i: nat, s: Walking)
    requires WordsLeaveTheMarks(world)
    ensures var turning := TurnOnce(doc, run, world, i, s);
            && (turning.Stops? ==> EndsWithTheMarks(MarksOf(s.context), turning.ending))
            && (turning.Onward? ==> MarksOf(turning.state.context) == MarksOf(s.context))
  {
    var found := NodeNamed(doc.nodes, s.at);
    if found.Some? {
      if Held(found.value, s.context, world.now) {
        HoldingKeepsTheMarks(found.value, world.now, s);
      } else {
        var performed := Perform(found.value, s.context, world, i);
        if performed.Patched? {
          LeavingKeepsTheMarks(found.value, s.context, performed.patch);
        }
      }
    }
  }

  lemma BeginningKeepsTheMarks(run: Run)
    ensures MarksOf(Begin(run).context) == MarksOf(run.context)
  {
    MarksAreNotTheWalkers(run.node);
  }

  /** Whatever context a visit writes is marked as the one it claimed. */
  lemma VisitsKeepTheMarks(run: Run, status: Option<PlanStatus>, read: DocRead, world: World)
    requires WordsLeaveTheMarks(world)
    ensures MoveHasTheMarks(MarksOf(run.context), WalkRun(run, status, read, world))
  {
    if read.Read? {
      BeginningKeepsTheMarks(run);
      WalkingKeepsTheMarks(read.definition, run, world, 0, Begin(run), MarksOf(run.context));
      BoardsKeepTheMarks(run, read.definition, world, MarksOf(run.context));
    }
  }

  lemma BoardsKeepTheMarks(run: Run, doc: Definition, world: World, marks: Marks)
    requires EndsWithTheMarks(marks, WalkFrom(doc, run, world, 0, Begin(run)))
    ensures EndsWithTheMarks(marks, Visit(doc, run, world))
  {
  }

  predicate TakesTheRepeat(plan: Plan, s: State, at: int, letter: Letter, door: Door, policy: RepeatPlan) {
    RepeatStatement(s.row, RepeatFacts(letter, plan.maxChars), letter.id, door, policy, at, s.nextGen).Some?
  }

  /** A repeat is taken while a visit is in flight, and then the visit writes,
      whatever it decided. The letter's mark is still on the row if and only if
      its debounce outlasts the lease, or the visit writes no context: it rests,
      parks, is retried, or ends the run without a walk. */
  lemma RepeatSurvivesAVisitIff(
    plan: Plan, s: State, at: int, letter: Letter, door: Door, policy: RepeatPlan, later: int, w: nat,
    status: Option<PlanStatus>, read: DocRead, world: World)
    requires Inv(plan, s) && HoldsTheLease(s, w) && WordsLeaveTheMarks(world)
    requires TakesTheRepeat(plan, s, at, letter, door, policy)
    ensures var patched := Next(plan, s, at, Repeat(letter, door, policy));
            var move := WalkRun(s.visits[w].run, status, read, world);
            var after := Next(plan, patched, later, Land(w, status, read, world));
            letter.id in RepeatEvents(after.row.context) <==>
            Outlasts(door, at, s.row.wake.value) || ContextWritten(move).None?
  {
    ATakenLetterIsNew(plan, s, at, letter, door, policy);
    VisitsWriteWhatTheyRead(plan, s, w, letter.id, status, read, world);
    RepeatMarks(plan, s, at, letter, door, policy);
    LandingsAreMoves(plan, Next(plan, s, at, Repeat(letter, door, policy)), later, w, status, read, world,
                     s.visits[w].run);
    RepeatSurvivesAMoveIff(
      plan, s, at, letter, door, policy, later, w, WalkRun(s.visits[w].run, status, read, world));
  }

  /** A visit holding the lease has read no letter the row is not marked with. */
  lemma VisitsWriteWhatTheyRead(
    plan: Plan, s: State, w: nat, letter: string, status: Option<PlanStatus>, read: DocRead, world: World)
    requires Inv(plan, s) && HoldsTheLease(s, w) && WordsLeaveTheMarks(world)
    requires letter !in RepeatEvents(s.row.context) && Get(s.row.context, SOURCE_EVENT_KEY) != Some(Text(letter))
    ensures var written := ContextWritten(WalkRun(s.visits[w].run, status, read, world));
            written.Some? ==>
              letter !in RepeatEvents(written.value) && Get(written.value, SOURCE_EVENT_KEY) != Some(Text(letter))
  {
    assert VisitFits(s, s.visits[w]);
    VisitsKeepTheMarks(s.visits[w].run, status, read, world);
  }

  lemma LandingsAreMoves(
    plan: Plan, s: State, at: int, w: nat, status: Option<PlanStatus>, read: DocRead, world: World, run: Run)
    requires w in s.visits && s.visits[w].run == run
    ensures Next(plan, s, at, Land(w, status, read, world)) == Landed(s, at, w, WalkRun(run, status, read, world))
  {
  }

  lemma RepeatSurvivesAMoveIff(
    plan: Plan, s: State, at: int, letter: Letter, door: Door, policy: RepeatPlan, later: int, w: nat, move: Move)
    requires RowFits(s) && HoldsTheLease(s, w) && TakesTheRepeat(plan, s, at, letter, door, policy)
    requires ContextWritten(move).Some? ==> letter.id !in RepeatEvents(ContextWritten(move).value)
    ensures var after := Landed(Next(plan, s, at, Repeat(letter, door, policy)), later, w, move);
            letter.id in RepeatEvents(after.row.context) <==>
            Outlasts(door, at, s.row.wake.value) || ContextWritten(move).None?
  {
    RepeatMarks(plan, s, at, letter, door, policy);
    var patched := Next(plan, s, at, Repeat(letter, door, policy));
    if Outlasts(door, at, s.row.wake.value) {
      LandedMoveTakesIff(patched, later, w, move);
    }
  }

  lemma RepeatMarks(plan: Plan, s: State, at: int, letter: Letter, door: Door, policy: RepeatPlan)
    requires s.row.wake.Some? && TakesTheRepeat(plan, s, at, letter, door, policy)
    ensures var patched := Next(plan, s, at, Repeat(letter, door, policy));
            && letter.id in RepeatEvents(patched.row.context) && patched.row.status == Waiting
            && patched.visits == s.visits && patched.nextGen == s.nextGen + 1
            && patched.row.wake
               == (if Outlasts(door, at, s.row.wake.value) then Some(Stamp(at + door.debounce, s.nextGen))
                   else s.row.wake)
  {
  }

  /** A visit that moves the run over a short repeat leaves the row as if the
      letter had never come. */
  lemma AShortRepeatLeavesNoTrace(
    plan: Plan, s: State, at: int, letter: Letter, door: Door, policy: RepeatPlan, later: int, w: nat, move: Move)
    requires RowFits(s) && HoldsTheLease(s, w) && move.Moved?
    requires TakesTheRepeat(plan, s, at, letter, door, policy)
    ensures var patched := Next(plan, s, at, Repeat(letter, door, policy));
            Landed(patched, later, w, move).row == Landed(s.(nextGen := patched.nextGen), later, w, move).row
            <==> !Outlasts(door, at, s.row.wake.value)
  {
    RepeatMarks(plan, s, at, letter, door, policy);
  }

  /** ... and then the same letter, delivered again, is taken again: the mark
      that should have refused it went with the repeat. */
  lemma ALostRepeatIsTakenTwice(
    plan: Plan, s: State, at: int, letter: Letter, door: Door, policy: RepeatPlan, later: int, w: nat,
    status: Option<PlanStatus>, read: DocRead, world: World, again: int)
    requires Inv(plan, s) && HoldsTheLease(s, w) && WordsLeaveTheMarks(world)
    requires TakesTheRepeat(plan, s, at, letter, door, policy) && !Outlasts(door, at, s.row.wake.value)
    requires var move := WalkRun(s.visits[w].run, status, read, world);
             move.Moved? && (door.restartOnRepeat || move.node == door.start)
    ensures var lost := Next(plan, Next(plan, s, at, Repeat(letter, door, policy)), later,
                             Land(w, status, read, world));
            && letter.id !in RepeatEvents(lost.row.context)
            && TakesTheRepeat(plan, lost, again, letter, door, policy)
            && letter.id in RepeatEvents(Next(plan, lost, again, Repeat(letter, door, policy)).row.context)
  {
    ATakenLetterIsNew(plan, s, at, letter, door, policy);
    VisitsWriteWhatTheyRead(plan, s, w, letter.id, status, read, world);
    RepeatMarks(plan, s, at, letter, door, policy);
    LandingsAreMoves(plan, Next(plan, s, at, Repeat(letter, door, policy)), later, w, status, read, world,
                     s.visits[w].run);
    AMovedRunTakesItAgain(
      plan, s, at, letter, door, policy, later, w, WalkRun(s.visits[w].run, status, read, world), again);
  }

  lemma AMovedRunTakesItAgain(
    plan: Plan, s: State, at: int, letter: Letter, door: Door, policy: RepeatPlan, later: int, w: nat, move: Move,
    again: int)
    requires RowFits(s) && HoldsTheLease(s, w) && TakesTheRepeat(plan, s, at, letter, door, policy)
    requires !Outlasts(door, at, s.row.wake.value)
    requires move.Moved? && (door.restartOnRepeat || move.node == door.start)
    requires letter.id !in RepeatEvents(move.context) && Get(move.context, SOURCE_EVENT_KEY) != Some(Text(letter.id))
    ensures var lost := Landed(Next(plan, s, at, Repeat(letter, door, policy)), later, w, move);
            && letter.id !in RepeatEvents(lost.row.context)
            && TakesTheRepeat(plan, lost, again, letter, door, policy)
            && letter.id in RepeatEvents(Next(plan, lost, again, Repeat(letter, door, policy)).row.context)
  {
    ATakenLetterIsNew(plan, s, at, letter, door, policy);
    TheMoveIsTheRow(plan, s, at, letter, door, policy, later, w, move);
    var lost := Landed(Next(plan, s, at, Repeat(letter, door, policy)), later, w, move);
    RepeatLeavesItsMark(plan, lost, again, letter, door, policy);
  }

  lemma ATakenLetterIsNew(plan: Plan, s: State, at: int, letter: Letter, door: Door, policy: RepeatPlan)
    requires TakesTheRepeat(plan, s, at, letter, door, policy)
    ensures letter.id !in RepeatEvents(s.row.context)
    ensures Get(s.row.context, SOURCE_EVENT_KEY) != Some(Text(letter.id))
    ensures !IsNoop(RepeatFacts(letter, plan.maxChars), door, policy)
  {
  }

  lemma TheMoveIsTheRow(
    plan: Plan, s: State, at: int, letter: Letter, door: Door, policy: RepeatPlan, later: int, w: nat, move: Move)
    requires RowFits(s) && HoldsTheLease(s, w) && move.Moved? && !Outlasts(door, at, s.row.wake.value)
    requires TakesTheRepeat(plan, s, at, letter, door, policy)
    ensures var lost := Landed(Next(plan, s, at, Repeat(letter, door, policy)), later, w, move).row;
            lost.context == move.context && lost.node == move.node && lost.status == Waiting && lost.wake.Some?
  {
    RepeatMarks(plan, s, at, letter, door, policy);
  }

  lemma RepeatLeavesItsMark(plan: Plan, s: State, at: int, letter: Letter, door: Door, policy: RepeatPlan)
    requires s.row.status == Waiting && s.row.wake.Some? && (door.restartOnRepeat || s.row.node == door.start)
    requires !IsNoop(RepeatFacts(letter, plan.maxChars), door, policy)
    requires letter.id !in RepeatEvents(s.row.context)
    requires Get(s.row.context, SOURCE_EVENT_KEY) != Some(Text(letter.id))
    ensures TakesTheRepeat(plan, s, at, letter, door, policy)
    ensures letter.id in RepeatEvents(Next(plan, s, at, Repeat(letter, door, policy)).row.context)
  {
  }

  /** Left alone, a repeat is taken once: its mark refuses every redelivery. */
  lemma RepeatsAreTakenOnce(plan: Plan, s: State, at: int, again: int, letter: Letter, door: Door, policy: RepeatPlan)
    ensures var once := Next(plan, s, at, Repeat(letter, door, policy));
            var facts := RepeatFacts(letter, plan.maxChars);
            RepeatStatement(s.row, facts, letter.id, door, policy, at, s.nextGen).Some? ==>
              Next(plan, once, again, Repeat(letter, door, policy)).row == once.row
  {
  }

  // ---- The founding letter ----

  /** The run, and every claim of it in flight, is marked as founded by this letter. */
  ghost predicate IsFoundedBy(s: State, letter: string) {
    && MarksOf(s.row.context).founder == Some(Text(letter))
    && forall w | w in s.visits :: MarksOf(s.visits[w].run.context).founder == Some(Text(letter))
  }

  lemma LettersKeepTheFounder(context: Context, letter: Letter, maxChars: nat, square: string, answer: string)
    ensures var founder := MarksOf(context).founder;
            && MarksOf(context + ReplyPatch(square, letter, answer) + map[FACTS_KEY := Other("facts")]).founder
               == founder
            && MarksOf(context + LetterFacts(letter, maxChars) + map[CUT_SHORT_BY_KEY := Text(letter.id)]).founder
               == founder
            && MarksOf(context[GOAL_KEY := Other("goal")]).founder == founder
  {
    NamesThatAreNotAnswers();
    MarksAreNotTheWalkers(square);
    assert SOURCE_EVENT_KEY in BOOKKEEPING_KEYS;
    assert SOURCE_EVENT_KEY[0] != FACTS_KEY[0] && SOURCE_EVENT_KEY[0] != LATEST_LETTER_KEY[0]
           && SOURCE_EVENT_KEY[0] != GOAL_KEY[0];
  }

  lemma LandingKeepsTheFounder(
    s: State, at: int, w: nat, status: Option<PlanStatus>, read: DocRead, world: World, letter: string)
    requires IsFoundedBy(s, letter) && w in s.visits && WordsLeaveTheMarks(world)
    ensures IsFoundedBy(Landed(s, at, w, WalkRun(s.visits[w].run, status, read, world)), letter)
  {
    VisitsKeepTheMarks(s.visits[w].run, status, read, world);
    MovesKeepTheFounder(s, at, w, WalkRun(s.visits[w].run, status, read, world), letter);
  }

  lemma MovesKeepTheFounder(s: State, at: int, w: nat, move: Move, letter: string)
    requires IsFoundedBy(s, letter) && w in s.visits && MoveHasTheMarks(MarksOf(s.visits[w].run.context), move)
    ensures IsFoundedBy(Landed(s, at, w, move), letter)
  {
  }

  lemma StepKeepsTheFounder(plan: Plan, s: State, at: int, event: Event, letter: string)
    requires IsFoundedBy(s, letter) && (event.Land? ==> WordsLeaveTheMarks(event.world))
    ensures IsFoundedBy(Next(plan, s, at, event), letter)
  {
    if event.Land? {
      if event.walker in s.visits {
        LandingKeepsTheFounder(s, at, event.walker, event.status, event.read, event.world, letter);
      }
    } else if event.Reply? || event.Refresh? {
      AnswersKeepTheFounder(plan, s, at, event, letter);
    } else if event.GoalCancel? || event.Repeat? {
      GoalsAndRepeatsKeepTheFounder(plan, s, at, event, letter);
    }
  }

  lemma AnswersKeepTheFounder(plan: Plan, s: State, at: int, event: Event, letter: string)
    requires IsFoundedBy(s, letter) && (event.Reply? || event.Refresh?)
    ensures IsFoundedBy(Next(plan, s, at, event), letter)
  {
    LettersKeepTheFounder(s.row.context, event.letter, plan.maxChars, event.square,
                          if event.Reply? then event.answer else "");
  }

  lemma GoalsAndRepeatsKeepTheFounder(plan: Plan, s: State, at: int, event: Event, letter: string)
    requires IsFoundedBy(s, letter) && (event.GoalCancel? || event.Repeat?)
    ensures IsFoundedBy(Next(plan, s, at, event), letter)
  {
    LettersKeepTheFounder(s.row.context, event.letter, plan.maxChars, "", "");
    if event.Repeat? {
      RepeatsKeepTheMarks(s.row.context, event.letter, plan.maxChars, event.policy);
    }
  }

  lemma {:induction false} SchedulesKeepTheFounder(plan: Plan, s: State, schedule: seq<Timed>, letter: string)
    requires IsFoundedBy(s, letter)
    requires forall timed | timed in schedule && timed.event.Land? :: WordsLeaveTheMarks(timed.event.world)
    ensures IsFoundedBy(After(plan, s, schedule), letter)
    decreases |schedule|
  {
    if schedule != [] {
      assert schedule[0] in schedule;
      StepKeepsTheFounder(plan, s, schedule[0].at, schedule[0].event, letter);
      SchedulesKeepTheFounder(plan, Next(plan, s, schedule[0].at, schedule[0].event), schedule[1..], letter);
    }
  }

  /** A run's own founding letter, delivered again at any point of its life, whatever
      has happened since, is never taken as a repeat of it. */
  lemma TheFoundingLetterIsNeverARepeat(
    plan: Plan, id: string, version: nat, letter: Letter, happened: string, now: int, schedule: seq<Timed>,
    again: Letter, at: int, door: Door, policy: RepeatPlan)
    requires forall timed | timed in schedule && timed.event.Land? :: WordsLeaveTheMarks(timed.event.world)
    requires again.id == letter.id
    ensures var s := After(plan, Enrolled(plan, id, version, letter, happened, now), schedule);
            Next(plan, s, at, Repeat(again, door, policy)).row == s.row
  {
    var born := Enrolled(plan, id, version, letter, happened, now);
    assert SOURCE_EVENT_KEY[0] != ENTERED_EVENT_KEY[0];
    assert IsFoundedBy(born, letter.id);
    SchedulesKeepTheFounder(plan, born, schedule, letter.id);
  }
}
