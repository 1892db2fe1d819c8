/** What holds of a run in every state any schedule of writers can reach. */
module RunHistory {
  import opened Wrappers
  import opened Board
  import opened Steps
  import opened Walker
  import opened Trail
  import opened Entry
  import opened Lease

  // ---- The invariant ----

  /** The trail so far: a gapless walk over the document's arrows that began at
      the door, the instant the run was enrolled. */
  ghost predicate TrailFits(plan: Plan, entered: int, trail: seq<StepRecord>) {
    && Gapless(trail)
    && (forall k | 0 <= k < |trail| :: TrailRowFits(plan.doc.edges, trail[k], k == 0))
    && (trail != [] ==> trail[0].node == plan.door.start && trail[0].arrivedAt == entered)
  }

  ghost predicate TrailRowFits(edges: seq<Edge>, row: StepRecord, first: bool) {
    && row.arrivedAt <= row.leftAt
    && (row.arrivedBy == ByDoor <==> first)
    && TakesAnArrow(edges, row)
  }

  /** The run stands where its trail leads: at the door, or at the end of the
      last arrow since the instant it was taken. */
  ghost predicate StandsAtTheEnd(plan: Plan, row: Run, trail: seq<StepRecord>) {
    if trail == [] then row.node == plan.door.start && row.arrivedAt == Some(row.entered)
    else LeadsTo(trail, row.node, row.arrivedAt) && row.entered < Last(trail).leftAt
  }

  /** The last square the run stood on is closed, and leads nowhere. */
  ghost predicate ClosedAtTheEnd(row: Run, trail: seq<StepRecord>) {
    trail != [] && Last(trail).next.None? && Last(trail).node == row.node
  }

  ghost predicate RowFits(s: State) {
    && s.row.arrivedAt.Some? && s.row.entered <= s.row.arrivedAt.value <= s.time
    && (s.row.wake.Some? <==> s.row.status == Waiting)
    && (s.row.wake.Some? ==> s.row.wake.value.generation < s.nextGen)
  }

  ghost predicate SeenFits(s: State, seen: Seen) {
    && seen.run.entered == s.row.entered && seen.run.arrivedAt.Some?
    && seen.run.arrivedAt.value <= seen.at <= s.time && s.row.entered <= seen.at
  }

  /** A claim in flight: its lease is spent for good, or the run still stands
      exactly where the claim found it. */
  ghost predicate VisitFits(s: State, seen: Seen) {
    && SeenFits(s, seen)
    && seen.run.wake.Some? && seen.run.wake.value.generation < s.nextGen
    && (s.row.wake == seen.run.wake ==>
          && s.row.node == seen.run.node && s.row.arrivedAt == seen.run.arrivedAt
          && MarksAreKept(seen.run.context, s.row.context))
  }

  /** Every letter the one context is marked with, the other is. */
  predicate MarksAreKept(before: Context, after: Context) {
    && Get(after, SOURCE_EVENT_KEY) == Get(before, SOURCE_EVENT_KEY)
    && forall event | event in RepeatEvents(before) :: event in RepeatEvents(after)
  }

  /** What holds of the row and its trail. Of the document it takes only the
      arrows. */
  ghost predicate TrailInv(plan: Plan, s: State) {
    && RowFits(s)
    && TrailFits(plan, s.row.entered, s.trail)
    && (s.row.status != Exited ==> StandsAtTheEnd(plan, s.row, s.trail))
    && (s.row.status == Exited ==> StandsAtTheEnd(plan, s.row, s.trail) || ClosedAtTheEnd(s.row, s.trail))
    && (forall w | w in s.visits :: VisitFits(s, s.visits[w]))
    && (forall c | c in s.looks :: SeenFits(s, s.looks[c]))
  }

  /** An open run, and a run in a walker's hands, holds no answer but its own
      square's. */
  ghost predicate AnswersInv(nodes: seq<Node>, s: State) {
    && (s.row.status != Exited ==> OnlyOwnAnswer(nodes, s.row.node, s.row.context))
    && forall w | w in s.visits :: OnlyOwnAnswer(nodes, s.visits[w].run.node, s.visits[w].run.context)
  }

  ghost predicate Inv(plan: Plan, s: State) {
    TrailInv(plan, s) && AnswersInv(plan.doc.nodes, s)
  }

  // ---- The trail ----

  /** A write that keeps the token where it is and stores either a fresh stamp,
      or none, or the one it found. */
  lemma InPlaceWriteKeepsTrail(plan: Plan, s: State, at: int, row: Run)
    requires TrailInv(plan, s) && s.time < at && s.row.status != Exited
    requires row.node == s.row.node && row.arrivedAt == s.row.arrivedAt && row.entered == s.row.entered
    requires row.status != Exited && (row.wake.Some? <==> row.status == Waiting)
    requires row.wake.None? || row.wake == s.row.wake || row.wake.value.generation == s.nextGen
    requires row.wake == s.row.wake && row.wake.Some? ==> MarksAreKept(s.row.context, row.context)
    ensures TrailInv(plan, Written(s, at, Some(row), []))
  {
    assert s.trail + [] == s.trail;
  }

  /** A walked buffer extends the trail it was walked from. */
  lemma TrailGrows(plan: Plan, row: Run, trail: seq<StepRecord>, after: int, steps: seq<StepRecord>)
    requires TrailFits(plan, row.entered, trail) && StandsAtTheEnd(plan, row, trail)
    requires Walked(plan.doc.edges, row, after, steps)
    requires row.arrivedAt.Some? && row.entered < after
    ensures TrailFits(plan, row.entered, trail + steps)
    ensures steps != [] ==> Last(trail + steps) == Last(steps) && row.entered < Last(steps).leftAt
  {
    var all := trail + steps;
    forall k | 0 <= k < |all| ensures TrailRowFits(plan.doc.edges, all[k], k == 0) {
      if k >= |trail| {
        assert all[k] == steps[k - |trail|];
      }
    }
    forall k | 0 <= k < |all| - 1
      ensures all[k].next == Some(all[k + 1].node) && all[k].leftAt == all[k + 1].arrivedAt
    {
      if k >= |trail| {
        assert all[k] == steps[k - |trail|] && all[k + 1] == steps[k + 1 - |trail|];
      } else if k + 1 < |trail| {
        assert all[k] == trail[k] && all[k + 1] == trail[k + 1];
      }
    }
  }

  /** What a visit wrote about the run it claimed is true of the row it lands
      on: the two agree on everything the trail is about. */
  lemma SameStandingSameWalk(edges: seq<Edge>, seen: Run, row: Run, after: int, steps: seq<StepRecord>)
    requires Walked(edges, seen, after, steps)
    requires seen.node == row.node && seen.arrivedAt == row.arrivedAt && seen.entered == row.entered
    ensures Walked(edges, row, after, steps)
  {
    forall k | 0 <= k < |steps| ensures StepFits(edges, row, after, steps[k], k == 0) {
      assert StepFits(edges, seen, after, steps[k], k == 0);
    }
  }

  /** A write that stores a fresh stamp, or none: every lease in flight is
      spent, so only the row and its trail need looking at. */
  lemma FreshWriteKeepsTrail(plan: Plan, s: State, at: int, row: Run, flush: seq<StepRecord>)
    requires TrailInv(plan, s) && s.time < at
    requires row.entered == s.row.entered && row.arrivedAt.Some? && row.entered <= row.arrivedAt.value <= at
    requires row.wake.Some? <==> row.status == Waiting
    requires row.wake.None? || row.wake.value.generation == s.nextGen
    requires TrailFits(plan, row.entered, s.trail + flush)
    requires StandsAtTheEnd(plan, row, s.trail + flush)
             || (row.status == Exited && ClosedAtTheEnd(row, s.trail + flush))
    ensures TrailInv(plan, Written(s, at, Some(row), flush))
  {
  }

  /** A visit's move, walked from where the row still stands. */
  lemma LandedMoveKeepsTrail(plan: Plan, s: State, at: int, lease: Option<Stamp>, now: int, move: Move)
    requires TrailInv(plan, s) && s.time < at && s.row.entered < now <= at
    requires MoveFits(plan.doc.edges, s.row, now, at, move)
    ensures TrailInv(plan, Written(s, at, MoveStatement(s.row, lease, move, at, s.nextGen), ClosedBy(move)))
  {
    var written := MoveStatement(s.row, lease, move, at, s.nextGen);
    if written.Some? {
      if ClosedBy(move) == [] {
        assert s.trail + ClosedBy(move) == s.trail;
      } else {
        TrailGrows(plan, s.row, s.trail, now, ClosedBy(move));
      }
      FreshWriteKeepsTrail(plan, s, at, written.value, ClosedBy(move));
    }
  }

  lemma SameStandingSameMove(edges: seq<Edge>, seen: Run, row: Run, now: int, until: int, move: Move)
    requires MoveFits(edges, seen, now, until, move)
    requires seen.node == row.node && seen.arrivedAt == row.arrivedAt && seen.entered == row.entered
    ensures MoveFits(edges, row, now, until, move)
  {
    if move.Moved? {
      SameStandingSameWalk(edges, seen, row, now, move.steps);
    }
    if move.Exits? {
      SameStandingSameWalk(edges, seen, row, now, move.closed);
    }
  }

  /** A move that fits the run as its walker claimed it, written or refused. */
  lemma WrittenMoveKeepsTrail(plan: Plan, s: State, at: int, seen: Seen, now: int, move: Move)
    requires TrailInv(plan, s) && VisitFits(s, seen) && s.time < at && seen.at < now <= at
    requires MoveFits(plan.doc.edges, seen.run, now, at, move)
    ensures TrailInv(plan, Written(s, at, MoveStatement(s.row, seen.run.wake, move, at, s.nextGen), ClosedBy(move)))
  {
    if MoveStatement(s.row, seen.run.wake, move, at, s.nextGen).Some? {
      SameStandingSameMove(plan.doc.edges, seen.run, s.row, now, at, move);
      LandedMoveKeepsTrail(plan, s, at, seen.run.wake, now, move);
    }
  }

  lemma LandedKeepsTrail(plan: Plan, s: State, at: int, w: nat, now: int, move: Move)
    requires TrailInv(plan, s) && s.time < at && w in s.visits && s.visits[w].at < now <= at
    requires MoveFits(plan.doc.edges, s.visits[w].run, now, at, move)
    ensures TrailInv(plan, Landed(s, at, w, move))
  {
    var seen := s.visits[w];
    WrittenMoveKeepsTrail(plan, s, at, seen, now, move);
    DroppingAVisitKeepsTrail(
      plan, Written(s, at, MoveStatement(s.row, seen.run.wake, move, at, s.nextGen), ClosedBy(move)), w);
  }

  lemma DroppingAVisitKeepsTrail(plan: Plan, s: State, w: nat)
    requires TrailInv(plan, s)
    ensures TrailInv(plan, s.(visits := s.visits - {w}))
  {
  }

  /** The visit that lands walked arrows of this plan's, on a later clock. */
  ghost predicate LandingFits(plan: Plan, s: State, at: int, event: Event)
    requires event.Land? && event.walker in s.visits
  {
    var seen := s.visits[event.walker];
    && seen.at < event.world.now <= at
    && MoveFits(plan.doc.edges, seen.run, event.world.now, at, WalkRun(seen.run, event.status, event.read, event.world))
  }

  lemma LandingKeepsTrail(plan: Plan, s: State, at: int, event: Event)
    requires TrailInv(plan, s) && s.time < at
    requires event.Land? && event.walker in s.visits && LandingFits(plan, s, at, event)
    ensures TrailInv(plan, Next(plan, s, at, event))
  {
    var w := event.walker;
    LandedKeepsTrail(
      plan, s, at, w, event.world.now, WalkRun(s.visits[w].run, event.status, event.read, event.world));
  }

  /** At most one row, of the square the run stood on, leading nowhere. */
  ghost predicate ClosesTheSquare(seen: Run, closing: seq<StepRecord>) {
    closing == [] ||
    (|closing| == 1 && closing[0].node == seen.node && Some(closing[0].arrivedAt) == seen.arrivedAt
     && closing[0].next.None?)
  }

  /** The goal-cancel's row, with its closing square or without. */
  lemma CancelKeepsTrail(
    plan: Plan, s: State, at: int, seen: Run, reason: string, isItsGoal: bool, closing: seq<StepRecord>)
    requires TrailInv(plan, s) && s.time < at && seen.entered == s.row.entered
    requires Walked(plan.doc.edges, seen, at, closing) && ClosesTheSquare(seen, closing)
    ensures TrailInv(plan, Written(s, at, CancelStatement(s.row, reason, isItsGoal), CancelFlush(s.row, closing)))
  {
    var flush := CancelFlush(s.row, closing);
    if s.row.status != Exited && isItsGoal {
      if flush != [] {
        SameStandingSameWalk(plan.doc.edges, seen, s.row, at, closing);
        TrailGrows(plan, s.row, s.trail, at, closing);
      } else {
        assert s.trail + flush == s.trail;
      }
      FreshWriteKeepsTrail(plan, s, at, CancelStatement(s.row, reason, isItsGoal).value, flush);
    }
  }

  lemma GoalCancelKeepsTrail(
    plan: Plan, doc: Definition, s: State, at: int, c: nat, letter: Letter, reason: string, isItsGoal: bool)
    requires TrailInv(plan, s) && s.time < at && c in s.looks
    ensures var closing := Closing(s.looks[c].run, Some(doc), reason, at, Some(letter.id));
            TrailInv(plan, Written(s, at, CancelStatement(s.row, reason, isItsGoal), CancelFlush(s.row, closing)))
  {
    var seen := s.looks[c];
    assert SeenFits(s, seen);
    var closing := Closing(seen.run, Some(doc), reason, at, Some(letter.id));
    ClosingFits(plan.doc.edges, seen.run, Some(doc), reason, at, at, Some(letter.id));
    CancelKeepsTrail(plan, s, at, seen.run, reason, isItsGoal, closing);
  }

  lemma ReplyKeepsTrail(plan: Plan, s: State, at: int, square: string, patch: Context)
    requires TrailInv(plan, s) && s.time < at
    ensures TrailInv(plan, Written(s, at, ReplyStatement(s.row, square, patch, at, s.nextGen), []))
  {
    var written := ReplyStatement(s.row, square, patch, at, s.nextGen);
    if written.Some? {
      InPlaceWriteKeepsTrail(plan, s, at, written.value);
    }
  }

  lemma RefreshKeepsTrail(plan: Plan, s: State, at: int, square: string, facts: Context, letter: string)
    requires TrailInv(plan, s) && s.time < at
    ensures TrailInv(plan, Written(s, at, RefreshStatement(s.row, square, facts, letter, at, s.nextGen), []))
  {
    var written := RefreshStatement(s.row, square, facts, letter, at, s.nextGen);
    if written.Some? {
      InPlaceWriteKeepsTrail(plan, s, at, written.value);
    }
  }

  /** No letter's facts can write the founding mark. */
  lemma RepeatsKeepTheMarks(context: Context, letter: Letter, maxChars: nat, policy: RepeatPlan)
    ensures MarksAreKept(context, RepeatContext(context, RepeatFacts(letter, maxChars), letter.id, policy))
  {
    assert SOURCE_EVENT_KEY in BOOKKEEPING_KEYS;
    assert SOURCE_EVENT_KEY[0] != PHONE_KEY[0] && SOURCE_EVENT_KEY[0] != REPEAT_EVENTS_KEY[0]
           && SOURCE_EVENT_KEY[0] != REPEAT_ITEMS_KEY[0] && SOURCE_EVENT_KEY[0] != REPEAT_COUNT_KEY[0];
  }

  lemma RepeatKeepsTrail(plan: Plan, s: State, at: int, letter: Letter, door: Door, policy: RepeatPlan)
    requires TrailInv(plan, s) && s.time < at
    ensures TrailInv(plan, Written(
              s, at,
              RepeatStatement(s.row, RepeatFacts(letter, plan.maxChars), letter.id, door, policy, at, s.nextGen), []))
  {
    var facts := RepeatFacts(letter, plan.maxChars);
    var written := RepeatStatement(s.row, facts, letter.id, door, policy, at, s.nextGen);
    if written.Some? {
      RepeatsKeepTheMarks(s.row.context, letter, plan.maxChars, policy);
      InPlaceWriteKeepsTrail(plan, s, at, written.value);
    }
  }

  lemma ClaimKeepsTrail(plan: Plan, s: State, at: int, event: Event)
    requires TrailInv(plan, s) && s.time < at && event.Claim?
    ensures TrailInv(plan, Next(plan, s, at, event))
  {
  }

  lemma CrashKeepsTrail(plan: Plan, s: State, at: int, event: Event)
    requires TrailInv(plan, s) && s.time < at && event.Crash?
    ensures TrailInv(plan, Next(plan, s, at, event))
  {
  }

  lemma LookKeepsTrail(plan: Plan, s: State, at: int, event: Event)
    requires TrailInv(plan, s) && s.time < at && event.Look?
    ensures TrailInv(plan, Next(plan, s, at, event))
  {
  }

  lemma GoalsKeepTrail(plan: Plan, s: State, at: int, event: Event)
    requires TrailInv(plan, s) && s.time < at && event.GoalCancel?
    ensures TrailInv(plan, Next(plan, s, at, event))
  {
    if event.reader in s.looks {
      GoalCancelKeepsTrail(plan, plan.doc, s, at, event.reader, event.letter, event.reason, event.isItsGoal);
    }
  }

  lemma LettersKeepTrail(plan: Plan, s: State, at: int, event: Event)
    requires TrailInv(plan, s) && s.time < at
    requires event.Reply? || event.Refresh? || event.Repeat? || event.Revive?
    ensures TrailInv(plan, Next(plan, s, at, event))
  {
    match event
    case Reply(letter, square, answer) => ReplyKeepsTrail(plan, s, at, square, ReplyPatch(square, letter, answer));
    case Refresh(letter, square) =>
      RefreshKeepsTrail(plan, s, at, square, LetterFacts(letter, plan.maxChars), letter.id);
    case Repeat(letter, door, policy) => RepeatKeepsTrail(plan, s, at, letter, door, policy);
    case Revive =>
      if s.row.status == Parked {
        InPlaceWriteKeepsTrail(
          plan, s, at, s.row.(status := Waiting, wake := Some(Stamp(at, s.nextGen)), attempts := 0));
      }
  }

  /** Every event keeps the trail; of a visit it asks only that it walked arrows
      of this plan's. */
  lemma StepKeepsTrail(plan: Plan, s: State, at: int, event: Event)
    requires TrailInv(plan, s) && s.time < at
    requires event.Land? && event.walker in s.visits ==> LandingFits(plan, s, at, event)
    ensures TrailInv(plan, Next(plan, s, at, event))
  {
    if event.Land? {
      if event.walker in s.visits {
        LandingKeepsTrail(plan, s, at, event);
      }
    } else if event.GoalCancel? {
      GoalsKeepTrail(plan, s, at, event);
    } else if event.Claim? {
      ClaimKeepsTrail(plan, s, at, event);
    } else if event.Crash? {
      CrashKeepsTrail(plan, s, at, event);
    } else if event.Look? {
      LookKeepsTrail(plan, s, at, event);
    } else {
      LettersKeepTrail(plan, s, at, event);
    }
  }

  // ---- The answers ----

  /** A write on the row leaves the claims in flight as they are. */
  lemma WriteKeepsAnswers(nodes: seq<Node>, s: State, at: int, written: Option<Run>, flush: seq<StepRecord>)
    requires AnswersInv(nodes, s)
    requires written.Some? && written.value.status != Exited ==>
               OnlyOwnAnswer(nodes, written.value.node, written.value.context)
    ensures AnswersInv(nodes, Written(s, at, written, flush))
  {
  }

  lemma LandingKeepsAnswers(
    plan: Plan, s: State, at: int, w: nat, status: Option<PlanStatus>, read: DocRead, world: World)
    requires AnswersInv(plan.doc.nodes, s) && w in s.visits
    requires WordsKeepToThemselves(world) && (read.Read? ==> read.definition == plan.doc)
    ensures AnswersInv(plan.doc.nodes, Landed(s, at, w, WalkRun(s.visits[w].run, status, read, world)))
  {
    var seen := s.visits[w];
    var move := WalkRun(seen.run, status, read, world);
    EveryVisitSpendsItsAnswers(seen.run, status, plan.doc, read, world);
    MoveKeepsAnswers(plan.doc.nodes, s, at, seen.run.wake, move);
  }

  lemma MoveKeepsAnswers(nodes: seq<Node>, s: State, at: int, lease: Option<Stamp>, move: Move)
    requires AnswersInv(nodes, s) && AnswersSpent(move)
    ensures AnswersInv(nodes, Written(s, at, MoveStatement(s.row, lease, move, at, s.nextGen), ClosedBy(move)))
  {
  }

  /** Merging contexts merges their answers. */
  lemma MergedAnswers(base: Context, added: Context, key: string)
    requires HoldsAnswer(base + added, key)
    ensures HoldsAnswer(base, key) || HoldsAnswer(added, key)
  {
  }

  lemma ReplyKeepsAnswers(nodes: seq<Node>, s: State, at: int, letter: Letter, square: string, answer: string)
    requires AnswersInv(nodes, s) && NodeNamed(nodes, square).Some? && Listens(NodeNamed(nodes, square).value)
    ensures AnswersInv(nodes, Written(
              s, at, ReplyStatement(s.row, square, ReplyPatch(square, letter, answer), at, s.nextGen), []))
  {
    NamesThatAreNotAnswers();
    var patch := ReplyPatch(square, letter, answer);
    var written := ReplyStatement(s.row, square, patch, at, s.nextGen);
    if written.Some? {
      forall key | HoldsAnswer(written.value.context, key) ensures key == ReplyKey(square) {
        MergedAnswers(s.row.context + patch, map[FACTS_KEY := Other("facts")], key);
        MergedAnswers(s.row.context, patch, key);
        ReplyAnswersItsOwnSquare(square, letter, answer, key);
      }
      WriteKeepsAnswers(nodes, s, at, written, []);
    }
  }

  lemma RefreshKeepsAnswers(plan: Plan, s: State, at: int, letter: Letter, square: string)
    requires AnswersInv(plan.doc.nodes, s)
    ensures AnswersInv(plan.doc.nodes, Written(
              s, at,
              RefreshStatement(s.row, square, LetterFacts(letter, plan.maxChars), letter.id, at, s.nextGen), []))
  {
    NamesThatAreNotAnswers();
    LettersPlantNoAnswers(letter, "", plan.maxChars);
    var facts := LetterFacts(letter, plan.maxChars);
    var written := RefreshStatement(s.row, square, facts, letter.id, at, s.nextGen);
    if written.Some? {
      forall key | HoldsAnswer(written.value.context, key) ensures HoldsAnswer(s.row.context, key) {
        MergedAnswers(s.row.context + facts, map[CUT_SHORT_BY_KEY := Text(letter.id)], key);
        MergedAnswers(s.row.context, facts, key);
      }
      WriteKeepsAnswers(plan.doc.nodes, s, at, written, []);
    }
  }

  lemma RepeatAddsNoAnswers(context: Context, facts: Context, event: string, policy: RepeatPlan, key: string)
    requires NoAnswers(facts) && HoldsAnswer(RepeatContext(context, facts, event, policy), key)
    ensures HoldsAnswer(context, key)
  {
    NamesThatAreNotAnswers();
    if policy == Latest {
      assert HoldsAnswer(context + facts, key);
      MergedAnswers(context, facts, key);
    }
  }

  lemma RepeatKeepsAnswers(plan: Plan, s: State, at: int, letter: Letter, door: Door, policy: RepeatPlan)
    requires AnswersInv(plan.doc.nodes, s)
    ensures AnswersInv(plan.doc.nodes, Written(
              s, at,
              RepeatStatement(s.row, RepeatFacts(letter, plan.maxChars), letter.id, door, policy, at, s.nextGen), []))
  {
    LettersPlantNoAnswers(letter, "", plan.maxChars);
    var facts := RepeatFacts(letter, plan.maxChars);
    var written := RepeatStatement(s.row, facts, letter.id, door, policy, at, s.nextGen);
    if written.Some? {
      forall key | HoldsAnswer(written.value.context, key) ensures HoldsAnswer(s.row.context, key) {
        RepeatAddsNoAnswers(s.row.context, facts, letter.id, policy, key);
      }
      WriteKeepsAnswers(plan.doc.nodes, s, at, written, []);
    }
  }

  lemma OtherEventsKeepAnswers(plan: Plan, s: State, at: int, event: Event)
    requires AnswersInv(plan.doc.nodes, s) && RowFits(s)
    requires event.Claim? || event.Crash? || event.Look? || event.Revive? || event.GoalCancel?
    ensures AnswersInv(plan.doc.nodes, Next(plan, s, at, event))
  {
  }

  lemma StepKeepsAnswers(plan: Plan, s: State, at: int, event: Event)
    requires AnswersInv(plan.doc.nodes, s) && RowFits(s) && Enabled(plan, s, at, event)
    ensures AnswersInv(plan.doc.nodes, Next(plan, s, at, event))
  {
    match event
    case Land(w, status, read, world) => LandingKeepsAnswers(plan, s, at, w, status, read, world);
    case Reply(letter, square, answer) => ReplyKeepsAnswers(plan.doc.nodes, s, at, letter, square, answer);
    case Refresh(letter, square) => RefreshKeepsAnswers(plan, s, at, letter, square);
    case Repeat(letter, door, policy) => RepeatKeepsAnswers(plan, s, at, letter, door, policy);
    case _ => OtherEventsKeepAnswers(plan, s, at, event);
  }

  // ---- Both ----

  lemma EnrolmentFits(plan: Plan, id: string, version: nat, letter: Letter, happened: string, now: int)
    ensures Inv(plan, Enrolled(plan, id, version, letter, happened, now))
  {
    LettersPlantNoAnswers(letter, happened, plan.maxChars);
  }

  lemma VisitsFit(plan: Plan, s: State, at: int, w: nat, status: Option<PlanStatus>, read: DocRead, world: World)
    requires w in s.visits && VisitFits(s, s.visits[w]) && s.visits[w].at < world.now && Monotone(world, at)
    requires read.Read? ==> read.definition == plan.doc
    ensures LandingFits(plan, s, at, Land(w, status, read, world))
  {
    assert world.now <= world.leftAt(0) <= at;
    EveryVisitContinuesTheTrail(s.visits[w].run, status, read, plan.doc, world, at);
  }

  /** Every event of the protocol keeps the invariant: claims, visits, crashes,
      letters, repeats, goals and revivals. */
  lemma StepKeepsInv(plan: Plan, s: State, at: int, event: Event)
    requires Inv(plan, s) && Enabled(plan, s, at, event)
    ensures Inv(plan, Next(plan, s, at, event))
  {
    if event.Land? {
      VisitsFit(plan, s, at, event.walker, event.status, event.read, event.world);
    }
    StepKeepsTrail(plan, s, at, event);
    StepKeepsAnswers(plan, s, at, event);
  }

  lemma {:induction false} ScheduleKeepsInv(plan: Plan, s: State, schedule: seq<Timed>)
    requires Inv(plan, s) && Lawful(plan, s, schedule)
    ensures Inv(plan, After(plan, s, schedule))
    decreases |schedule|
  {
    if schedule != [] {
      StepKeepsInv(plan, s, schedule[0].at, schedule[0].event);
      ScheduleKeepsInv(plan, Next(plan, s, schedule[0].at, schedule[0].event), schedule[1..]);
    }
  }
}
