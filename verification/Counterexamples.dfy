/** Concrete runs on which a promise of the outreach engine fails, each a lawful
    schedule from an enrolment in a plan that publish lets through. The exact
    conditions are in `RunTheorems`, `RepeatTheorems`, `ConsumerTheorems`,
    `ConsumerOutcomes`, `Retries` and `Repins`. */
module Counterexamples {
  import opened Wrappers
  import opened Window
  import opened Board
  import opened Steps
  import opened Walker
  import opened Trail
  import opened Entry
  import opened Plans
  import opened Lease
  import opened RunHistory
  import opened Consumer
  import opened ConsumerTheorems
  import opened ConsumerOutcomes
  import opened Repins

  // ---- A plan of two waits ----

  function Ask(): Node {
    Node("ask", Wait, Some(10 * MINUTE), ["seen", "paid"], None, None)
  }

  function Hold(): Node {
    Node("hold", Wait, Some(10 * MINUTE), ["paid", "cart"], None, None)
  }

  function CartDoor(): Door {
    Door("cart", "ask", 60, true)
  }

  function CartPlan(): Plan {
    Plan(
      Definition(
        [CartDoor()], [Ask(), Hold()], [Edge("ask", "hold", Some(TIMEOUT)), Edge("ask", "hold", Some(ELSE))],
        [Goal(["order"], None, 0, "goal_met")], 7 * DAY, Pin),
      CartDoor(), 100)
  }

  lemma CartPlanReads()
    ensures var doc := CartPlan().doc;
            && NodeNamed(doc.nodes, "ask") == FirstNamed(doc.nodes, "ask") == Some(Ask())
            && NodeNamed(doc.nodes, "hold") == FirstNamed(doc.nodes, "hold") == Some(Hold())
            && ArrowsFrom(doc.edges, "ask") == [Arrow("hold", Some(TIMEOUT)), Arrow("hold", Some(ELSE))]
            && ArrowsFrom(doc.edges, "hold") == []
            && DistinctIds(doc.nodes)
  {
    var doc := CartPlan().doc;
    assert "ask"[0] != "hold"[0];
    assert doc.nodes[..1] == [Ask()] && doc.nodes[1..] == [Hold()];
    var first, second := Edge("ask", "hold", Some(TIMEOUT)), Edge("ask", "hold", Some(ELSE));
    assert doc.edges == [] + [first] + [second];
    ArrowsFromLonger([], first, "ask");
    ArrowsFromLonger([] + [first], second, "ask");
    ArrowsFromLonger([], first, "hold");
    ArrowsFromLonger([] + [first], second, "hold");
  }

  lemma CartPlanIsLawful()
    ensures BoardIsLawful(CartPlan().doc)
  {
    CartPlanReads();
    assert TIMEOUT[0] != ELSE[0];
  }

  function LetterNamed(id: string): Letter {
    Letter(id, map[], map[], None, false)
  }

  // ---- Its runs ----

  /** Enrolled by letter "1". */
  function Born(): State {
    Enrolled(CartPlan(), "run", 1, LetterNamed("1"), "then", 0)
  }

  function Reached(schedule: seq<Timed>): State {
    After(CartPlan(), Born(), schedule)
  }

  ghost predicate IsRun(schedule: seq<Timed>) {
    Lawful(CartPlan(), Born(), schedule)
  }

  /** No goal is met, no word of a square does anything, and the clock reads
      `now` throughout. */
  function QuietWorld(now: int): World {
    World(now, i => false, (i, node, context) => Patched(map[]), i => now, 1)
  }

  function Lands(now: int): Event {
    Land(0, Some(Live), Read(CartPlan().doc), QuietWorld(now))
  }

  lemma QuietWorldsAreLawful(now: int, until: int)
    requires now <= until
    ensures Monotone(QuietWorld(now), until) && WordsKeepToThemselves(QuietWorld(now))
  {
  }

  lemma OneMore(schedule: seq<Timed>, timed: Timed)
    requires IsRun(schedule) && Enabled(CartPlan(), Reached(schedule), timed.at, timed.event)
    ensures IsRun(schedule + [timed])
    ensures Reached(schedule + [timed]) == Next(CartPlan(), Reached(schedule), timed.at, timed.event)
  {
    SchedulesJoin(CartPlan(), Born(), schedule, [timed]);
    OneEvent(CartPlan(), Reached(schedule), timed);
  }

  /** What a visit does to a run on the first square: heard or not, it goes on to
      wait on the second. */
  function Onwards(run: Run, now: int): Move {
    Moved("hold", now + 10 * MINUTE, run.context - {CUT_SHORT_BY_KEY} - {ReplyKey("ask")}, Some(now),
          RowOf(CartPlan().doc, run, Begin(run), Ask(), map[], now))
  }

  lemma LeavingAsk(run: Run, now: int)
    requires run.node == "ask" && run.wake.Some? && run.arrivedAt.Some? && now - run.entered <= 7 * DAY
    ensures WalkRun(run, Some(Live), Read(CartPlan().doc), QuietWorld(now)) == Onwards(run, now)
    ensures |Onwards(run, now).steps| == 1 && Onwards(run, now).steps[0].node == "ask"
            && Onwards(run, now).steps[0].next == Some("hold")
  {
    var doc, world, s := CartPlan().doc, QuietWorld(now), Begin(run);
    CartPlanReads();
    assert Verdict(GoalTiers(doc.goals), run.context, world.says, 0).None?;
    assert Merged(s.context, map[]) == s.context;
    assert PickNext(Ask(), ArrowsFrom(doc.edges, "ask"), s.context) == Some("hold");
    LeavingAskStops(run, now);
  }

  lemma LeavingAskStops(run: Run, now: int)
    requires run.node == "ask" && Merged(Begin(run).context, map[]) == Begin(run).context
    requires PickNext(Ask(), ArrowsFrom(CartPlan().doc.edges, "ask"), Begin(run).context) == Some("hold")
    requires NodeNamed(CartPlan().doc.nodes, "hold") == Some(Hold())
    ensures Leave(CartPlan().doc, run, Begin(run), Ask(), map[], now) == Stops(Writes(Onwards(run, now)))
  {
    var rows := RowOf(CartPlan().doc, run, Begin(run), Ask(), map[], now);
    assert Begin(run).walked + rows == rows;
  }

  // ---- The run in a walker's hands ----

  const DUE: int := 10 * MINUTE

  function ClaimedAt(): seq<Timed> {
    [Timed(DUE, Claim(0))]
  }

  function Founding(): Context {
    FoundingContext(LetterNamed("1"), "then", 100)
  }

  function ClaimedRun(): Run {
    Run("run", 1, Waiting, "ask", Some(Stamp(DUE + LEASE, 1)), 0, Founding(), 1, None, Some(0), None)
  }

  /** Claimed when its alarm is due. */
  lemma TheRunIsClaimed()
    ensures IsRun(ClaimedAt())
    ensures Reached(ClaimedAt()) == State(ClaimedRun(), [], map[0 := Seen(ClaimedRun(), DUE)], map[], 2, DUE)
  {
    CartPlanReads();
    OneMore([], ClaimedAt()[0]);
    assert [] + ClaimedAt() == ClaimedAt();
  }

  lemma TheFoundingLetterIsOnlyTheFirst()
    ensures RepeatEvents(Founding()) == [] && Get(Founding(), SOURCE_EVENT_KEY) == Some(Text("1"))
  {
    assert REPEAT_EVENTS_KEY[0] != SOURCE_EVENT_KEY[0] && REPEAT_EVENTS_KEY[0] != ENTERED_EVENT_KEY[0];
    assert ENTERED_EVENT_KEY[0] != SOURCE_EVENT_KEY[0];
  }

  // ---- A repeat that is lost, and taken again ----

  function Second(): Event {
    Repeat(LetterNamed("2"), CartDoor(), Accumulate)
  }

  function RepeatedAt(): seq<Timed> {
    ClaimedAt() + [Timed(DUE + 1, Second())]
  }

  function LandedAt(): seq<Timed> {
    RepeatedAt() + [Timed(DUE + 3, Lands(DUE + 2))]
  }

  function RepeatedAgainAt(): seq<Timed> {
    LandedAt() + [Timed(DUE + 4, Second())]
  }

  /** Letter "2" is taken as a repeat while a visit is in flight; the visit moves
      the run on, and the letter's mark with it; and its redelivery is taken
      again. */
  lemma ARepeatIsLost()
    ensures BoardIsLawful(CartPlan().doc) && IsRun(RepeatedAgainAt())
    ensures "2" in RepeatEvents(Reached(RepeatedAt()).row.context)
    ensures Reached(LandedAt()).row.node == "hold" && "2" !in RepeatEvents(Reached(LandedAt()).row.context)
    ensures "2" in RepeatEvents(Reached(RepeatedAgainAt()).row.context)
  {
    CartPlanIsLawful();
    TheRunIsClaimed();
    TheFoundingLetterIsOnlyTheFirst();
    OneMore(ClaimedAt(), Timed(DUE + 1, Second()));
    ARepeatTaken(Reached(ClaimedAt()), DUE + 1);
    TheLeaseIsKept(Reached(ClaimedAt()), DUE + 1);
    QuietWorldsAreLawful(DUE + 2, DUE + 3);
    OneMore(RepeatedAt(), Timed(DUE + 3, Lands(DUE + 2)));
    TheClaimedVisitLands(Reached(RepeatedAt()), DUE + 3);
    OneMore(LandedAt(), Timed(DUE + 4, Second()));
    ARepeatTaken(Reached(LandedAt()), DUE + 4);
  }

  lemma ARepeatTaken(s: State, at: int)
    requires s.row.status == Waiting && s.row.wake.Some? && RepeatEvents(s.row.context) == []
    requires Get(s.row.context, SOURCE_EVENT_KEY) == Some(Text("1"))
    ensures RepeatEvents(Next(CartPlan(), s, at, Second()).row.context) == ["2"]
  {
  }

  lemma TheLeaseIsKept(s: State, at: int)
    requires s.row.wake.Some? && at + 60 <= s.row.wake.value.due
    ensures var after := Next(CartPlan(), s, at, Second());
            after.row.wake == s.row.wake && after.row.status == s.row.status && after.visits == s.visits
            && after.looks == s.looks && after.trail == s.trail && after.time == at
  {
    assert s.trail + [] == s.trail;
  }

  /** The visit claimed when the alarm was due lands on the row its lease is on. */
  lemma TheClaimedVisitLands(s: State, at: int)
    requires 0 in s.visits && s.visits[0] == Seen(ClaimedRun(), DUE)
    requires s.row.wake == ClaimedRun().wake && s.row.status == Waiting && s.trail == []
    ensures var after := Next(CartPlan(), s, at, Lands(DUE + 2));
            && after.row.node == "hold" && after.row.status == Waiting
            && after.row.wake == Some(Stamp(DUE + 2 + 10 * MINUTE, s.nextGen))
            && RepeatEvents(after.row.context) == []
            && Get(after.row.context, SOURCE_EVENT_KEY) == Some(Text("1"))
            && |after.trail| == 1 && after.trail[0].node == "ask" && after.trail[0].next == Some("hold")
            && after.looks == s.looks && after.time == at
  {
    var move := Onwards(ClaimedRun(), DUE + 2);
    LeavingAsk(ClaimedRun(), DUE + 2);
    TheMarksStay();
    assert [] + move.steps == move.steps;
  }

  lemma TheMarksStay()
    ensures var context := Onwards(ClaimedRun(), DUE + 2).context;
            RepeatEvents(context) == [] && Get(context, SOURCE_EVENT_KEY) == Some(Text("1"))
  {
    TheFoundingLetterIsOnlyTheFirst();
    NamesThatAreNotAnswers();
    assert IsReplyKey(ReplyKey("ask"));
    assert SOURCE_EVENT_KEY[0] != CUT_SHORT_BY_KEY[0];
  }

  // ---- A closing row that is not written ----

  function LookedAt(): seq<Timed> {
    ClaimedAt() + [Timed(DUE + 1, Look(0))]
  }

  function MovedOnAt(): seq<Timed> {
    LookedAt() + [Timed(DUE + 3, Lands(DUE + 2))]
  }

  function CancelledAt(): seq<Timed> {
    MovedOnAt() + [Timed(DUE + 4, GoalCancel(0, LetterNamed("6"), "goal_met", true))]
  }

  lemma TheConsumerLooks()
    ensures IsRun(LookedAt())
    ensures Reached(LookedAt())
            == State(ClaimedRun(), [], map[0 := Seen(ClaimedRun(), DUE)], map[0 := Seen(ClaimedRun(), DUE + 1)], 2,
                     DUE + 1)
  {
    TheRunIsClaimed();
    OneMore(ClaimedAt(), Timed(DUE + 1, Look(0)));
  }

  lemma TheWalkerMovesOn()
    ensures IsRun(MovedOnAt())
    ensures var s := Reached(MovedOnAt());
            && s.row.node == "hold" && s.row.status == Waiting && s.looks == map[0 := Seen(ClaimedRun(), DUE + 1)]
            && s.row.wake == Some(Stamp(DUE + 2 + 10 * MINUTE, 2))
            && RepeatEvents(s.row.context) == [] && Get(s.row.context, SOURCE_EVENT_KEY) == Some(Text("1"))
            && |s.trail| == 1 && s.trail[0].node == "ask" && s.trail[0].next == Some("hold") && s.time == DUE + 3
  {
    TheConsumerLooks();
    QuietWorldsAreLawful(DUE + 2, DUE + 3);
    OneMore(LookedAt(), Timed(DUE + 3, Lands(DUE + 2)));
    TheClaimedVisitLands(Reached(LookedAt()), DUE + 3);
  }

  /** The consumer reads the run, the walker moves it on, and then the goal the
      letter met ends it: the square it ended on is never closed. */
  lemma AClosingRowIsLost()
    ensures BoardIsLawful(CartPlan().doc) && IsRun(CancelledAt())
    ensures var after := Reached(CancelledAt());
            && after.row.status == Exited && after.row.exitReason == Some("goal_met") && after.row.node == "hold"
            && after.trail == Reached(MovedOnAt()).trail && !ClosedAtTheEnd(after.row, after.trail)
  {
    CartPlanIsLawful();
    TheWalkerMovesOn();
    var cancel := GoalCancel(0, LetterNamed("6"), "goal_met", true);
    OneMore(MovedOnAt(), Timed(DUE + 4, cancel));
    assert "ask"[0] != "hold"[0];
    ACancelReadElsewhereClosesNothing(CartPlan(), Reached(MovedOnAt()), DUE + 4, LetterNamed("6"), "goal_met");
  }

  lemma ACancelReadElsewhereClosesNothing(plan: Plan, s: State, at: int, letter: Letter, reason: string)
    requires 0 in s.looks && s.looks[0].run.node != s.row.node && s.row.status == Waiting
    ensures var after := Next(plan, s, at, GoalCancel(0, letter, reason, true));
            && after.row.status == Exited && after.row.exitReason == Some(reason) && after.row.node == s.row.node
            && after.trail == s.trail
  {
    assert s.trail + [] == s.trail;
  }

  // ---- A first failure that parks ----

  function Deferral(from: int): seq<Timed> {
    [Timed(from, Claim(0)), Timed(from + 1, Reply(LetterNamed("7"), "ask", "seen")),
     Timed(from + 3, Lands(from + 2))]
  }

  /** A run that a walker may claim at `from`, and has so often. */
  ghost predicate IsDue(s: State, from: int, attempts: nat) {
    && s.time < from && s.visits == map[] && s.row.status == Waiting && s.row.node == "ask"
    && s.row.wake.Some? && s.row.wake.value.due <= from && s.row.wake.value.generation < s.nextGen
    && s.row.attempts == attempts
  }

  lemma OneDeferral(s: State, from: int, attempts: nat)
    requires IsDue(s, from, attempts)
    ensures Lawful(CartPlan(), s, Deferral(from))
    ensures IsDue(After(CartPlan(), s, Deferral(from)), from + 4, attempts + 1)
  {
    var plan, d := CartPlan(), Deferral(from);
    var claimed := Next(plan, s, from, Claim(0));
    var woken := Next(plan, claimed, from + 1, d[1].event);
    CartPlanReads();
    QuietWorldsAreLawful(from + 2, from + 3);
    AClaimAndAReply(s, from, attempts);
    AStaleVisit(woken, from + 3, Lands(from + 2));
    OneEvent(plan, s, d[0]);
    OneEvent(plan, claimed, d[1]);
    OneEvent(plan, woken, d[2]);
    SchedulesJoin(plan, s, [d[0]], [d[1]]);
    SchedulesJoin(plan, s, [d[0]] + [d[1]], [d[2]]);
    assert d == [d[0]] + [d[1]] + [d[2]];
  }

  lemma AClaimAndAReply(s: State, from: int, attempts: nat)
    requires IsDue(s, from, attempts)
    ensures var claimed := Next(CartPlan(), s, from, Claim(0));
            var woken := Next(CartPlan(), claimed, from + 1, Reply(LetterNamed("7"), "ask", "seen"));
            && claimed.time == from && woken.time == from + 1
            && woken.visits == map[0 := Seen(claimed.row, from)] && woken.row.wake != claimed.row.wake
            && woken.row.status == Waiting && woken.row.node == "ask" && woken.row.attempts == attempts + 1
            && woken.row.wake == Some(Stamp(from + 1, claimed.nextGen)) && woken.nextGen == claimed.nextGen + 1
  {
  }

  lemma AStaleVisit(s: State, at: int, landing: Event)
    requires landing.Land? && landing.walker == 0 && s.visits.Keys == {0} && s.row.wake != s.visits[0].run.wake
    ensures var after := Next(CartPlan(), s, at, landing);
            after.row == s.row && after.nextGen == s.nextGen && after.time == at && after.visits == map[]
  {
  }

  const FAILS := Land(0, Some(Live), Unreadable, QuietWorld(DUE + 9))

  function ParkedAt(): seq<Timed> {
    Deferral(DUE) + Deferral(DUE + 4) + [Timed(DUE + 8, Claim(0))] + [Timed(DUE + 10, FAILS)]
  }

  /** Two visits deferred by letters, and then the run's first failure: a document
      that could not be read. It parks the run. */
  lemma AFirstFailureParks()
    ensures BoardIsLawful(CartPlan().doc) && IsRun(ParkedAt())
    ensures Reached(Deferral(DUE) + Deferral(DUE + 4)).row.status == Waiting
    ensures var failed := Reached(ParkedAt()).row;
            failed.status == Parked && failed.lastError == Some("attempts exhausted: " + "definition unreadable")
  {
    CartPlanIsLawful();
    CartPlanReads();
    var twice := Deferral(DUE) + Deferral(DUE + 4);
    OneDeferral(Born(), DUE, 0);
    OneDeferral(Reached(Deferral(DUE)), DUE + 4, 1);
    SchedulesJoin(CartPlan(), Born(), Deferral(DUE), Deferral(DUE + 4));
    OneMore(twice, Timed(DUE + 8, Claim(0)));
    TheThirdClaimFails(Reached(twice));
    OneMore(twice + [Timed(DUE + 8, Claim(0))], Timed(DUE + 10, FAILS));
  }

  lemma TheThirdClaimFails(s: State)
    requires IsDue(s, DUE + 8, 2)
    ensures var claimed := Next(CartPlan(), s, DUE + 8, Claim(0));
            var failed := Next(CartPlan(), claimed, DUE + 10, FAILS).row;
            && Enabled(CartPlan(), claimed, DUE + 10, FAILS)
            && failed.status == Parked && failed.lastError == Some("attempts exhausted: " + "definition unreadable")
  {
    QuietWorldsAreLawful(DUE + 9, DUE + 10);
  }

  // ---- One letter, several statements ----

  /** Letter "3" says it was paid: both squares hear that. */
  function PaidLetter(): Hearing {
    Hearing(LetterNamed("3"), id => Some("paid"), i => false, i => false, false, None)
  }

  function LookedEarly(): seq<Timed> {
    [Timed(10, Look(0))]
  }

  /** Between the two replies a walker claims the run the first one woke, and moves
      it on. */
  function AWalkerBetween(k: nat): Beat {
    if k == 1 then Beat([Timed(12, Claim(0)), Timed(14, Lands(13))], 15) else Beat([], 11)
  }

  lemma NobodyCancels(hearing: Hearing, s: State, beats: nat -> Beat)
    requires 0 in s.looks && !hearing.applies(0) && !hearing.addressedElsewhere
    requires s.looks[0].run.node == "ask"
    ensures AfterGoals(CartPlan(), beats, hearing, 0, s) == Pass(s, 0, [])
    ensures ScriptOf(CartPlan(), beats, hearing, 0, s)
            == Replies(CartPlan().doc.nodes, hearing) + Repeats(CartPlan().doc, hearing, s.looks[0].run)
    ensures Consumed(CartPlan(), beats, hearing, 0, s)
            == IssueAll(CartPlan(), beats, Pass(s, 0, []), ScriptOf(CartPlan(), beats, hearing, 0, s))
  {
    CartPlanReads();
    var tiers := GoalTiers(CartPlan().doc.goals);
    assert tiers == [Goal(["order"], None, 0, "goal_met")];
    CancelsFrom(tiers, hearing, 0, 0);
    assert Cancels(tiers, hearing, 0, 0) == [];
    var replies := Replies(CartPlan().doc.nodes, hearing);
    assert Wakes(CartPlan().doc, hearing, s.looks[0].run) == replies + [];
    PassesAreScripts(CartPlan(), beats, hearing, 0, s);
  }

  lemma BothSquaresReply(hearing: Hearing)
    ensures Replies(CartPlan().doc.nodes, hearing)
            == (if hearing.answers("ask").Some? then
                  [Reply(hearing.letter, "ask", hearing.answers("ask").value)] else [])
             + (if hearing.answers("hold").Some? then
                  [Reply(hearing.letter, "hold", hearing.answers("hold").value)] else [])
  {
    var nodes := CartPlan().doc.nodes;
    RepliesFrom(nodes, hearing, 0);
    RepliesFrom(nodes, hearing, 1);
    assert nodes[0..] == nodes && nodes[2..] == [];
  }

  lemma AClaimedVisitLands(s: State, from: int, attempts: nat)
    requires IsDue(s, from, attempts) && s.row.arrivedAt.Some? && from + 1 - s.row.entered <= 7 * DAY
    ensures var visit := [Timed(from, Claim(0)), Timed(from + 2, Lands(from + 1))];
            && Lawful(CartPlan(), s, visit)
            && After(CartPlan(), s, visit).row.node == "hold" && After(CartPlan(), s, visit).row.status == Waiting
            && After(CartPlan(), s, visit).time == from + 2
  {
    var visit := [Timed(from, Claim(0)), Timed(from + 2, Lands(from + 1))];
    var claimed := Next(CartPlan(), s, from, Claim(0));
    LeavingAsk(claimed.row, from + 1);
    QuietWorldsAreLawful(from + 1, from + 2);
    OneEvent(CartPlan(), s, visit[0]);
    OneEvent(CartPlan(), claimed, visit[1]);
    SchedulesJoin(CartPlan(), s, [visit[0]], [visit[1]]);
    assert visit == [visit[0]] + [visit[1]];
  }

  /** Read on the first square, the run answers there; the walker it wakes moves it
      to the second before that is asked; and it answers there too. */
  lemma ALetterAnswersTwice()
    ensures BoardIsLawful(CartPlan().doc) && IsRun(LookedEarly())
    ensures var plan, s, letter := CartPlan(), Reached(LookedEarly()), LetterNamed("3");
            && 0 in s.looks
            && BeatsAreLawful(plan, AWalkerBetween, Pass(s, 0, []), ScriptOf(plan, AWalkerBetween, PaidLetter(), 0, s))
            && Consumed(plan, AWalkerBetween, PaidLetter(), 0, s).took
               == [Reply(letter, "ask", "paid"), Reply(letter, "hold", "paid")]
  {
    CartPlanIsLawful();
    TheConsumerLooksEarly();
    PaidScript(Reached(LookedEarly()));
    BothAreTaken(Reached(LookedEarly()));
  }

  lemma TheConsumerLooksEarly()
    ensures IsRun(LookedEarly())
    ensures Reached(LookedEarly()) == Born().(looks := map[0 := Seen(Born().row, 10)], time := 10)
  {
    OneMore([], LookedEarly()[0]);
    assert [] + LookedEarly() == LookedEarly();
  }

  lemma PaidScript(s: State)
    requires 0 in s.looks && s.looks[0].run.node == "ask"
    ensures ScriptOf(CartPlan(), AWalkerBetween, PaidLetter(), 0, s)
            == [Reply(LetterNamed("3"), "ask", "paid"), Reply(LetterNamed("3"), "hold", "paid")]
    ensures Consumed(CartPlan(), AWalkerBetween, PaidLetter(), 0, s)
            == IssueAll(CartPlan(), AWalkerBetween, Pass(s, 0, []),
                        ScriptOf(CartPlan(), AWalkerBetween, PaidLetter(), 0, s))
  {
    NobodyCancels(PaidLetter(), s, AWalkerBetween);
    BothSquaresReply(PaidLetter());
  }

  lemma BothAreTaken(s: State)
    requires s == Born().(looks := map[0 := Seen(Born().row, 10)], time := 10)
    ensures var script := [Reply(LetterNamed("3"), "ask", "paid"), Reply(LetterNamed("3"), "hold", "paid")];
            && BeatsAreLawful(CartPlan(), AWalkerBetween, Pass(s, 0, []), script)
            && IssueAll(CartPlan(), AWalkerBetween, Pass(s, 0, []), script).took == script
  {
    var first, second := Reply(LetterNamed("3"), "ask", "paid"), Reply(LetterNamed("3"), "hold", "paid");
    TheFirstReplyWakes(s, first);
    var woken := Issue(CartPlan(), AWalkerBetween, Pass(s, 0, []), first);
    AClaimedVisitLands(woken.s, 12, 0);
    TwoStatements(AWalkerBetween, Pass(s, 0, []), first, second);
    TakenOn("hold", AWalkerBetween, woken, second);
  }

  lemma TheFirstReplyWakes(s: State, reply: Event)
    requires s == Born().(looks := map[0 := Seen(Born().row, 10)], time := 10)
    requires reply.Reply? && reply.square == "ask"
    ensures var woken := Issue(CartPlan(), AWalkerBetween, Pass(s, 0, []), reply);
            && IsDue(woken.s, 12, 0) && woken.sent == 1 && woken.took == [reply]
            && woken.s.row.arrivedAt == Some(0) && woken.s.row.entered == 0
  {
  }

  lemma TakenOn(square: string, beats: nat -> Beat, p: Pass, reply: Event)
    requires reply.Reply? && reply.square == square && StandsOpenOn(Met(CartPlan(), beats, p).row, square)
    ensures Issue(CartPlan(), beats, p, reply).took == p.took + [reply]
  {
  }

  lemma TwoStatements(beats: nat -> Beat, p: Pass, first: Event, second: Event)
    ensures var between := Issue(CartPlan(), beats, p, first);
            && IssueAll(CartPlan(), beats, p, [first, second]) == Issue(CartPlan(), beats, between, second)
            && (BeatsAreLawful(CartPlan(), beats, p, [first, second]) <==>
                  && Lawful(CartPlan(), p.s, beats(p.sent).others)
                  && Met(CartPlan(), beats, p).time < beats(p.sent).at
                  && Lawful(CartPlan(), between.s, beats(between.sent).others)
                  && Met(CartPlan(), beats, between).time < beats(between.sent).at)
  {
    var between := Issue(CartPlan(), beats, p, first);
    IssueTheFirst(CartPlan(), beats, p, first, [second]);
    IssueTheFirst(CartPlan(), beats, between, second, []);
    BeatsOfTheFirst(CartPlan(), beats, p, first, [second]);
    BeatsOfTheFirst(CartPlan(), beats, between, second, []);
    assert [first] + [second] == [first, second] && [second] + [] == [second];
  }

  /** Letter "4" is heard on the second square only, and is what the door takes. */
  function CartLetter(): Hearing {
    Hearing(LetterNamed("4"), id => if id == "hold" then Some("cart") else None, i => false, i => false, false,
            Some(Repeating(CartDoor(), Accumulate)))
  }

  /** The walker's visit lands before the first statement. */
  function AWalkerFirst(k: nat): Beat {
    if k == 0 then Beat([Timed(DUE + 3, Lands(DUE + 2))], DUE + 4) else Beat([], DUE + 5)
  }

  lemma TheWalkerComesFirst(p: Pass)
    requires p == Pass(Reached(LookedAt()), 0, [])
    ensures Lawful(CartPlan(), p.s, AWalkerFirst(0).others)
    ensures Met(CartPlan(), AWalkerFirst, p) == Reached(MovedOnAt())
  {
    TheWalkerMovesOn();
    SchedulesJoin(CartPlan(), Born(), LookedAt(), AWalkerFirst(0).others);
  }

  /** Read on the first square, the run has reached the second: the letter answers
      there, and is then taken as a repeat that pushes the alarm back. */
  lemma AnAnswerIsARepeatToo()
    ensures BoardIsLawful(CartPlan().doc) && IsRun(LookedAt())
    ensures var plan, s, letter := CartPlan(), Reached(LookedAt()), LetterNamed("4");
            && 0 in s.looks
            && BeatsAreLawful(plan, AWalkerFirst, Pass(s, 0, []), ScriptOf(plan, AWalkerFirst, CartLetter(), 0, s))
            && Consumed(plan, AWalkerFirst, CartLetter(), 0, s).took
               == [Reply(letter, "hold", "cart"), Repeat(letter, CartDoor(), Accumulate)]
            && var row := Consumed(plan, AWalkerFirst, CartLetter(), 0, s).s.row;
               row.wake.Some? && row.wake.value.due == DUE + 5 + 60
               && Get(row.context, ReplyKey("hold")) == Some(Text("cart"))
  {
    CartPlanIsLawful();
    TheConsumerLooks();
    var s := Reached(LookedAt());
    CartScript(s);
    TheWalkerMovesOn();
    TheWalkerComesFirst(Pass(s, 0, []));
    AnswerThenRepeat(Pass(s, 0, []));
  }

  lemma CartScript(s: State)
    requires 0 in s.looks && s.looks[0].run.node == "ask"
    ensures ScriptOf(CartPlan(), AWalkerFirst, CartLetter(), 0, s)
            == [Reply(LetterNamed("4"), "hold", "cart"), Repeat(LetterNamed("4"), CartDoor(), Accumulate)]
    ensures Consumed(CartPlan(), AWalkerFirst, CartLetter(), 0, s)
            == IssueAll(CartPlan(), AWalkerFirst, Pass(s, 0, []),
                        ScriptOf(CartPlan(), AWalkerFirst, CartLetter(), 0, s))
  {
    CartPlanReads();
    assert "ask"[0] != "hold"[0];
    NobodyCancels(CartLetter(), s, AWalkerFirst);
    BothSquaresReply(CartLetter());
  }

  /** The run is on the second square, in time for the first statement. */
  ghost predicate MovedOn(p: Pass) {
    var met := Met(CartPlan(), AWalkerFirst, p);
    && p.sent == 0 && p.took == [] && Lawful(CartPlan(), p.s, AWalkerFirst(0).others) && met.time == DUE + 3
    && met.row.node == "hold" && met.row.status == Waiting
    && RepeatEvents(met.row.context) == [] && Get(met.row.context, SOURCE_EVENT_KEY) == Some(Text("1"))
  }

  lemma AnswerThenRepeat(p: Pass)
    requires MovedOn(p)
    ensures var script := [Reply(LetterNamed("4"), "hold", "cart"), Repeat(LetterNamed("4"), CartDoor(), Accumulate)];
            var after := IssueAll(CartPlan(), AWalkerFirst, p, script);
            && BeatsAreLawful(CartPlan(), AWalkerFirst, p, script)
            && after.took == script && after.s.row.wake.Some? && after.s.row.wake.value.due == DUE + 5 + 60
            && Get(after.s.row.context, ReplyKey("hold")) == Some(Text("cart"))
  {
    var reply, repeat := Reply(LetterNamed("4"), "hold", "cart"), Repeat(LetterNamed("4"), CartDoor(), Accumulate);
    TwoStatements(AWalkerFirst, p, reply, repeat);
    AnsweredOnHold(p);
    RepeatedOnHold(Issue(CartPlan(), AWalkerFirst, p, reply));
  }

  lemma AnsweredOnHold(p: Pass)
    requires MovedOn(p)
    ensures var reply := Reply(LetterNamed("4"), "hold", "cart");
            var after := Issue(CartPlan(), AWalkerFirst, p, reply);
            && after.took == [reply] && after.sent == 1 && after.s.row.status == Waiting
            && after.s.time == DUE + 4
            && after.s.row.wake.Some? && after.s.row.wake.value.due == DUE + 4
            && RepeatEvents(after.s.row.context) == []
            && Get(after.s.row.context, SOURCE_EVENT_KEY) == Some(Text("1"))
            && Get(after.s.row.context, ReplyKey("hold")) == Some(Text("cart"))
  {
    var met := Met(CartPlan(), AWalkerFirst, p);
    AReplyStoresItsAnswer(met.row, LetterNamed("4"), "cart", DUE + 4, met.nextGen);
    ReplyKeepsTheMarks(met.row.context, LetterNamed("4"));
  }

  lemma ReplyKeepsTheMarks(context: Context, letter: Letter)
    ensures var after := context + ReplyPatch("hold", letter, "cart") + map[FACTS_KEY := Other("facts")];
            && RepeatEvents(after) == RepeatEvents(context)
            && Get(after, SOURCE_EVENT_KEY) == Get(context, SOURCE_EVENT_KEY)
  {
    NamesThatAreNotAnswers();
    assert IsReplyKey(ReplyKey("hold"));
    assert REPEAT_EVENTS_KEY[0] != CUT_SHORT_BY_KEY[0] && REPEAT_EVENTS_KEY[0] != LATEST_LETTER_KEY[0]
           && REPEAT_EVENTS_KEY[0] != FACTS_KEY[0];
    assert SOURCE_EVENT_KEY[0] != CUT_SHORT_BY_KEY[0] && SOURCE_EVENT_KEY[0] != LATEST_LETTER_KEY[0]
           && SOURCE_EVENT_KEY[0] != FACTS_KEY[0];
  }

  lemma RepeatedOnHold(p: Pass)
    requires p.sent == 1 && p.s.row.status == Waiting && p.s.row.wake.Some? && p.s.row.wake.value.due == DUE + 4
    requires RepeatEvents(p.s.row.context) == [] && Get(p.s.row.context, SOURCE_EVENT_KEY) == Some(Text("1"))
    requires Get(p.s.row.context, ReplyKey("hold")) == Some(Text("cart"))
    ensures var repeat := Repeat(LetterNamed("4"), CartDoor(), Accumulate);
            var after := Issue(CartPlan(), AWalkerFirst, p, repeat);
            && after.took == p.took + [repeat] && after.s.row.wake.Some?
            && after.s.row.wake.value.due == DUE + 5 + 60
            && Get(after.s.row.context, ReplyKey("hold")) == Some(Text("cart"))
  {
    NamesThatAreNotAnswers();
    assert IsReplyKey(ReplyKey("hold"));
  }

  /** Letter "5" is heard on the first square only. */
  function SeenLetter(): Hearing {
    Hearing(LetterNamed("5"), id => if id == "ask" then Some("seen") else None, i => false, i => false, false,
            Some(Repeating(CartDoor(), Accumulate)))
  }

  /** Read on the square that answers it, the run has moved on before that is
      asked; and for having been read there the letter is not a repeat either. */
  lemma AnAnswerIsLost()
    ensures BoardIsLawful(CartPlan().doc) && IsRun(LookedAt())
    ensures var plan, s := CartPlan(), Reached(LookedAt());
            && 0 in s.looks && AnsweredBy(plan.doc, SeenLetter(), s.looks[0].run)
            && BeatsAreLawful(plan, AWalkerFirst, Pass(s, 0, []), ScriptOf(plan, AWalkerFirst, SeenLetter(), 0, s))
            && Consumed(plan, AWalkerFirst, SeenLetter(), 0, s).took == []
  {
    CartPlanIsLawful();
    TheConsumerLooks();
    var s := Reached(LookedAt());
    SeenScript(s);
    TheWalkerMovesOn();
    TheWalkerComesFirst(Pass(s, 0, []));
    MissedOnHold(Pass(s, 0, []));
  }

  lemma SeenScript(s: State)
    requires 0 in s.looks && s.looks[0].run.node == "ask"
    ensures AnsweredBy(CartPlan().doc, SeenLetter(), s.looks[0].run)
    ensures ScriptOf(CartPlan(), AWalkerFirst, SeenLetter(), 0, s) == [Reply(LetterNamed("5"), "ask", "seen")]
    ensures Consumed(CartPlan(), AWalkerFirst, SeenLetter(), 0, s)
            == IssueAll(CartPlan(), AWalkerFirst, Pass(s, 0, []),
                        ScriptOf(CartPlan(), AWalkerFirst, SeenLetter(), 0, s))
  {
    CartPlanReads();
    assert "ask"[0] != "hold"[0];
    NobodyCancels(SeenLetter(), s, AWalkerFirst);
    BothSquaresReply(SeenLetter());
  }

  lemma MissedOnHold(p: Pass)
    requires MovedOn(p)
    ensures var script := [Reply(LetterNamed("5"), "ask", "seen")];
            && BeatsAreLawful(CartPlan(), AWalkerFirst, p, script)
            && IssueAll(CartPlan(), AWalkerFirst, p, script).took == []
  {
    var reply := Reply(LetterNamed("5"), "ask", "seen");
    assert "ask"[0] != "hold"[0];
    OneStatement(AWalkerFirst, p, reply);
    AReplyMovesNothing(CartPlan(), AWalkerFirst, p, LetterNamed("5"), "ask", "seen");
  }

  lemma OneStatement(beats: nat -> Beat, p: Pass, only: Event)
    ensures IssueAll(CartPlan(), beats, p, [only]) == Issue(CartPlan(), beats, p, only)
    ensures BeatsAreLawful(CartPlan(), beats, p, [only]) <==>
            && Lawful(CartPlan(), p.s, beats(p.sent).others) && Met(CartPlan(), beats, p).time < beats(p.sent).at
  {
    IssueTheFirst(CartPlan(), beats, p, only, []);
    BeatsOfTheFirst(CartPlan(), beats, p, only, []);
    assert [only] + [] == [only];
  }

  // ---- A square filed under a version that never led there ----

  /** The same squares, doors and goals; the arrow leads back. */
  function Turned(): Definition {
    CartPlan().doc.(edges := [Edge("hold", "ask", Some(TIMEOUT))], onPublish := Migrate)
  }

  /** Version 1 is what the run entered, version 2 what it is re-pinned to. */
  function TheVersions(): seq<Definition> {
    [CartPlan().doc, CartPlan().doc, Turned()]
  }

  lemma TurnedIsLawful()
    ensures BoardIsLawful(Turned()) && KeepsOpenRuns(Turned(), ["ask"], Some([CartDoor()]))
    ensures ArrowsFrom(Turned().edges, "ask") == []
  {
    CartPlanReads();
    var only := Edge("hold", "ask", Some(TIMEOUT));
    assert Turned().edges == [] + [only] && "ask"[0] != "hold"[0];
    ArrowsFromLonger([], only, "ask");
    ArrowsFromLonger([], only, "hold");
  }

  function ClaimedUnderOne(): Pinned {
    Happened(TheVersions(), CartPlan(), Pinned(Born(), []), DUE, Happens(Claim(0)))
  }

  function RepinnedRun(): Pinned {
    Happened(TheVersions(), CartPlan(), ClaimedUnderOne(), DUE + 1, Repins(2))
  }

  /** A visit walks from the first square to the second; a migrate publish re-pins
      the run before it writes; and the square it left is on record under a
      version with no arrow out of it. */
  lemma AStepIsMisfiled()
    ensures BoardIsLawful(CartPlan().doc) && BoardIsLawful(Turned())
            && KeepsOpenRuns(Turned(), [ClaimedUnderOne().s.row.node], Some(CartPlan().doc.doors))
    ensures var landing := Happens(Lands(DUE + 2));
            && CanHappen(TheVersions(), CartPlan(), Pinned(Born(), []), DUE, Happens(Claim(0)))
            && CanHappen(TheVersions(), CartPlan(), ClaimedUnderOne(), DUE + 1, Repins(2))
            && CanHappen(TheVersions(), CartPlan(), RepinnedRun(), DUE + 3, landing)
            && var after := Happened(TheVersions(), CartPlan(), RepinnedRun(), DUE + 3, landing);
               && |after.s.trail| == 1 && after.s.trail[0].node == "ask" && after.s.trail[0].next == Some("hold")
               && after.filings == [Filing(1, 2)] && !AllWellFiled(TheVersions(), after)
  {
    CartPlanIsLawful();
    TurnedIsLawful();
    TheRunIsClaimed();
    OneEvent(CartPlan(), Born(), ClaimedAt()[0]);
    TheClaimIsFiled();
    QuietWorldsAreLawful(DUE + 2, DUE + 3);
    TheLandingIsMisfiled(RepinnedRun());
  }

  lemma TheClaimIsFiled()
    requires Reached(ClaimedAt()) == State(ClaimedRun(), [], map[0 := Seen(ClaimedRun(), DUE)], map[], 2, DUE)
    requires Reached(ClaimedAt()) == Next(CartPlan(), Born(), DUE, Claim(0))
    ensures ClaimedUnderOne() == Pinned(Reached(ClaimedAt()), [])
  {
    assert PlanAt(TheVersions(), CartPlan(), 1) == CartPlan();
  }

  lemma TheLandingIsMisfiled(p: Pinned)
    requires p.filings == [] && p.s.row == ClaimedRun().(version := 2) && p.s.trail == []
    requires p.s.visits == map[0 := Seen(ClaimedRun(), DUE)] && ArrowsFrom(Turned().edges, "ask") == []
    ensures var after := Happened(TheVersions(), CartPlan(), p, DUE + 3, Happens(Lands(DUE + 2)));
            && |after.s.trail| == 1 && after.s.trail[0].node == "ask" && after.s.trail[0].next == Some("hold")
            && after.filings == [Filing(1, 2)] && !AllWellFiled(TheVersions(), after)
  {
    var after := Happened(TheVersions(), CartPlan(), p, DUE + 3, Happens(Lands(DUE + 2)));
    assert PlanAt(TheVersions(), CartPlan(), 1) == CartPlan();
    TheClaimedVisitLands(p.s, DUE + 3);
    assert after.filings == [Filing(1, 2)];
    assert !IsWellFiled(TheVersions(), after.filings[0], after.s.trail[0]);
  }
}
