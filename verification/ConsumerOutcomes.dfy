/** What becomes of one letter: its goal, lost, taken, or taken twice. */
module ConsumerOutcomes {
  import opened Wrappers
  import opened Board
  import opened Steps
  import opened Entry
  import opened Lease
  import opened Consumer
  import opened ConsumerTheorems

  // ---- A goal ----

  lemma {:induction false} StoppingAtATaken(plan: Plan, beats: nat -> Beat, p: Pass, script: seq<Event>)
    requires forall event | event in script :: event.GoalCancel?
    ensures var after := IssueUntilTaken(plan, beats, p, script);
            if exists i | 0 <= i < |script| :: TakesFound(plan, beats, p, script, i) then
              && |after.took| == |p.took| + 1 && after.took[..|p.took|] == p.took
              && after.took[|p.took|] in script && after.took[|p.took|].isItsGoal
              && after.s.row.status == Exited && after.s.row.exitReason == Some(after.took[|p.took|].reason)
            else after.took == p.took
    decreases |script|
  {
    if script != [] {
      var after := Issue(plan, beats, p, script[0]);
      if TakesNext(plan, beats, p, script[0]) {
        assert TakesFound(plan, beats, p, script, 0);
      } else {
        StoppingAtATaken(plan, beats, after, script[1..]);
        if i :| 0 <= i < |script| && TakesFound(plan, beats, p, script, i) {
          AfterTheFirst(plan, beats, p, script, i);
        }
        if i :| 0 <= i < |script[1..]| && TakesFound(plan, beats, after, script[1..], i) {
          AfterTheFirst(plan, beats, p, script, i + 1);
        }
      }
    }
  }

  /** A goal of this letter ends the run exactly when some tier it may be asked
      about is met and finds the run open as its statement arrives. Then nothing
      else of the letter is sent; else the letter ends nothing. */
  lemma AGoalEndsTheRunAndWakesNothing(
    plan: Plan, beats: nat -> Beat, hearing: Hearing, reader: nat, s: State)
    requires reader in s.looks
    ensures var cancels := Cancels(GoalTiers(plan.doc.goals), hearing, reader, 0);
            var p := Consumed(plan, beats, hearing, reader, s);
            if exists i | 0 <= i < |cancels| :: TakesFound(plan, beats, Pass(s, 0, []), cancels, i) then
              && p == AfterGoals(plan, beats, hearing, reader, s)
              && |p.took| == 1 && p.took[0] in cancels && p.took[0].GoalCancel? && p.took[0].isItsGoal
              && p.s.row.status == Exited && p.s.row.exitReason == Some(p.took[0].reason)
            else
              AfterGoals(plan, beats, hearing, reader, s).took == []
              && forall event | event in p.took :: !event.GoalCancel?
  {
    var seen := s.looks[reader].run;
    var tiers := GoalTiers(plan.doc.goals);
    var cancels := Cancels(tiers, hearing, reader, 0);
    forall event | event in cancels ensures event.GoalCancel? {
      CancelsAreStatements(plan, tiers, hearing, reader, 0, event);
    }
    StoppingAtATaken(plan, beats, Pass(s, 0, []), cancels);
    var ended := AfterGoals(plan, beats, hearing, reader, s);
    var script := Wakes(plan.doc, hearing, seen) + Repeats(plan.doc, hearing, seen);
    OnlySentIsTaken(plan, beats, ended, script);
    forall event | event in script ensures !event.GoalCancel? {
      WakesAndRepeats(plan.doc, hearing, seen, event);
    }
  }

  lemma WakesAndRepeats(doc: Definition, hearing: Hearing, seen: Run, event: Event)
    requires event in Wakes(doc, hearing, seen) + Repeats(doc, hearing, seen)
    ensures event.Reply? || event.Refresh? || event.Repeat?
    ensures event.Reply? ==> event in Replies(doc.nodes, hearing)
    ensures event.Repeat? ==> event in Repeats(doc, hearing, seen)
  {
    if event in Replies(doc.nodes, hearing) {
      RepliesAreAnswers(doc.nodes, hearing, event);
    }
  }

  // ---- Lost, or taken twice ----

  /** No goal of the letter has ended the run. */
  predicate EndsNothing(plan: Plan, beats: nat -> Beat, hearing: Hearing, reader: nat, s: State) {
    AfterGoals(plan, beats, hearing, reader, s).took == []
  }

  /** Some square the letter answers is asked while the run stands on it, open. */
  predicate SomeSquareHears(plan: Plan, beats: nat -> Beat, p: Pass, nodes: seq<Node>, hearing: Hearing) {
    var script := Replies(nodes, hearing);
    exists i | 0 <= i < |script| :: TakesFound(plan, beats, p, script, i)
  }

  lemma SomeSquareTakesIt(plan: Plan, beats: nat -> Beat, p: Pass, nodes: seq<Node>, hearing: Hearing)
    requires DistinctIds(nodes) && p.took == []
    ensures IssueAll(plan, beats, p, Replies(nodes, hearing)).took != []
            <==> SomeSquareHears(plan, beats, p, nodes, hearing)
  {
    var script := Replies(nodes, hearing);
    var took := IssueAll(plan, beats, p, script).took;
    OnlySentIsTaken(plan, beats, p, script);
    RepliesDiffer(nodes, hearing);
    if took != [] {
      assert took[0] in took;
      var i :| 0 <= i < |script| && script[i] == took[0];
      AStatementIsTakenIff(plan, beats, p, script, i);
    }
    if i :| 0 <= i < |script| && TakesFound(plan, beats, p, script, i) {
      AStatementIsTakenIff(plan, beats, p, script, i);
    }
  }

  /** A letter that the square it was read on answers is lost, neither an answer
      nor, any more, a repeat, exactly when no square that answers it is asked
      while the run stands on it, open. */
  lemma AnAnswerIsLostIff(plan: Plan, beats: nat -> Beat, hearing: Hearing, reader: nat, s: State)
    requires reader in s.looks && DistinctIds(plan.doc.nodes)
    requires EndsNothing(plan, beats, hearing, reader, s)
    requires AnsweredBy(plan.doc, hearing, s.looks[reader].run)
    ensures Consumed(plan, beats, hearing, reader, s).took == [] <==>
            !SomeSquareHears(plan, beats, AfterGoals(plan, beats, hearing, reader, s), plan.doc.nodes, hearing)
  {
    var seen := s.looks[reader].run;
    SomeSquareTakesIt(plan, beats, AfterGoals(plan, beats, hearing, reader, s), plan.doc.nodes, hearing);
    var replies := Replies(plan.doc.nodes, hearing);
    assert Wakes(plan.doc, hearing, seen) == replies + [];
    assert Wakes(plan.doc, hearing, seen) + Repeats(plan.doc, hearing, seen) == replies;
  }

  ghost predicate TookAnAnswer(p: Pass) {
    exists event | event in p.took :: event.Reply?
  }

  ghost predicate TookARepeat(p: Pass) {
    exists event | event in p.took :: event.Repeat?
  }

  /** The pass when its replies, and its refresh if it has one, have been sent. */
  function AfterWakes(plan: Plan, beats: nat -> Beat, hearing: Hearing, reader: nat, s: State): Pass
    requires reader in s.looks
  {
    IssueAll(plan, beats, AfterGoals(plan, beats, hearing, reader, s),
             Wakes(plan.doc, hearing, s.looks[reader].run))
  }

  /** The row lets the letter in as a repeat. */
  predicate LetsTheRepeatIn(plan: Plan, hearing: Hearing, row: Run) {
    && hearing.repeat.Some? && row.status == Waiting && row.wake.Some?
    && !IsNoop(RepeatFacts(hearing.letter, plan.maxChars), hearing.repeat.value.door, hearing.repeat.value.policy)
    && LetsIn(row, hearing.letter, hearing.repeat.value.door)
  }

  predicate TakesTheRepeat(plan: Plan, beats: nat -> Beat, hearing: Hearing, seen: Run, woken: Pass) {
    !AnsweredBy(plan.doc, hearing, seen) && LetsTheRepeatIn(plan, hearing, Met(plan, beats, woken).row)
  }

  lemma TheRepeatComesLast(plan: Plan, beats: nat -> Beat, hearing: Hearing, reader: nat, s: State)
    requires reader in s.looks && EndsNothing(plan, beats, hearing, reader, s)
    ensures var seen := s.looks[reader].run;
            var woken := AfterWakes(plan, beats, hearing, reader, s);
            var p := Consumed(plan, beats, hearing, reader, s);
            && (forall event | event in woken.took :: !event.Repeat?)
            && p.took == woken.took + (if TakesTheRepeat(plan, beats, hearing, seen, woken) then
                                         Repeats(plan.doc, hearing, seen) else [])
  {
    var seen := s.looks[reader].run;
    var ended := AfterGoals(plan, beats, hearing, reader, s);
    var wakes := Wakes(plan.doc, hearing, seen);
    IssueAllJoins(plan, beats, ended, wakes, Repeats(plan.doc, hearing, seen));
    OnlySentIsTaken(plan, beats, ended, wakes);
    forall event | event in wakes ensures !event.Repeat? {
      WakesHoldNoRepeat(plan.doc, hearing, seen, event);
    }
    TheRepeatIsTakenIff(plan, beats, hearing, seen, IssueAll(plan, beats, ended, wakes));
  }

  lemma TheRepeatIsTakenIff(plan: Plan, beats: nat -> Beat, hearing: Hearing, seen: Run, woken: Pass)
    ensures IssueAll(plan, beats, woken, Repeats(plan.doc, hearing, seen)).took
            == woken.took + (if TakesTheRepeat(plan, beats, hearing, seen, woken) then
                               Repeats(plan.doc, hearing, seen) else [])
  {
    var repeats := Repeats(plan.doc, hearing, seen);
    if repeats != [] {
      IssueTheFirst(plan, beats, woken, repeats[0], []);
      assert repeats == [repeats[0]] + [];
      IssuingAdds(plan, beats, woken, repeats[0]);
    }
  }

  lemma WakesHoldNoRepeat(doc: Definition, hearing: Hearing, seen: Run, event: Event)
    requires event in Wakes(doc, hearing, seen)
    ensures event.Reply? || event.Refresh?
  {
    if event in Replies(doc.nodes, hearing) {
      RepliesAreAnswers(doc.nodes, hearing, event);
    }
  }

  lemma AnAnswerIsTakenFirst(plan: Plan, beats: nat -> Beat, hearing: Hearing, reader: nat, s: State)
    requires reader in s.looks && DistinctIds(plan.doc.nodes) && EndsNothing(plan, beats, hearing, reader, s)
    ensures TookAnAnswer(AfterWakes(plan, beats, hearing, reader, s)) <==>
            && !hearing.addressedElsewhere
            && SomeSquareHears(plan, beats, AfterGoals(plan, beats, hearing, reader, s), plan.doc.nodes, hearing)
  {
    var seen := s.looks[reader].run;
    var ended := AfterGoals(plan, beats, hearing, reader, s);
    var replies := Replies(plan.doc.nodes, hearing);
    if !hearing.addressedElsewhere {
      var replied := IssueAll(plan, beats, ended, replies);
      IssueAllJoins(plan, beats, ended, replies, Newest(plan.doc, hearing, seen));
      SomeSquareTakesIt(plan, beats, ended, plan.doc.nodes, hearing);
      OnlySentIsTaken(plan, beats, ended, replies);
      OnlySentIsTaken(plan, beats, replied, Newest(plan.doc, hearing, seen));
      if replied.took != [] {
        RepliesAreAnswers(plan.doc.nodes, hearing, replied.took[0]);
        assert AfterWakes(plan, beats, hearing, reader, s).took[0] == replied.took[0];
        assert replied.took[0] in AfterWakes(plan, beats, hearing, reader, s).took;
      }
    }
  }

  /** A letter is taken twice over, as an answer and as a repeat, exactly when some
      square that answers it is asked while the run stands on it, the square the
      run was read on does not answer it, and the door's own guards let it in
      when the repeat's turn comes. */
  lemma AnAnswerIsARepeatTooIff(plan: Plan, beats: nat -> Beat, hearing: Hearing, reader: nat, s: State)
    requires reader in s.looks && DistinctIds(plan.doc.nodes) && EndsNothing(plan, beats, hearing, reader, s)
    ensures var p := Consumed(plan, beats, hearing, reader, s);
            var seen := s.looks[reader].run;
            TookAnAnswer(p) && TookARepeat(p) <==>
            && !hearing.addressedElsewhere
            && SomeSquareHears(plan, beats, AfterGoals(plan, beats, hearing, reader, s), plan.doc.nodes, hearing)
            && AnswerAt(plan.doc.nodes, hearing, seen.node).None?
            && LetsTheRepeatIn(plan, hearing, Met(plan, beats, AfterWakes(plan, beats, hearing, reader, s)).row)
  {
    var seen := s.looks[reader].run;
    var woken := AfterWakes(plan, beats, hearing, reader, s);
    TheRepeatComesLast(plan, beats, hearing, reader, s);
    AnAnswerIsTakenFirst(plan, beats, hearing, reader, s);
    TookBothIff(Consumed(plan, beats, hearing, reader, s), woken, Repeats(plan.doc, hearing, seen),
                TakesTheRepeat(plan, beats, hearing, seen, woken));
  }

  lemma TookBothIff(p: Pass, woken: Pass, repeats: seq<Event>, taken: bool)
    requires p.took == woken.took + (if taken then repeats else [])
    requires (forall event | event in woken.took :: !event.Repeat?) && forall event | event in repeats :: event.Repeat?
    requires taken ==> repeats != []
    ensures TookAnAnswer(p) && TookARepeat(p) <==> TookAnAnswer(woken) && taken
  {
    if TookAnAnswer(woken) {
      var event :| event in woken.took && event.Reply?;
      assert event in p.took;
    }
    if taken {
      assert repeats[0] in repeats && repeats[0] in p.took;
    }
  }

  /** While the look is still true the letter is not taken twice over, and a
      letter the square answers is neither lost nor answered twice. */
  lemma ATrueLookIsTakenOnce(plan: Plan, beats: nat -> Beat, hearing: Hearing, reader: nat, s: State)
    requires reader in s.looks && DistinctIds(plan.doc.nodes) && EndsNothing(plan, beats, hearing, reader, s)
    requires FindsItOn(plan, beats, AfterGoals(plan, beats, hearing, reader, s), Replies(plan.doc.nodes, hearing),
                       s.looks[reader].run.node)
    ensures var seen := s.looks[reader].run;
            var p := Consumed(plan, beats, hearing, reader, s);
            && !(TookAnAnswer(p) && TookARepeat(p))
            && (AnsweredBy(plan.doc, hearing, seen) ==> p.took == Heard(plan.doc.nodes, hearing, seen.node))
  {
    var seen := s.looks[reader].run;
    var ended := AfterGoals(plan, beats, hearing, reader, s);
    AStillRunHearsOnce(plan, beats, ended, plan.doc.nodes, hearing, seen.node);
    AnAnswerIsARepeatTooIff(plan, beats, hearing, reader, s);
    SomeSquareTakesIt(plan, beats, ended, plan.doc.nodes, hearing);
    if AnsweredBy(plan.doc, hearing, seen) {
      var replies := Replies(plan.doc.nodes, hearing);
      assert Wakes(plan.doc, hearing, seen) == replies + [];
      assert Wakes(plan.doc, hearing, seen) + Repeats(plan.doc, hearing, seen) == replies;
    }
  }

  /** A reply that is taken stores its answer and wakes the run now. */
  lemma AReplyStoresItsAnswer(row: Run, letter: Letter, answer: string, at: int, gen: nat)
    requires row.status != Exited
    ensures var written := ReplyStatement(row, row.node, ReplyPatch(row.node, letter, answer), at, gen);
            && written.Some? && written.value.node == row.node && written.value.status == Waiting
            && written.value.wake == Some(Stamp(at, gen))
            && Get(written.value.context, ReplyKey(row.node)) == Some(Text(answer))
  {
    NamesThatAreNotAnswers();
    assert IsReplyKey(ReplyKey(row.node));
  }

  // ---- Undisturbed ----

  /** Nobody writes between the consumer's statements. */
  ghost predicate Alone(beats: nat -> Beat) {
    forall k: nat :: beats(k).others == []
  }

  lemma {:induction false} UnmetGoalsChangeNothing(plan: Plan, beats: nat -> Beat, p: Pass, script: seq<Event>)
    requires Alone(beats) && forall event | event in script :: event.GoalCancel? && !event.isItsGoal
    ensures var after := IssueUntilTaken(plan, beats, p, script);
            after.took == p.took && after.s.row == p.s.row
    decreases |script|
  {
    if script != [] {
      TakenIsWritten(plan, p.s, beats(p.sent).at, script[0]);
      UnmetGoalsChangeNothing(plan, beats, Issue(plan, beats, p, script[0]), script[1..]);
    }
  }

  lemma {:induction false} UnmetTiers(
    plan: Plan, tiers: seq<Goal>, hearing: Hearing, reader: nat, from: nat, event: Event)
    requires from <= |tiers| && event in Cancels(tiers, hearing, reader, from)
    requires forall i: nat | from <= i < |tiers| && hearing.applies(i) :: !hearing.meets(i)
    ensures event.GoalCancel? && !event.isItsGoal
    decreases |tiers| - from
  {
    CancelsFrom(tiers, hearing, reader, from);
    if event in Cancels(tiers, hearing, reader, from + 1) {
      UnmetTiers(plan, tiers, hearing, reader, from + 1, event);
    }
  }

  /** Replies leave the token where it is; and when none is taken, the row. */
  lemma {:induction false} RepliesLeaveItStanding(
    plan: Plan, beats: nat -> Beat, p: Pass, script: seq<Event>, square: string)
    requires Alone(beats) && StandsOpenOn(p.s.row, square) && forall event | event in script :: event.Reply?
    ensures FindsItOn(plan, beats, p, script, square)
    ensures IssueAll(plan, beats, p, script).took == p.took ==> IssueAll(plan, beats, p, script).s.row == p.s.row
    decreases |script|
  {
    if script != [] {
      var after := Issue(plan, beats, p, script[0]);
      assert script[0] in script;
      AReplyLeavesItStanding(plan, beats, p, script[0], square);
      RepliesLeaveItStanding(plan, beats, after, script[1..], square);
      OnlySentIsTaken(plan, beats, after, script[1..]);
    }
  }

  lemma AReplyLeavesItStanding(plan: Plan, beats: nat -> Beat, p: Pass, reply: Event, square: string)
    requires Alone(beats) && reply.Reply? && StandsOpenOn(p.s.row, square)
    ensures var after := Issue(plan, beats, p, reply);
            && StandsOpenOn(after.s.row, square)
            && if after.took == p.took then after.s.row == p.s.row else |after.took| > |p.took|
  {
  }

  /** A letter's facts never touch the marks a repeat is refused by. */
  lemma RefreshKeepsTheMarks(row: Run, letter: Letter, maxChars: nat, square: string, at: int, gen: nat, door: Door)
    requires StandsOpenOn(row, square)
    ensures var after := RefreshStatement(row, square, LetterFacts(letter, maxChars), letter.id, at, gen);
            && after.Some? && after.value.status == Waiting && after.value.wake.Some? && after.value.node == square
            && (LetsIn(after.value, letter, door) <==> LetsIn(row, letter, door))
  {
    var after := RefreshStatement(row, square, LetterFacts(letter, maxChars), letter.id, at, gen).value;
    assert REPEAT_EVENTS_KEY in BOOKKEEPING_KEYS && SOURCE_EVENT_KEY in BOOKKEEPING_KEYS;
    assert REPEAT_EVENTS_KEY[0] != CUT_SHORT_BY_KEY[0] && SOURCE_EVENT_KEY[0] != CUT_SHORT_BY_KEY[0];
    assert Get(after.context, REPEAT_EVENTS_KEY) == Get(row.context, REPEAT_EVENTS_KEY);
    assert Get(after.context, SOURCE_EVENT_KEY) == Get(row.context, SOURCE_EVENT_KEY);
  }

  /** The row when the repeat's turn comes: as it was read, or refreshed. */
  lemma WokenAlone(plan: Plan, beats: nat -> Beat, p: Pass, hearing: Hearing, row: Run)
    requires Alone(beats) && DistinctIds(plan.doc.nodes) && row.status != Exited
    requires p.s.row == row && p.took == [] && !hearing.addressedElsewhere
    ensures var woken := IssueAll(plan, beats, p, Wakes(plan.doc, hearing, row));
            && woken.took == Heard(plan.doc.nodes, hearing, row.node) + Newest(plan.doc, hearing, row)
            && (woken.took == [] ==> woken.s.row == row)
            && (Refreshes(plan.doc, hearing, row) ==>
                  forall door :: woken.s.row.status == Waiting && woken.s.row.wake.Some?
                    && (LetsIn(woken.s.row, hearing.letter, door) <==> LetsIn(row, hearing.letter, door)))
  {
    var replies := Replies(plan.doc.nodes, hearing);
    var newest := Newest(plan.doc, hearing, row);
    var replied := IssueAll(plan, beats, p, replies);
    forall event | event in replies ensures event.Reply? {
      RepliesAreAnswers(plan.doc.nodes, hearing, event);
    }
    RepliesLeaveItStanding(plan, beats, p, replies, row.node);
    AStillRunHearsOnce(plan, beats, p, plan.doc.nodes, hearing, row.node);
    IssueAllJoins(plan, beats, p, replies, newest);
    if Refreshes(plan.doc, hearing, row) {
      assert Heard(plan.doc.nodes, hearing, row.node) == [];
      IssueTheFirst(plan, beats, replied, newest[0], []);
      assert newest == [newest[0]] + [];
      ARefreshAlone(plan, beats, replied, hearing, row);
    }
  }

  lemma ARefreshAlone(plan: Plan, beats: nat -> Beat, p: Pass, hearing: Hearing, row: Run)
    requires Alone(beats) && row.status != Exited && p.s.row == row && p.took == []
    ensures var after := Issue(plan, beats, p, Refresh(hearing.letter, row.node));
            && after.took == [Refresh(hearing.letter, row.node)]
            && forall door :: after.s.row.status == Waiting && after.s.row.wake.Some?
                 && (LetsIn(after.s.row, hearing.letter, door) <==> LetsIn(row, hearing.letter, door))
  {
    forall door: Door
      ensures var after := Issue(plan, beats, p, Refresh(hearing.letter, row.node)).s.row;
              after.status == Waiting && after.wake.Some?
              && (LetsIn(after, hearing.letter, door) <==> LetsIn(row, hearing.letter, door))
    {
      RefreshKeepsTheMarks(row, hearing.letter, plan.maxChars, row.node, beats(p.sent).at, p.s.nextGen, door);
    }
  }

  /** Does the door take the letter from this row, refreshed or not? A refresh
      un-parks the run, and so lets in a repeat that would have missed it. */
  predicate IsARepeatOf(plan: Plan, hearing: Hearing, row: Run) {
    && hearing.repeat.Some? && !AnsweredBy(plan.doc, hearing, row)
    && !IsNoop(RepeatFacts(hearing.letter, plan.maxChars), hearing.repeat.value.door, hearing.repeat.value.policy)
    && (row.status == Waiting || (!hearing.addressedElsewhere && Refreshes(plan.doc, hearing, row)))
    && LetsIn(row, hearing.letter, hearing.repeat.value.door)
  }

  /** Undisturbed, on a look that is still true, and with no goal met, the whole
      of what a letter does is known beforehand: its own square's answer and
      nothing else; or, from a square that hears nothing, the newest facts; and
      then, unless it answered, the repeat, both on the same square. */
  lemma AnUndisturbedLetter(plan: Plan, beats: nat -> Beat, hearing: Hearing, reader: nat, s: State)
    requires Alone(beats) && DistinctIds(plan.doc.nodes) && reader in s.looks && s.looks[reader].run == s.row
    requires s.row.status != Exited && (s.row.wake.Some? <==> s.row.status == Waiting)
    requires forall i: nat | i < |GoalTiers(plan.doc.goals)| && hearing.applies(i) :: !hearing.meets(i)
    ensures Consumed(plan, beats, hearing, reader, s).took
            == (if hearing.addressedElsewhere then []
                else Heard(plan.doc.nodes, hearing, s.row.node) + Newest(plan.doc, hearing, s.row))
             + (if IsARepeatOf(plan, hearing, s.row) then Repeats(plan.doc, hearing, s.row) else [])
  {
    var tiers := GoalTiers(plan.doc.goals);
    var ended := AfterGoals(plan, beats, hearing, reader, s);
    forall event | event in Cancels(tiers, hearing, reader, 0) ensures event.GoalCancel? && !event.isItsGoal {
      UnmetTiers(plan, tiers, hearing, reader, 0, event);
    }
    UnmetGoalsChangeNothing(plan, beats, Pass(s, 0, []), Cancels(tiers, hearing, reader, 0));
    TheRepeatComesLast(plan, beats, hearing, reader, s);
    if !hearing.addressedElsewhere {
      WokenAlone(plan, beats, ended, hearing, s.row);
    }
  }
}
