/** What one letter comes to, whatever others do between the consumer's
    statements. */
module ConsumerTheorems {
  import opened Wrappers
  import opened Board
  import opened Steps
  import opened Entry
  import opened Lease
  import opened RunHistory
  import opened Consumer

  // ---- A pass is a schedule ----

  lemma {:induction false} SchedulesJoin(plan: Plan, s: State, before: seq<Timed>, later: seq<Timed>)
    ensures After(plan, s, before + later) == After(plan, After(plan, s, before), later)
    ensures Lawful(plan, s, before + later) <==> Lawful(plan, s, before) && Lawful(plan, After(plan, s, before), later)
    decreases |before|
  {
    if before == [] {
      assert before + later == later;
    } else {
      assert (before + later)[1..] == before[1..] + later;
      SchedulesJoin(plan, Next(plan, s, before[0].at, before[0].event), before[1..], later);
    }
  }

  /** The goal-cancels that are sent: up to the first that matches. */
  function SentUntilTaken(plan: Plan, beats: nat -> Beat, p: Pass, script: seq<Event>): seq<Event>
    decreases |script|
  {
    if script == [] then []
    else
      [script[0]]
      + (if TakesNext(plan, beats, p, script[0]) then []
         else SentUntilTaken(plan, beats, Issue(plan, beats, p, script[0]), script[1..]))
  }

  /** Every statement of the pass, in the order they are sent. */
  function ScriptOf(plan: Plan, beats: nat -> Beat, hearing: Hearing, reader: nat, s: State): seq<Event>
    requires reader in s.looks
  {
    var seen := s.looks[reader].run;
    SentUntilTaken(plan, beats, Pass(s, 0, []), Cancels(GoalTiers(plan.doc.goals), hearing, reader, 0))
    + (if AfterGoals(plan, beats, hearing, reader, s).took != [] then []
       else Wakes(plan.doc, hearing, seen) + Repeats(plan.doc, hearing, seen))
  }

  /** The statements among the others' events. */
  function Sending(plan: Plan, beats: nat -> Beat, p: Pass, script: seq<Event>): seq<Timed>
    decreases |script|
  {
    if script == [] then []
    else
      beats(p.sent).others + [Timed(beats(p.sent).at, script[0])]
      + Sending(plan, beats, Issue(plan, beats, p, script[0]), script[1..])
  }

  /** The others keep to the protocol, and each statement comes after them. */
  ghost predicate BeatsAreLawful(plan: Plan, beats: nat -> Beat, p: Pass, script: seq<Event>)
    decreases |script|
  {
    script == [] ||
    (&& Lawful(plan, p.s, beats(p.sent).others)
     && Met(plan, beats, p).time < beats(p.sent).at
     && BeatsAreLawful(plan, beats, Issue(plan, beats, p, script[0]), script[1..]))
  }

  lemma BeatsOfTheFirst(plan: Plan, beats: nat -> Beat, p: Pass, event: Event, rest: seq<Event>)
    ensures BeatsAreLawful(plan, beats, p, [event] + rest) <==>
            && Lawful(plan, p.s, beats(p.sent).others) && Met(plan, beats, p).time < beats(p.sent).at
            && BeatsAreLawful(plan, beats, Issue(plan, beats, p, event), rest)
  {
    assert ([event] + rest)[1..] == rest;
  }

  /** A statement the consumer may send: about a look it has taken, or a square
      that listens. */
  predicate IsAStatement(plan: Plan, looks: set<nat>, event: Event) {
    match event
    case GoalCancel(c, _, _, _) => c in looks
    case Reply(_, square, _) =>
      NodeNamed(plan.doc.nodes, square).Some? && Listens(NodeNamed(plan.doc.nodes, square).value)
    case Refresh(_, _) => true
    case Repeat(_, _, _) => true
    case _ => false
  }

  lemma {:induction false} LooksStay(plan: Plan, s: State, schedule: seq<Timed>)
    ensures s.looks.Keys <= After(plan, s, schedule).looks.Keys
    decreases |schedule|
  {
    if schedule != [] {
      LooksStayOnce(plan, s, schedule[0].at, schedule[0].event);
      LooksStay(plan, Next(plan, s, schedule[0].at, schedule[0].event), schedule[1..]);
    }
  }

  lemma LooksStayOnce(plan: Plan, s: State, at: int, event: Event)
    ensures s.looks.Keys <= Next(plan, s, at, event).looks.Keys
  {
  }

  lemma StatementsAreEnabled(plan: Plan, s: State, at: int, event: Event)
    requires IsAStatement(plan, s.looks.Keys, event) && s.time < at
    ensures Enabled(plan, s, at, event)
  {
  }

  lemma {:induction false} SendingIsLawful(
    plan: Plan, beats: nat -> Beat, p: Pass, script: seq<Event>, looks: set<nat>)
    requires BeatsAreLawful(plan, beats, p, script)
    requires looks <= p.s.looks.Keys && forall event | event in script :: IsAStatement(plan, looks, event)
    ensures Lawful(plan, p.s, Sending(plan, beats, p, script))
    ensures After(plan, p.s, Sending(plan, beats, p, script)) == IssueAll(plan, beats, p, script).s
    decreases |script|
  {
    if script != [] {
      var others, mine := beats(p.sent).others, [Timed(beats(p.sent).at, script[0])];
      var after := Issue(plan, beats, p, script[0]);
      var rest := Sending(plan, beats, after, script[1..]);
      LooksStay(plan, p.s, others);
      LooksStayOnce(plan, Met(plan, beats, p), mine[0].at, script[0]);
      assert script[0] in script;
      StatementsAreEnabled(plan, Met(plan, beats, p), mine[0].at, script[0]);
      SendingIsLawful(plan, beats, after, script[1..], looks);
      OneEvent(plan, Met(plan, beats, p), mine[0]);
      SchedulesJoin(plan, p.s, others, mine);
      SchedulesJoin(plan, p.s, others + mine, rest);
    }
  }

  lemma OneEvent(plan: Plan, s: State, timed: Timed)
    ensures After(plan, s, [timed]) == Next(plan, s, timed.at, timed.event)
    ensures Lawful(plan, s, [timed]) <==> Enabled(plan, s, timed.at, timed.event)
  {
  }

  lemma {:induction false} StoppingIsNotSending(plan: Plan, beats: nat -> Beat, p: Pass, script: seq<Event>)
    ensures IssueUntilTaken(plan, beats, p, script)
            == IssueAll(plan, beats, p, SentUntilTaken(plan, beats, p, script))
    ensures forall event | event in SentUntilTaken(plan, beats, p, script) :: event in script
    decreases |script|
  {
    if script != [] {
      var after := Issue(plan, beats, p, script[0]);
      if TakesNext(plan, beats, p, script[0]) {
        IssueTheFirst(plan, beats, p, script[0], []);
        assert [script[0]] + [] == [script[0]];
      } else {
        StoppingIsNotSending(plan, beats, after, script[1..]);
        IssueTheFirst(plan, beats, p, script[0], SentUntilTaken(plan, beats, after, script[1..]));
      }
    }
  }

  lemma {:induction false} CancelsAreStatements(
    plan: Plan, tiers: seq<Goal>, hearing: Hearing, reader: nat, from: nat, event: Event)
    requires from <= |tiers| && event in Cancels(tiers, hearing, reader, from)
    ensures event.GoalCancel? && event.reader == reader
    decreases |tiers| - from
  {
    CancelsFrom(tiers, hearing, reader, from);
    if event in Cancels(tiers, hearing, reader, from + 1) {
      CancelsAreStatements(plan, tiers, hearing, reader, from + 1, event);
    }
  }

  lemma {:induction false} RepliesAreAnswers(nodes: seq<Node>, hearing: Hearing, event: Event)
    requires event in Replies(nodes, hearing)
    ensures event.Reply? && event.letter == hearing.letter
    ensures exists node | node in nodes :: node.id == event.square && AnswerOn(hearing, node) == Some(event.answer)
  {
    if event in Replies(nodes[1..], hearing) {
      RepliesAreAnswers(nodes[1..], hearing, event);
    } else {
      assert nodes[0] in nodes;
    }
  }

  lemma ScriptsAreStatements(plan: Plan, beats: nat -> Beat, hearing: Hearing, reader: nat, s: State, event: Event)
    requires reader in s.looks && DistinctIds(plan.doc.nodes)
    requires event in ScriptOf(plan, beats, hearing, reader, s)
    ensures IsAStatement(plan, {reader}, event)
  {
    var tiers := GoalTiers(plan.doc.goals);
    StoppingIsNotSending(plan, beats, Pass(s, 0, []), Cancels(tiers, hearing, reader, 0));
    if event in Cancels(tiers, hearing, reader, 0) {
      CancelsAreStatements(plan, tiers, hearing, reader, 0, event);
    } else if event in Replies(plan.doc.nodes, hearing) {
      RepliesAreAnswers(plan.doc.nodes, hearing, event);
      var node :| node in plan.doc.nodes && node.id == event.square && AnswerOn(hearing, node) == Some(event.answer);
      DistinctIdsNameOneNode(plan.doc.nodes, node);
    }
  }

  lemma PassesAreScripts(plan: Plan, beats: nat -> Beat, hearing: Hearing, reader: nat, s: State)
    requires reader in s.looks
    ensures Consumed(plan, beats, hearing, reader, s)
            == IssueAll(plan, beats, Pass(s, 0, []), ScriptOf(plan, beats, hearing, reader, s))
  {
    var seen := s.looks[reader].run;
    var cancels := Cancels(GoalTiers(plan.doc.goals), hearing, reader, 0);
    var sent := SentUntilTaken(plan, beats, Pass(s, 0, []), cancels);
    StoppingIsNotSending(plan, beats, Pass(s, 0, []), cancels);
    IssueAllJoins(plan, beats, Pass(s, 0, []), sent, Wakes(plan.doc, hearing, seen) + Repeats(plan.doc, hearing, seen));
    assert sent + [] == sent;
  }

  /** A pass, with whatever lawful events between its statements, is a schedule
      of the protocol: so all that is proved of every schedule holds of it, the
      invariant first. */
  lemma APassIsASchedule(plan: Plan, beats: nat -> Beat, hearing: Hearing, reader: nat, s: State)
    requires reader in s.looks && DistinctIds(plan.doc.nodes)
    requires BeatsAreLawful(plan, beats, Pass(s, 0, []), ScriptOf(plan, beats, hearing, reader, s))
    ensures var schedule := Sending(plan, beats, Pass(s, 0, []), ScriptOf(plan, beats, hearing, reader, s));
            Lawful(plan, s, schedule) && After(plan, s, schedule) == Consumed(plan, beats, hearing, reader, s).s
    ensures Inv(plan, s) ==> Inv(plan, Consumed(plan, beats, hearing, reader, s).s)
  {
    var script := ScriptOf(plan, beats, hearing, reader, s);
    forall event | event in script ensures IsAStatement(plan, {reader}, event) {
      ScriptsAreStatements(plan, beats, hearing, reader, s, event);
    }
    PassesAreScripts(plan, beats, hearing, reader, s);
    SendingIsLawful(plan, beats, Pass(s, 0, []), script, {reader});
    if Inv(plan, s) {
      ScheduleKeepsInv(plan, s, Sending(plan, beats, Pass(s, 0, []), script));
    }
  }

  // ---- What is sent ----

  /** The square listens, and the letter says something on it. */
  predicate WouldAnswer(hearing: Hearing, node: Node) {
    node.kind == Wait && node.topics != [] && hearing.answers(node.id).Some?
  }

  lemma {:induction false} CancelsAreCalledFor(
    tiers: seq<Goal>, hearing: Hearing, reader: nat, from: nat, event: Event)
    requires from <= |tiers|
    ensures event in Cancels(tiers, hearing, reader, from) <==>
            exists i | from <= i < |tiers| ::
              hearing.applies(i)
              && event == GoalCancel(reader, hearing.letter, tiers[i].exitReason, hearing.meets(i))
    decreases |tiers| - from
  {
    if from < |tiers| {
      CancelsFrom(tiers, hearing, reader, from);
      CancelsAreCalledFor(tiers, hearing, reader, from + 1, event);
    }
  }

  lemma {:induction false} RepliesAreCalledFor(nodes: seq<Node>, hearing: Hearing, event: Event)
    ensures event in Replies(nodes, hearing) <==>
            exists node | node in nodes ::
              WouldAnswer(hearing, node)
              && event == Reply(hearing.letter, node.id, hearing.answers(node.id).value)
  {
    if nodes != [] {
      RepliesAreCalledFor(nodes[1..], hearing, event);
      RepliesFrom(nodes, hearing, 0);
      assert nodes[0..] == nodes && nodes == [nodes[0]] + nodes[1..];
    }
  }

  /** The run, as it was read, stands on a square this letter would answer. */
  ghost predicate StoodWhereItAnswers(doc: Definition, hearing: Hearing, seen: Run) {
    exists node | node in doc.nodes :: node.id == seen.node && WouldAnswer(hearing, node)
  }

  /** ... on a square of its document that hears no letter at all. */
  ghost predicate StoodWhereNothingHears(doc: Definition, seen: Run) {
    exists node | node in doc.nodes :: node.id == seen.node && !(node.kind == Wait && node.topics != [])
  }

  lemma TheSquareItStoodOn(doc: Definition, hearing: Hearing, seen: Run)
    requires DistinctIds(doc.nodes)
    ensures AnswerAt(doc.nodes, hearing, seen.node).Some? <==> StoodWhereItAnswers(doc, hearing, seen)
    ensures FirstNamed(doc.nodes, seen.node).Some? && !Listens(FirstNamed(doc.nodes, seen.node).value)
            <==> StoodWhereNothingHears(doc, seen)
  {
    forall node | node in doc.nodes && node.id == seen.node ensures FirstNamed(doc.nodes, seen.node) == Some(node) {
      DistinctIdsNameOneNode(doc.nodes, node);
    }
  }

  /** Every statement of a pass, and why it is sent. A goal-cancel, for a tier the
      letter may be asked about. A reply, for a square that would answer it; and a
      refresh of the square the run was read on, if that hears nothing, some other
      would answer, and the letter is no call report: unless the letter was
      addressed to another run. A repeat, if a door takes it, unless the run was
      read on a square that would answer it, and it was not addressed elsewhere. */
  lemma EveryStatementIsCalledFor(doc: Definition, hearing: Hearing, reader: nat, seen: Run, event: Event)
    requires DistinctIds(doc.nodes)
    ensures var tiers := GoalTiers(doc.goals);
            event in Cancels(tiers, hearing, reader, 0) <==>
            exists i | 0 <= i < |tiers| ::
              hearing.applies(i)
              && event == GoalCancel(reader, hearing.letter, tiers[i].exitReason, hearing.meets(i))
    ensures event in Wakes(doc, hearing, seen) <==>
            && !hearing.addressedElsewhere
            && (|| (exists node | node in doc.nodes ::
                      WouldAnswer(hearing, node)
                      && event == Reply(hearing.letter, node.id, hearing.answers(node.id).value))
                || (&& event == Refresh(hearing.letter, seen.node) && !hearing.letter.callReport
                    && StoodWhereNothingHears(doc, seen)
                    && exists node | node in doc.nodes :: WouldAnswer(hearing, node)))
    ensures event in Repeats(doc, hearing, seen) <==>
            && hearing.repeat.Some? && (hearing.addressedElsewhere || !StoodWhereItAnswers(doc, hearing, seen))
            && event == Repeat(hearing.letter, hearing.repeat.value.door, hearing.repeat.value.policy)
  {
    CancelsAreCalledFor(GoalTiers(doc.goals), hearing, reader, 0, event);
    RepliesAreCalledFor(doc.nodes, hearing, event);
    TheSquareItStoodOn(doc, hearing, seen);
    assert forall node :: WouldAnswer(hearing, node) <==> AnswerOn(hearing, node).Some?;
  }

  // ---- Which statements match ----

  /** The state the i-th statement finds. */
  function Found(plan: Plan, beats: nat -> Beat, p: Pass, script: seq<Event>, i: nat): State
    requires i < |script|
    decreases i
  {
    if i == 0 then Met(plan, beats, p) else Found(plan, beats, Issue(plan, beats, p, script[0]), script[1..], i - 1)
  }

  /** A statement that matches writes the row; one that does not changes nothing. */
  lemma TakenIsWritten(plan: Plan, s: State, at: int, event: Event)
    requires event.GoalCancel? || event.Reply? || event.Refresh? || event.Repeat?
    ensures var after := Next(plan, s, at, event);
            && (Takes(plan, s, event) ==> after.nextGen == s.nextGen + 1)
            && (!Takes(plan, s, event) ==> after == s.(time := at))
  {
  }

  lemma {:induction false} OnlySentIsTaken(plan: Plan, beats: nat -> Beat, p: Pass, script: seq<Event>)
    ensures var after := IssueAll(plan, beats, p, script);
            && |p.took| <= |after.took| && after.took[..|p.took|] == p.took
            && forall event | event in after.took :: event in p.took || event in script
    decreases |script|
  {
    if script != [] {
      OnlySentIsTaken(plan, beats, Issue(plan, beats, p, script[0]), script[1..]);
    }
  }

  ghost predicate Differ(script: seq<Event>) {
    forall i, j | 0 <= i < j < |script| :: script[i] != script[j]
  }

  predicate TakesFound(plan: Plan, beats: nat -> Beat, p: Pass, script: seq<Event>, i: nat)
    requires i < |script|
  {
    Takes(plan, Found(plan, beats, p, script, i), script[i])
  }

  lemma {:induction false} AStatementIsTakenIff(
    plan: Plan, beats: nat -> Beat, p: Pass, script: seq<Event>, i: nat)
    requires Differ(script) && i < |script| && script[i] !in p.took
    ensures script[i] in IssueAll(plan, beats, p, script).took <==> TakesFound(plan, beats, p, script, i)
    decreases i
  {
    var after := Issue(plan, beats, p, script[0]);
    if i == 0 {
      TheFirstIsTakenIff(plan, beats, p, script);
    } else {
      AfterTheFirst(plan, beats, p, script, i);
      IssuingAdds(plan, beats, p, script[0]);
      AStatementIsTakenIff(plan, beats, after, script[1..], i - 1);
    }
  }

  lemma IssuingAdds(plan: Plan, beats: nat -> Beat, p: Pass, event: Event)
    ensures Issue(plan, beats, p, event).took == if TakesNext(plan, beats, p, event) then p.took + [event] else p.took
  {
  }

  lemma TheFirstIsTakenIff(plan: Plan, beats: nat -> Beat, p: Pass, script: seq<Event>)
    requires script != [] && script[0] !in script[1..] && script[0] !in p.took
    ensures script[0] in IssueAll(plan, beats, p, script).took <==> TakesFound(plan, beats, p, script, 0)
  {
    var after := Issue(plan, beats, p, script[0]);
    IssuingAdds(plan, beats, p, script[0]);
    OnlySentIsTaken(plan, beats, after, script[1..]);
    if TakesNext(plan, beats, p, script[0]) {
      assert after.took[|p.took|] == script[0];
    }
  }

  lemma AfterTheFirst(plan: Plan, beats: nat -> Beat, p: Pass, script: seq<Event>, i: nat)
    requires 0 < i < |script|
    ensures TakesFound(plan, beats, p, script, i)
            <==> TakesFound(plan, beats, Issue(plan, beats, p, script[0]), script[1..], i - 1)
  {
  }

  lemma {:induction false} RepliesDiffer(nodes: seq<Node>, hearing: Hearing)
    requires DistinctIds(nodes)
    ensures Differ(Replies(nodes, hearing))
  {
    if nodes != [] {
      RepliesDiffer(nodes[1..], hearing);
      TheFirstIsNotAmongTheRest(nodes, hearing);
      RepliesFrom(nodes, hearing, 0);
      assert nodes[0..] == nodes;
    }
  }

  /** Of the squares a letter answers, each takes it exactly when the run stands
      on it, open, as its own statement arrives. */
  lemma AnAnswerIsTakenIff(plan: Plan, beats: nat -> Beat, p: Pass, nodes: seq<Node>, hearing: Hearing, i: nat)
    requires DistinctIds(nodes) && i < |Replies(nodes, hearing)|
    requires Replies(nodes, hearing)[i] !in p.took
    ensures var script := Replies(nodes, hearing);
            script[i].Reply?
            && (script[i] in IssueAll(plan, beats, p, script).took <==>
                  StandsOpenOn(Found(plan, beats, p, script, i).row, script[i].square))
  {
    var script := Replies(nodes, hearing);
    RepliesDiffer(nodes, hearing);
    RepliesAreAnswers(nodes, hearing, script[i]);
    AStatementIsTakenIff(plan, beats, p, script, i);
  }

  lemma TheFirstIsNotAmongTheRest(nodes: seq<Node>, hearing: Hearing)
    requires nodes != [] && DistinctIds(nodes)
    ensures forall event | event in Replies(nodes[1..], hearing) :: event.Reply? && event.square != nodes[0].id
  {
    forall event | event in Replies(nodes[1..], hearing) ensures event.Reply? && event.square != nodes[0].id {
      RepliesAreAnswers(nodes[1..], hearing, event);
      var node :| node in nodes[1..] && node.id == event.square && AnswerOn(hearing, node) == Some(event.answer);
      var k :| 0 <= k < |nodes[1..]| && nodes[1..][k] == node;
      assert nodes[1 + k] == node;
    }
  }

  // ---- How many squares take it ----

  /** How often an event of the schedule moves the token to another square. */
  function Moves(plan: Plan, s: State, schedule: seq<Timed>): nat
    decreases |schedule|
  {
    if schedule == [] then 0
    else
      var next := Next(plan, s, schedule[0].at, schedule[0].event);
      (if next.row.node != s.row.node then 1 else 0) + Moves(plan, next, schedule[1..])
  }

  /** ... of the others' events, while the script is sent. */
  function MovesDuring(plan: Plan, beats: nat -> Beat, p: Pass, script: seq<Event>): nat
    decreases |script|
  {
    if script == [] then 0
    else
      Moves(plan, p.s, beats(p.sent).others)
      + MovesDuring(plan, beats, Issue(plan, beats, p, script[0]), script[1..])
  }

  /** Only a visit that lands moves the token. */
  lemma OnlyVisitsMoveTheToken(plan: Plan, s: State, at: int, event: Event)
    requires Next(plan, s, at, event).row.node != s.row.node
    ensures event.Land? && event.walker in s.visits && s.row.wake == s.visits[event.walker].run.wake
    ensures Next(plan, s, at, event).row.wake != s.row.wake || s.row.wake.value.generation >= s.nextGen
  {
  }

  lemma {:induction false} UnmovedStays(plan: Plan, s: State, schedule: seq<Timed>)
    requires Moves(plan, s, schedule) == 0
    ensures After(plan, s, schedule).row.node == s.row.node
    decreases |schedule|
  {
    if schedule != [] {
      UnmovedStays(plan, Next(plan, s, schedule[0].at, schedule[0].event), schedule[1..]);
    }
  }

  lemma AReplyMovesNothing(plan: Plan, beats: nat -> Beat, p: Pass, letter: Letter, square: string, answer: string)
    ensures var after := Issue(plan, beats, p, Reply(letter, square, answer));
            && after.s.row.node == Met(plan, beats, p).row.node
            && |after.took| == |p.took| + (if StandsOpenOn(Met(plan, beats, p).row, square) then 1 else 0)
  {
  }

  /** The letter is taken by one square more, at most, than the token moves while
      it is asked: a second answer costs a visit that lands in between. `asked`
      are the squares already tried. */
  lemma {:induction false} AnswersFollowMoves(
    plan: Plan, beats: nat -> Beat, p: Pass, nodes: seq<Node>, hearing: Hearing, asked: set<string>)
    requires DistinctIds(nodes) && forall node | node in nodes :: node.id !in asked
    ensures var script := Replies(nodes, hearing);
            |IssueAll(plan, beats, p, script).took|
            <= |p.took| + MovesDuring(plan, beats, p, script) + (if p.s.row.node in asked then 0 else 1)
    decreases |nodes|
  {
    if nodes != [] {
      RepliesFrom(nodes, hearing, 0);
      assert nodes[0..] == nodes;
      var answer := AnswerOn(hearing, nodes[0]);
      if answer.None? {
        AnswersFollowMoves(plan, beats, p, nodes[1..], hearing, asked);
      } else {
        var reply, rest := Reply(hearing.letter, nodes[0].id, answer.value), Replies(nodes[1..], hearing);
        assert Replies(nodes, hearing)[1..] == rest;
        AReplyMovesNothing(plan, beats, p, hearing.letter, nodes[0].id, answer.value);
        assert nodes[0] in nodes;
        AnswersFollowMoves(plan, beats, Issue(plan, beats, p, reply), nodes[1..], hearing, asked + {nodes[0].id});
        if Moves(plan, p.s, beats(p.sent).others) == 0 {
          UnmovedStays(plan, p.s, beats(p.sent).others);
        }
      }
    }
  }

  /** Every statement of the script finds the run open on this square. */
  predicate FindsItOn(plan: Plan, beats: nat -> Beat, p: Pass, script: seq<Event>, square: string)
    decreases |script|
  {
    script == [] ||
    (&& StandsOpenOn(Met(plan, beats, p).row, square)
     && FindsItOn(plan, beats, Issue(plan, beats, p, script[0]), script[1..], square))
  }

  /** What a letter asked of these squares comes to for a run on this one. */
  function Heard(nodes: seq<Node>, hearing: Hearing, square: string): seq<Event> {
    var answer := AnswerAt(nodes, hearing, square);
    if answer.Some? then [Reply(hearing.letter, square, answer.value)] else []
  }

  /** While the run stands still, only its own square takes the letter, and takes
      it once. */
  lemma {:induction false} AStillRunHearsOnce(
    plan: Plan, beats: nat -> Beat, p: Pass, nodes: seq<Node>, hearing: Hearing, square: string)
    requires DistinctIds(nodes) && FindsItOn(plan, beats, p, Replies(nodes, hearing), square)
    ensures IssueAll(plan, beats, p, Replies(nodes, hearing)).took == p.took + Heard(nodes, hearing, square)
    decreases |nodes|
  {
    if nodes != [] {
      RepliesFrom(nodes, hearing, 0);
      assert nodes[0..] == nodes;
      HeardFirst(nodes, hearing, square);
      var answer := AnswerOn(hearing, nodes[0]);
      if answer.None? {
        AStillRunHearsOnce(plan, beats, p, nodes[1..], hearing, square);
      } else {
        var reply := Reply(hearing.letter, nodes[0].id, answer.value);
        assert Replies(nodes, hearing)[1..] == Replies(nodes[1..], hearing);
        AReplyIsHeardWhereItStands(plan, beats, p, reply, square);
        AStillRunHearsOnce(plan, beats, Issue(plan, beats, p, reply), nodes[1..], hearing, square);
      }
    }
  }

  lemma AReplyIsHeardWhereItStands(plan: Plan, beats: nat -> Beat, p: Pass, reply: Event, square: string)
    requires reply.Reply? && StandsOpenOn(Met(plan, beats, p).row, square)
    ensures Issue(plan, beats, p, reply).took == if reply.square == square then p.took + [reply] else p.took
  {
  }

  lemma HeardFirst(nodes: seq<Node>, hearing: Hearing, square: string)
    requires nodes != [] && DistinctIds(nodes)
    ensures Heard(nodes, hearing, square)
            == if nodes[0].id == square && AnswerOn(hearing, nodes[0]).Some? then
                 [Reply(hearing.letter, square, AnswerOn(hearing, nodes[0]).value)]
               else Heard(nodes[1..], hearing, square)
    ensures nodes[0].id == square ==> Heard(nodes[1..], hearing, square) == []
  {
    if nodes[0].id == square {
      NobodyElseHasItsName(nodes, square);
    }
  }

  lemma NobodyElseHasItsName(nodes: seq<Node>, id: string)
    requires nodes != [] && DistinctIds(nodes) && nodes[0].id == id
    ensures FirstNamed(nodes[1..], id).None?
  {
  }

  /** When the token moves once, from one square to another, after the first `m`
      squares have been asked, the document's order decides: each of the two takes
      the letter exactly if it is asked while the run is there. So the letter is
      answered twice, once, or lost. */
  lemma OneMoveDecides(
    plan: Plan, beats: nat -> Beat, p: Pass, nodes: seq<Node>, hearing: Hearing, m: nat, from: string, to: string)
    requires DistinctIds(nodes) && m <= |nodes|
    requires FindsItOn(plan, beats, p, Replies(nodes[..m], hearing), from)
    requires var before := IssueAll(plan, beats, p, Replies(nodes[..m], hearing));
             FindsItOn(plan, beats, before, Replies(nodes[m..], hearing), to)
    ensures IssueAll(plan, beats, p, Replies(nodes, hearing)).took
            == p.took + Heard(nodes[..m], hearing, from) + Heard(nodes[m..], hearing, to)
  {
    var before := IssueAll(plan, beats, p, Replies(nodes[..m], hearing));
    RepliesJoin(nodes[..m], nodes[m..], hearing);
    assert nodes[..m] + nodes[m..] == nodes;
    IssueAllJoins(plan, beats, p, Replies(nodes[..m], hearing), Replies(nodes[m..], hearing));
    AStillRunHearsOnce(plan, beats, p, nodes[..m], hearing, from);
    AStillRunHearsOnce(plan, beats, before, nodes[m..], hearing, to);
  }

  lemma {:induction false} RepliesJoin(nodes: seq<Node>, more: seq<Node>, hearing: Hearing)
    ensures Replies(nodes + more, hearing) == Replies(nodes, hearing) + Replies(more, hearing)
  {
    if nodes == [] {
      assert nodes + more == more;
    } else {
      assert (nodes + more)[1..] == nodes[1..] + more;
      RepliesJoin(nodes[1..], more, hearing);
    }
  }
}
