/** One letter against one open run (outreach/entry.py): its goals, then its
    squares, then its doors. The run is read once, at the top; each statement is
    its own, and between any two of them other writers do what they like. */
module Consumer {
  import opened Wrappers
  import opened Board
  import opened Steps
  import opened Entry
  import opened Lease

  /** A door of a live plan that takes the letter while this run is open. */
  datatype Repeating = Repeating(door: Door, policy: RepeatPlan)

  /** A letter, and what it comes to for this run: what it answers on a square
      that listens for it, which goal tiers it may be asked about and which of
      them it meets, whether it was addressed to another run of hers, and the door
      that would take it as a repeat. */
  datatype Hearing = Hearing(
    letter: Letter, answers: string -> Option<string>, applies: nat -> bool, meets: nat -> bool,
    addressedElsewhere: bool, repeat: Option<Repeating>)

  // ---- Statements ----

  /** What others do before a statement is sent, and when it is. */
  datatype Beat = Beat(others: seq<Timed>, at: int)

  /** A pass of the consumer: the state it has reached, how many statements it has
      sent, and those that matched the row. */
  datatype Pass = Pass(s: State, sent: nat, took: seq<Event>)

  /** The state the next statement finds. */
  function Met(plan: Plan, beats: nat -> Beat, p: Pass): State {
    After(plan, p.s, beats(p.sent).others)
  }

  predicate StandsOpenOn(row: Run, square: string) {
    row.status != Exited && row.node == square
  }

  /** The repeat's guards on the row itself. */
  predicate LetsIn(row: Run, letter: Letter, door: Door) {
    && (door.restartOnRepeat || row.node == door.start)
    && letter.id !in RepeatEvents(row.context) && Get(row.context, SOURCE_EVENT_KEY) != Some(Text(letter.id))
  }

  /** Does the statement match the row? It returns one if it does. */
  predicate Takes(plan: Plan, s: State, event: Event) {
    match event
    case Reply(_, square, _) => StandsOpenOn(s.row, square)
    case Refresh(_, square) => StandsOpenOn(s.row, square)
    case GoalCancel(c, _, _, isItsGoal) => c in s.looks && s.row.status != Exited && isItsGoal
    case Repeat(letter, door, policy) =>
      && !IsNoop(RepeatFacts(letter, plan.maxChars), door, policy)
      && s.row.status == Waiting && s.row.wake.Some? && LetsIn(s.row, letter, door)
    case _ => false
  }

  predicate TakesNext(plan: Plan, beats: nat -> Beat, p: Pass, event: Event) {
    Takes(plan, Met(plan, beats, p), event)
  }

  function Issue(plan: Plan, beats: nat -> Beat, p: Pass, event: Event): Pass {
    Pass(Next(plan, Met(plan, beats, p), beats(p.sent).at, event), p.sent + 1,
         if TakesNext(plan, beats, p, event) then p.took + [event] else p.took)
  }

  function IssueAll(plan: Plan, beats: nat -> Beat, p: Pass, script: seq<Event>): Pass
    decreases |script|
  {
    if script == [] then p else IssueAll(plan, beats, Issue(plan, beats, p, script[0]), script[1..])
  }

  /** ... only until one of them matches. */
  function IssueUntilTaken(plan: Plan, beats: nat -> Beat, p: Pass, script: seq<Event>): Pass
    decreases |script|
  {
    if script == [] then p
    else
      var after := Issue(plan, beats, p, script[0]);
      if TakesNext(plan, beats, p, script[0]) then after else IssueUntilTaken(plan, beats, after, script[1..])
  }

  lemma IssueTheFirst(plan: Plan, beats: nat -> Beat, p: Pass, event: Event, rest: seq<Event>)
    ensures IssueAll(plan, beats, p, [event] + rest) == IssueAll(plan, beats, Issue(plan, beats, p, event), rest)
    ensures IssueUntilTaken(plan, beats, p, [event] + rest)
            == if TakesNext(plan, beats, p, event) then Issue(plan, beats, p, event)
               else IssueUntilTaken(plan, beats, Issue(plan, beats, p, event), rest)
  {
    assert ([event] + rest)[1..] == rest;
  }

  // ---- Goals ----

  function CancelOf(tier: Goal, hearing: Hearing, reader: nat, i: nat): Event {
    GoalCancel(reader, hearing.letter, tier.exitReason, hearing.meets(i))
  }

  /** The goal-cancels of the tiers the letter may be asked about. */
  function Cancels(tiers: seq<Goal>, hearing: Hearing, reader: nat, from: nat): seq<Event>
    requires from <= |tiers|
    decreases |tiers| - from
  {
    if from == |tiers| then []
    else
      (if hearing.applies(from) then [CancelOf(tiers[from], hearing, reader, from)] else [])
      + Cancels(tiers, hearing, reader, from + 1)
  }

  lemma CancelsFrom(tiers: seq<Goal>, hearing: Hearing, reader: nat, i: nat)
    requires i < |tiers|
    ensures Cancels(tiers, hearing, reader, i)
            == if hearing.applies(i) then
                 [CancelOf(tiers[i], hearing, reader, i)] + Cancels(tiers, hearing, reader, i + 1)
               else Cancels(tiers, hearing, reader, i + 1)
  {
    assert forall rest: seq<Event> :: [] + rest == rest;
  }

  /** `_end_on_goal`. */
  method EndOnGoal(plan: Plan, beats: nat -> Beat, p: Pass, hearing: Hearing, reader: nat) returns (after: Pass)
    ensures after == IssueUntilTaken(plan, beats, p, Cancels(GoalTiers(plan.doc.goals), hearing, reader, 0))
  {
    after := CancelInTurn(plan, beats, p, GoalTiers(plan.doc.goals), hearing, reader);
  }

  method CancelInTurn(plan: Plan, beats: nat -> Beat, p: Pass, tiers: seq<Goal>, hearing: Hearing, reader: nat)
    returns (after: Pass)
    ensures after == IssueUntilTaken(plan, beats, p, Cancels(tiers, hearing, reader, 0))
  {
    after := p;
    for i := 0 to |tiers|
      invariant IssueUntilTaken(plan, beats, p, Cancels(tiers, hearing, reader, 0))
                == IssueUntilTaken(plan, beats, after, Cancels(tiers, hearing, reader, i))
    {
      OneTier(plan, beats, after, tiers, hearing, reader, i);
      if !hearing.applies(i) {
        continue;
      }
      var cancel := CancelOf(tiers[i], hearing, reader, i);
      var ended := TakesNext(plan, beats, after, cancel);
      after := Issue(plan, beats, after, cancel);
      if ended {
        return;
      }
    }
  }

  lemma OneTier(
    plan: Plan, beats: nat -> Beat, p: Pass, tiers: seq<Goal>, hearing: Hearing, reader: nat, i: nat)
    requires i < |tiers|
    ensures var cancel := CancelOf(tiers[i], hearing, reader, i);
            IssueUntilTaken(plan, beats, p, Cancels(tiers, hearing, reader, i))
            == if !hearing.applies(i) then IssueUntilTaken(plan, beats, p, Cancels(tiers, hearing, reader, i + 1))
               else if TakesNext(plan, beats, p, cancel) then Issue(plan, beats, p, cancel)
               else IssueUntilTaken(
                      plan, beats, Issue(plan, beats, p, cancel), Cancels(tiers, hearing, reader, i + 1))
  {
    CancelsFrom(tiers, hearing, reader, i);
    IssueTheFirst(plan, beats, p, CancelOf(tiers[i], hearing, reader, i), Cancels(tiers, hearing, reader, i + 1));
  }

  // ---- Squares ----

  /** `_answer_for`: what the letter says on this square, if that listens. */
  function AnswerOn(hearing: Hearing, node: Node): Option<string> {
    if Listens(node) then hearing.answers(node.id) else None
  }

  /** What the letter says on the square of this name. */
  function AnswerAt(nodes: seq<Node>, hearing: Hearing, id: string): Option<string> {
    var node := FirstNamed(nodes, id);
    if node.Some? then AnswerOn(hearing, node.value) else None
  }

  /** One reply for every square the letter answers, in document order. */
  function Replies(nodes: seq<Node>, hearing: Hearing): seq<Event> {
    if nodes == [] then []
    else
      var answer := AnswerOn(hearing, nodes[0]);
      (if answer.Some? then [Reply(hearing.letter, nodes[0].id, answer.value)] else []) + Replies(nodes[1..], hearing)
  }

  lemma RepliesFrom(nodes: seq<Node>, hearing: Hearing, i: nat)
    requires i < |nodes|
    ensures Replies(nodes[i..], hearing)
            == (match AnswerOn(hearing, nodes[i])
                case None => Replies(nodes[i + 1..], hearing)
                case Some(answer) =>
                  [Reply(hearing.letter, nodes[i].id, answer)] + Replies(nodes[i + 1..], hearing))
  {
    assert nodes[i..][1..] == nodes[i + 1..];
    assert forall rest: seq<Event> :: [] + rest == rest;
  }

  /** The run, as it was read, stands on a square of its document that hears
      nothing, while some other square would have taken the letter. */
  predicate Refreshes(doc: Definition, hearing: Hearing, seen: Run) {
    var current := FirstNamed(doc.nodes, seen.node);
    && current.Some? && !Listens(current.value) && !hearing.letter.callReport
    && exists node | node in doc.nodes :: AnswerOn(hearing, node).Some?
  }

  function Newest(doc: Definition, hearing: Hearing, seen: Run): seq<Event> {
    if Refreshes(doc, hearing, seen) then [Refresh(hearing.letter, seen.node)] else []
  }

  function Wakes(doc: Definition, hearing: Hearing, seen: Run): seq<Event> {
    if hearing.addressedElsewhere then [] else Replies(doc.nodes, hearing) + Newest(doc, hearing, seen)
  }

  /** `_wake_on_reply`. */
  method WakeOnReply(plan: Plan, beats: nat -> Beat, p: Pass, hearing: Hearing, seen: Run) returns (after: Pass)
    ensures after == IssueAll(plan, beats, p, Wakes(plan.doc, hearing, seen))
  {
    var nodes := plan.doc.nodes;
    after := p;
    if hearing.addressedElsewhere {
      return;
    }
    for i := 0 to |nodes|
      invariant IssueAll(plan, beats, p, Replies(nodes, hearing))
                == IssueAll(plan, beats, after, Replies(nodes[i..], hearing))
    {
      var node := nodes[i];
      RepliesFrom(nodes, hearing, i);
      if !Listens(node) {
        continue;
      }
      var answer := hearing.answers(node.id);
      if answer.None? {
        continue;
      }
      var reply := Reply(hearing.letter, node.id, answer.value);
      IssueTheFirst(plan, beats, after, reply, Replies(nodes[i + 1..], hearing));
      after := Issue(plan, beats, after, reply);
    }
    IssueAllJoins(plan, beats, p, Replies(nodes, hearing), Newest(plan.doc, hearing, seen));
    var current := FirstNamed(nodes, seen.node);
    if current.None? || Listens(current.value) || hearing.letter.callReport {
      return;
    }
    if exists node | node in nodes :: AnswerOn(hearing, node).Some? {
      after := Issue(plan, beats, after, Refresh(hearing.letter, seen.node));
    }
  }

  // ---- Doors ----

  /** `_answered_by`: the run, as it was read, stands on a square this letter
      answers; then it is not a repeat. */
  predicate AnsweredBy(doc: Definition, hearing: Hearing, seen: Run) {
    !hearing.addressedElsewhere && AnswerAt(doc.nodes, hearing, seen.node).Some?
  }

  function Repeats(doc: Definition, hearing: Hearing, seen: Run): seq<Event> {
    if hearing.repeat.None? || AnsweredBy(doc, hearing, seen) then []
    else [Repeat(hearing.letter, hearing.repeat.value.door, hearing.repeat.value.policy)]
  }

  // ---- The pass ----

  function AfterGoals(plan: Plan, beats: nat -> Beat, hearing: Hearing, reader: nat, s: State): Pass {
    IssueUntilTaken(plan, beats, Pass(s, 0, []), Cancels(GoalTiers(plan.doc.goals), hearing, reader, 0))
  }

  /** The letter's whole pass over the run `reader` has looked at. */
  function Consumed(plan: Plan, beats: nat -> Beat, hearing: Hearing, reader: nat, s: State): Pass
    requires reader in s.looks
  {
    var seen := s.looks[reader].run;
    var ended := AfterGoals(plan, beats, hearing, reader, s);
    if ended.took != [] then ended
    else IssueAll(plan, beats, ended, Wakes(plan.doc, hearing, seen) + Repeats(plan.doc, hearing, seen))
  }

  method Consume(plan: Plan, beats: nat -> Beat, hearing: Hearing, reader: nat, s: State) returns (after: Pass)
    requires reader in s.looks
    ensures after == Consumed(plan, beats, hearing, reader, s)
  {
    var seen := s.looks[reader].run;
    after := EndOnGoal(plan, beats, Pass(s, 0, []), hearing, reader);
    if after.took != [] {
      return;
    }
    IssueAllJoins(plan, beats, after, Wakes(plan.doc, hearing, seen), Repeats(plan.doc, hearing, seen));
    after := WakeOnReply(plan, beats, after, hearing, seen);
    if hearing.repeat.Some? && !AnsweredBy(plan.doc, hearing, seen) {
      var repeat := hearing.repeat.value;
      after := Issue(plan, beats, after, Repeat(hearing.letter, repeat.door, repeat.policy));
    }
  }

  lemma {:induction false} IssueAllJoins(
    plan: Plan, beats: nat -> Beat, p: Pass, script: seq<Event>, more: seq<Event>)
    ensures IssueAll(plan, beats, p, script + more) == IssueAll(plan, beats, IssueAll(plan, beats, p, script), more)
    decreases |script|
  {
    if script == [] {
      assert script + more == more;
    } else {
      assert (script + more)[1..] == script[1..] + more;
      IssueAllJoins(plan, beats, Issue(plan, beats, p, script[0]), script[1..], more);
    }
  }
}
