/** One run under every writer at once: several walkers, the event consumer and
    an operator (walker.py, entry.py, repeat.py and the statements in
    db/queries/enrollment.py). The `wake_at` a claim stores is its lease. */
module Lease {
  import opened Wrappers
  import opened Board
  import opened Steps
  import opened Walker
  import opened Trail
  import opened Entry

  const LEASE: int := 300_000_000

  // ---- The protocol's state ----

  /** A row as somebody read it, and when. */
  datatype Seen = Seen(run: Run, at: int)

  /** The plan a run entered, through one of its doors. */
  datatype Plan = Plan(doc: Definition, door: Door, maxChars: nat)

  /** The run row, its flushed squares, the claims in flight, the rows the
      consumer has read, the next unused generation, and the clock. */
  datatype State = State(
    row: Run, trail: seq<StepRecord>, visits: map<nat, Seen>, looks: map<nat, Seen>, nextGen: nat, time: int)

  /** What a repeat's policy comes to once the statement has compared values. */
  datatype RepeatPlan = Ignore | Latest | MaxLost | Accumulate

  datatype Event =
    | Claim(walker: nat)
    | Land(walker: nat, status: Option<PlanStatus>, read: DocRead, world: World)
    | Crash(walker: nat)
    | Look(reader: nat)
    | Reply(letter: Letter, square: string, answer: string)
    | Refresh(letter: Letter, square: string)
    | GoalCancel(reader: nat, letter: Letter, reason: string, isItsGoal: bool)
    | Repeat(letter: Letter, door: Door, policy: RepeatPlan)
    | Revive

  // ---- The statements: the row they leave, None when they match nothing ----

  /** A visit's one write, conditional on the lease it claimed under. */
  function MoveStatement(row: Run, lease: Option<Stamp>, move: Move, at: int, gen: nat): Option<Run> {
    if row.wake.None? || row.wake != lease then None
    else
      match move
      case Rests => None
      case Moved(node, wake, context, arrivedAt, _) =>
        if row.status != Waiting then None
        else Some(row.(node := node, wake := Some(Stamp(wake, gen)), context := context,
                       arrivedAt := OrElse(arrivedAt, row.arrivedAt), attempts := 0, lastError := None))
      case Exits(reason, node, context, _) =>
        if row.status == Exited then None
        else Some(row.(status := Exited, exitReason := Some(reason), wake := None,
                       node := node.GetOr(row.node), context := context.GetOr(row.context)))
      case Parks(reason) =>
        if row.status != Waiting then None
        else Some(row.(status := Parked, wake := None, lastError := Some(Sentence(reason))))
      case Retries(error, delay) =>
        if row.status != Waiting then None
        else Some(row.(wake := Some(Stamp(at + delay, gen)), lastError := Some(error)))
  }

  /** Woken in place: a parked run is forgiven, a waiting one re-armed. */
  function Rearmed(row: Run, context: Context, at: int, gen: nat): Run {
    row.(context := context, wake := Some(Stamp(at, gen)), lastError := None, status := Waiting,
         attempts := if row.status == Parked then 0 else row.attempts)
  }

  function ReplyStatement(row: Run, square: string, patch: Context, at: int, gen: nat): Option<Run> {
    if row.status == Exited || row.node != square then None
    else Some(Rearmed(row, row.context + patch + map[FACTS_KEY := Other("facts")], at, gen))
  }

  function RefreshStatement(row: Run, square: string, facts: Context, letter: string, at: int, gen: nat): Option<Run> {
    if row.status == Exited || row.node != square then None
    else Some(Rearmed(row, row.context + facts + map[CUT_SHORT_BY_KEY := Text(letter)], at, gen))
  }

  /** The goal-cancel ends an open run whatever its lease. */
  function CancelStatement(row: Run, reason: string, isItsGoal: bool): Option<Run> {
    if row.status == Exited || !isItsGoal then None
    else Some(row.(status := Exited, exitReason := Some(reason), wake := None,
                   context := row.context[GOAL_KEY := Other("goal")]))
  }

  /** ... and its closing row lands only while it describes the row it ended. */
  function CancelFlush(row: Run, closing: seq<StepRecord>): seq<StepRecord> {
    if closing != [] && closing[0].node == row.node && Some(closing[0].arrivedAt) == row.arrivedAt then closing else []
  }

  function RepeatEvents(context: Context): seq<string> {
    match Get(context, REPEAT_EVENTS_KEY)
    case Some(Many(items)) => items
    case _ => []
  }

  /** A repeat with nothing to write is never sent to the database. */
  predicate IsNoop(facts: Context, door: Door, policy: RepeatPlan) {
    door.debounce <= 0 && (policy == Ignore || (facts == map[] && policy != Accumulate))
  }

  /** Does this repeat's alarm end later than the stored one? Only then does
      the statement store a new `wake_at`. */
  predicate Outlasts(door: Door, at: int, stored: Stamp) {
    door.debounce > 0 && at + door.debounce > stored.due
  }

  function RepeatContext(context: Context, facts: Context, event: string, policy: RepeatPlan): Context {
    (match policy
     case Latest => context + facts
     case Accumulate => context + map[REPEAT_ITEMS_KEY := Other("items"), REPEAT_COUNT_KEY := Other("count")]
     case _ => context)
    [REPEAT_EVENTS_KEY := Many(RepeatEvents(context) + [event])]
  }

  function RepeatStatement(row: Run, facts: Context, event: string, door: Door, policy: RepeatPlan, at: int, gen: nat)
    : Option<Run>
  {
    if || IsNoop(facts, door, policy) || row.status != Waiting || row.wake.None?
       || !(door.restartOnRepeat || row.node == door.start)
       || event in RepeatEvents(row.context) || Get(row.context, SOURCE_EVENT_KEY) == Some(Text(event))
    then None
    else
      Some(row.(context := RepeatContext(row.context, facts, event, policy),
                wake := if Outlasts(door, at, row.wake.value) then Some(Stamp(at + door.debounce, gen)) else row.wake,
                lastError := None))
  }

  // ---- One step of the protocol ----

  /** The state after a statement: a miss changes nothing and flushes nothing. */
  function Written(s: State, at: int, written: Option<Run>, flush: seq<StepRecord>): State {
    match written
    case None => s.(time := at)
    case Some(row) => s.(row := row, trail := s.trail + flush, nextGen := s.nextGen + 1, time := at)
  }

  /** A visit ends with its one write, conditional on the lease it claimed. */
  function Landed(s: State, at: int, w: nat, move: Move): State
    requires w in s.visits
  {
    Written(s, at, MoveStatement(s.row, s.visits[w].run.wake, move, at, s.nextGen), ClosedBy(move))
    .(visits := s.visits - {w})
  }

  function Next(plan: Plan, s: State, at: int, event: Event): State {
    match event
    case Claim(w) =>
      if s.row.wake.None? then s.(time := at)
      else
        var row := s.row.(wake := Some(Stamp(at + LEASE, s.nextGen)), attempts := s.row.attempts + 1);
        s.(row := row, visits := s.visits[w := Seen(row, at)], nextGen := s.nextGen + 1, time := at)
    case Land(w, status, read, world) =>
      if w !in s.visits then s.(time := at)
      else Landed(s, at, w, WalkRun(s.visits[w].run, status, read, world))
    case Crash(w) => s.(visits := s.visits - {w}, time := at)
    case Look(c) => s.(looks := s.looks[c := Seen(s.row, at)], time := at)
    case Reply(letter, square, answer) =>
      Written(s, at, ReplyStatement(s.row, square, ReplyPatch(square, letter, answer), at, s.nextGen), [])
    case Refresh(letter, square) =>
      Written(s, at, RefreshStatement(s.row, square, LetterFacts(letter, plan.maxChars), letter.id, at, s.nextGen), [])
    case GoalCancel(c, letter, reason, isItsGoal) =>
      if c !in s.looks then s.(time := at)
      else
        var closing := Closing(s.looks[c].run, Some(plan.doc), reason, at, Some(letter.id));
        Written(s, at, CancelStatement(s.row, reason, isItsGoal), CancelFlush(s.row, closing))
    case Repeat(letter, door, policy) =>
      Written(s, at, RepeatStatement(s.row, RepeatFacts(letter, plan.maxChars), letter.id, door, policy, at, s.nextGen),
              [])
    case Revive =>
      Written(s, at,
              if s.row.status == Parked then
                Some(s.row.(status := Waiting, wake := Some(Stamp(at, s.nextGen)), attempts := 0))
              else None,
              [])
  }

  /** What may happen when: a claim takes a due, waiting run; a visit lands on a
      later, forward-running clock with the document the run is pinned to; a
      reply is for a square of that document that listens. */
  ghost predicate Enabled(plan: Plan, s: State, at: int, event: Event) {
    && s.time < at
    && match event
       case Claim(w) => w !in s.visits && s.row.status == Waiting && s.row.wake.Some? && s.row.wake.value.due <= at
       case Land(w, _, read, world) =>
         && w in s.visits && s.visits[w].at < world.now && Monotone(world, at) && WordsKeepToThemselves(world)
         && (read.Read? ==> read.definition == plan.doc)
       case Reply(_, square, _) =>
         NodeNamed(plan.doc.nodes, square).Some? && Listens(NodeNamed(plan.doc.nodes, square).value)
       case GoalCancel(c, _, _, _) => c in s.looks
       case _ => true
  }

  /** `_first_wake`: a door onto a wait arms its alarm, any other wakes now. */
  function FirstWake(plan: Plan, now: int): int {
    match NodeNamed(plan.doc.nodes, plan.door.start)
    case Some(node) => if IsWait(node) then Alarm(node, now, now + plan.doc.maxAge) else now
    case None => now
  }

  /** A run the moment it is enrolled. */
  function Enrolled(plan: Plan, id: string, version: nat, letter: Letter, happened: string, now: int): State {
    State(
      Run(id, version, Waiting, plan.door.start, Some(Stamp(FirstWake(plan, now), 0)), now,
          FoundingContext(letter, happened, plan.maxChars), 0, None, Some(now), None),
      [], map[], map[], 1, now)
  }

  // ---- Runs of the protocol ----

  datatype Timed = Timed(at: int, event: Event)

  function After(plan: Plan, s: State, schedule: seq<Timed>): State
    decreases |schedule|
  {
    if schedule == [] then s
    else After(plan, Next(plan, s, schedule[0].at, schedule[0].event), schedule[1..])
  }

  ghost predicate Lawful(plan: Plan, s: State, schedule: seq<Timed>)
    decreases |schedule|
  {
    schedule == [] ||
    (&& Enabled(plan, s, schedule[0].at, schedule[0].event)
     && Lawful(plan, Next(plan, s, schedule[0].at, schedule[0].event), schedule[1..]))
  }
}
