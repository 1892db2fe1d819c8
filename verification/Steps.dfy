/** Where a run has been (outreach/steps.py): the run row, the squares it has
    closed, and the union every reader owes. */
module Steps {
  import opened Wrappers
  import opened Board

  // ---- The run row ----

  /** A stored `wake_at`: when it is due, and which write put it there. Two
      writes never store the same instant, so `generation` is what makes a
      lease comparison exact. */
  datatype Stamp = Stamp(due: int, generation: nat)

  datatype Status = Waiting | Parked | Exited

  datatype Run = Run(
    id: string, version: nat, status: Status, node: string, wake: Option<Stamp>, entered: int,
    context: Context, attempts: nat, lastError: Option<string>, arrivedAt: Option<int>,
    exitReason: Option<string>)

  // ---- Closed squares ----

  datatype ArrivedBy = ByDoor | ByTimer | ByLetter | ByWalk

  datatype StepRecord = StepRecord(
    node: string, kind: Kind, arrivedAt: int, leftAt: int, arrivedBy: ArrivedBy, outcome: Option<string>,
    next: Option<string>, attempts: nat, lastError: Option<string>, dispatchId: Option<string>,
    cutShortBy: Option<string>)

  /** How the first square of a visit came to be walked. */
  function FirstArrival(run: Run, cutShortBy: Option<string>): ArrivedBy {
    if run.arrivedAt == Some(run.entered) then ByDoor
    else if cutShortBy.Some? then ByLetter
    else ByTimer
  }

  /** One closed square; none for a run with no arrival stamp. A square left
      before it was reached (two skewed clocks) is clamped to no length. */
  function Step(
    node: Node, arrivedAt: Option<int>, leftAt: int, arrivedBy: ArrivedBy, outcome: Option<string>,
    next: Option<string>, run: Run, cutShortBy: Option<string>, first: bool, dispatchId: Option<string>)
    : seq<StepRecord>
  {
    match arrivedAt
    case None => []
    case Some(arrived) =>
      [StepRecord(
         node.id, node.kind, arrived, if leftAt < arrived then arrived else leftAt, arrivedBy, outcome, next,
         if first && run.attempts > 1 then run.attempts else 1,
         if first then run.lastError else None,
         dispatchId,
         if first then cutShortBy else None)]
  }

  /** The letter left on the run for the flush that follows, if it says
      anything. */
  function LetterLeft(context: Context): Option<string> {
    match Get(context, CUT_SHORT_BY_KEY)
    case None => None
    case Some(value) => if Str(value) == "" then None else Some(Str(value))
  }

  /** The square a run stood on when something ended it without a walk; none
      when the document cannot be read or no longer has it. */
  function Closing(run: Run, doc: Option<Definition>, outcome: string, now: int, letter: Option<string>)
    : seq<StepRecord>
  {
    match doc
    case None => []
    case Some(definition) =>
      match FirstNamed(definition.nodes, run.node)
      case None => []
      case Some(node) =>
        var mark := OrElse(letter, LetterLeft(run.context));
        Step(node, run.arrivedAt, now, FirstArrival(run, mark), Some(outcome), None, run, mark, true, None)
  }

  // ---- What a trail is ----

  function Last(rows: seq<StepRecord>): StepRecord
    requires rows != []
  {
    rows[|rows| - 1]
  }

  /** Each row ends where, and when, the next begins. */
  ghost predicate Gapless(rows: seq<StepRecord>) {
    forall k | 0 <= k < |rows| - 1 ::
      rows[k].next == Some(rows[k + 1].node) && rows[k].leftAt == rows[k + 1].arrivedAt
  }

  // ---- The union ----

  /** One line of a timeline: a closed square, or the open one (`leftAt` None). */
  datatype TimelineStep = TimelineStep(
    node: string, arrivedAt: int, leftAt: Option<int>, arrivedBy: ArrivedBy, next: Option<string>)

  function Shown(row: StepRecord): TimelineStep {
    TimelineStep(row.node, row.arrivedAt, Some(row.leftAt), row.arrivedBy, row.next)
  }

  /** The closed squares, then the one the run stands on. */
  function Timeline(run: Run, closed: seq<StepRecord>): seq<TimelineStep> {
    var past := seq(|closed|, i requires 0 <= i < |closed| => Shown(closed[i]));
    if run.status == Exited || run.arrivedAt.None? then past
    else
      past + [TimelineStep(run.node, run.arrivedAt.value, None,
                           if run.arrivedAt == Some(run.entered) then ByDoor else ByWalk, None)]
  }
}
