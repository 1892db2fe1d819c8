/** What a visit writes on its run: what each square's word said, in walking
    order, and nothing else (outreach/walker.py, `advance`). Nothing here names
    the walker's own steps. */
module Words {
  import opened Wrappers
  import opened Window
  import opened Board
  import opened Steps
  import opened Walker
  import opened Trail

  function Lookup(context: Context, key: string): Option<Value> {
    if key in context then Some(context[key]) else None
  }

  // ---- One square ----

  /** Is the square left along the arrow an answer names? A condition and a split
      answer for themselves; a wait that listens, by a letter or the timer. */
  predicate IsAsked(node: Node) {
    node.kind == Condition || node.kind == Split || (node.kind == Wait && node.topics != [])
  }

  /** What the square's word wrote; a wait has none. */
  predicate WordSays(world: World, i: nat, node: Node, context: Context, patch: Context) {
    if node.kind == Wait then patch == map[] else world.performs(i, node, context) == Patched(patch)
  }

  /** The timer fired, nobody answered, and the hours are shut. */
  ghost predicate IsShut(node: Node, context: Context, now: int) {
    && node.window.Some? && Lookup(context, ReplyKey(node.id)) in {None, Some(Null)}
    && !Open(now, node.window.value)
  }

  /** What a key holds once the square is left: a branching square's own answer is
      spent, what the word wrote is written, and the rest is as it was. */
  function Told(node: Node, patch: Context, key: string, before: Option<Value>): Option<Value> {
    if IsAsked(node) && key == ReplyKey(node.id) then None
    else if key in patch && key != OUTCOME_KEY then Some(patch[key])
    else before
  }

  ghost predicate IsTold(node: Node, patch: Context, before: Context, after: Context) {
    forall key :: Lookup(after, key) == Told(node, patch, key, Lookup(before, key))
  }

  /** The answer on the square as it is left: its word's, else the one it held; a
      stored null is none. */
  function AnswerLeft(node: Node, patch: Context, context: Context): Option<Value> {
    var key := ReplyKey(node.id);
    var held := if key in patch then Some(patch[key]) else Lookup(context, key);
    if held == Some(Null) then None else held
  }

  /** The label that answer names; a value that is not a text names none. */
  function LabelLeft(node: Node, patch: Context, context: Context): Option<string> {
    match AnswerLeft(node, patch, context)
    case None => Some(TIMEOUT)
    case Some(Text(text)) => Some(text)
    case Some(_) => None
  }

  ghost predicate HasLabel(edges: seq<Edge>, src: string, word: Option<string>) {
    word.Some? && exists dst :: Edge(src, dst, word) in edges
  }

  /** Left along the arrow its answer labels, or the `else` arrow where there is
      none; along any arrow where they carry no labels; nowhere without one. */
  ghost predicate LeavesAlong(edges: seq<Edge>, node: Node, word: Option<string>, next: Option<string>) {
    if !IsAsked(node) then
      if next.Some? then exists on :: Edge(node.id, next.value, on) in edges
      else forall edge | edge in edges :: edge.src != node.id
    else if HasLabel(edges, node.id, word) then
      next.Some? && Edge(node.id, next.value, word) in edges
    else if next.Some? then Edge(node.id, next.value, Some(ELSE)) in edges
    else !HasLabel(edges, node.id, Some(ELSE))
  }

  function SpokenText(patch: Context, key: string): Option<string> {
    if key in patch && patch[key] !in {Null, Text("")} then Some(Str(patch[key])) else None
  }

  /** The row of a square: where it led, how it was left, what it handed over. */
  predicate RowTells(row: StepRecord, node: Node, patch: Context, context: Context) {
    && row.node == node.id && row.kind == node.kind
    && row.outcome
       == (if IsAsked(node) then
             Some(match AnswerLeft(node, patch, context) case None => TIMEOUT case Some(value) => Str(value))
           else if OUTCOME_KEY in patch && patch[OUTCOME_KEY] != Null then Some(Str(patch[OUTCOME_KEY]))
           else None)
    && row.dispatchId == OrElse(SpokenText(patch, "lead_" + node.id), SpokenText(patch, "message_" + node.id))
  }

  /** The letter that woke the run, if one did. */
  function MarkOn(context: Context): Option<string> {
    if CUT_SHORT_BY_KEY in context && context[CUT_SHORT_BY_KEY] != Null && Str(context[CUT_SHORT_BY_KEY]) != "" then
      Some(Str(context[CUT_SHORT_BY_KEY]))
    else None
  }

  /** What the claim knew goes on the first square's row, and on no other. */
  predicate RowBlames(row: StepRecord, run: Run, first: bool) {
    && row.attempts == (if first && run.attempts > 1 then run.attempts else 1)
    && row.lastError == (if first then run.lastError else None)
    && row.cutShortBy == (if first then MarkOn(run.context) else None)
    && (row.arrivedBy == ByWalk <==> !first)
    && (row.arrivedBy == ByDoor <==> first && run.arrivedAt == Some(run.entered))
    && (row.arrivedBy == ByLetter <==>
          first && run.arrivedAt != Some(run.entered) && MarkOn(run.context).Some?)
  }

  lemma HeldIffShut(node: Node, context: Context, now: int)
    ensures Held(node, context, now) <==> IsShut(node, context, now)
  {
    if node.window.Some? {
      OpensAtIsTheNextOpenInstant(now, node.window.value);
    }
  }

  lemma ReplyKeysAreNoOutcome(id: string)
    ensures ReplyKey(id) !in {OUTCOME_KEY, CUT_SHORT_BY_KEY}
  {
    assert ReplyKey(id)[0] != OUTCOME_KEY[0] && ReplyKey(id)[0] != CUT_SHORT_BY_KEY[0];
  }

  lemma LabelsAreEdges(edges: seq<Edge>, src: string, word: string)
    ensures var dst := FirstLabelled(ArrowsFrom(edges, src), word);
            if dst.Some? then Edge(src, dst.value, Some(word)) in edges else !HasLabel(edges, src, Some(word))
  {
    var arrows := ArrowsFrom(edges, src);
    var dst := FirstLabelled(arrows, word);
    if dst.Some? {
      ArrowsAreEdges(edges, src, Arrow(dst.value, Some(word)));
    } else if to :| Edge(src, to, Some(word)) in edges {
      ArrowsAreEdges(edges, src, Arrow(to, Some(word)));
    }
  }

  lemma FirstArrowIsAnEdge(edges: seq<Edge>, src: string)
    ensures var arrows := ArrowsFrom(edges, src);
            if arrows != [] then Edge(src, arrows[0].dst, arrows[0].on) in edges
            else forall edge | edge in edges :: edge.src != src
  {
    var arrows := ArrowsFrom(edges, src);
    if arrows != [] {
      ArrowsAreEdges(edges, src, arrows[0]);
    } else {
      forall edge | edge in edges ensures edge.src != src {
        if edge.src == src {
          ArrowsAreEdges(edges, src, Arrow(edge.dst, edge.on));
        }
      }
    }
  }

  /** The arrow taken, by its label alone. */
  lemma TheArrowIsTheAnswers(edges: seq<Edge>, node: Node, patch: Context, context: Context)
    ensures LeavesAlong(edges, node, LabelLeft(node, patch, context),
                        PickNext(node, ArrowsFrom(edges, node.id), Merged(context, patch)))
  {
    ReplyKeysAreNoOutcome(node.id);
    FirstArrowIsAnEdge(edges, node.id);
    LabelsAreEdges(edges, node.id, ELSE);
    var word := LabelLeft(node, patch, context);
    if word.Some? {
      LabelsAreEdges(edges, node.id, word.value);
    }
    MergedAnswer(node, patch, context);
  }

  lemma MergedAnswer(node: Node, patch: Context, context: Context)
    ensures Get(Merged(context, patch), ReplyKey(node.id)) == AnswerLeft(node, patch, context)
  {
    ReplyKeysAreNoOutcome(node.id);
  }

  lemma LeavingIsTold(node: Node, patch: Context, context: Context)
    ensures IsTold(node, patch, context, Spent(node, Merged(context, patch)))
  {
  }

  // ---- Alarms ----

  /** The least open instant not before `from`. */
  ghost predicate IsNextOpening(t: int, from: int, window: WaitWindow) {
    from <= t && Open(t, window) && forall u :: from <= u < t ==> !Open(u, window)
  }

  /** How long a wait asks to last: its own minutes, with the reserved ones; the
      run's life and a minute, when it only listens; else no time at all. */
  function Asked(node: Node, now: int, runEndsAt: int): int {
    if node.lasts.Some? && node.lasts.value != 0 then
      now + node.lasts.value
      + (if node.window.Some? && InReservedPeriod(now, node.window.value) then
           node.window.value.heldMinutes * MINUTE else 0)
    else if node.topics == [] then now
    else if runEndsAt > now then runEndsAt + MINUTE
    else now + MINUTE
  }

  /** A wait's alarm: when it asked, or the first time after that its hours are
      open. */
  ghost predicate RingsAt(node: Node, now: int, runEndsAt: int, wake: int) {
    match node.window
    case None => wake == Asked(node, now, runEndsAt)
    case Some(window) => IsNextOpening(wake, Asked(node, now, runEndsAt), window)
  }

  lemma AlarmsRing(node: Node, now: int, runEndsAt: int)
    ensures RingsAt(node, now, runEndsAt, Alarm(node, now, runEndsAt))
  {
    if node.window.Some? {
      OpensAtIsTheNextOpenInstant(Asked(node, now, runEndsAt), node.window.value);
    }
  }

  // ---- A walk ----

  /** One square as a visit walked it: the context before its word and after it. */
  datatype Turn = Turn(node: Node, patch: Context, before: Context, after: Context)

  ghost predicate TurnTells(doc: Definition, run: Run, world: World, turn: Turn, row: StepRecord, k: nat) {
    && NodeNamed(doc.nodes, turn.node.id) == Some(turn.node)
    && !IsShut(turn.node, turn.before, world.now)
    && WordSays(world, k, turn.node, turn.before, turn.patch)
    && IsTold(turn.node, turn.patch, turn.before, turn.after)
    && LeavesAlong(doc.edges, turn.node, LabelLeft(turn.node, turn.patch, turn.before), row.next)
    && RowTells(row, turn.node, turn.patch, turn.before)
    && RowBlames(row, run, k == 0)
  }

  /** The first turn begins with the run as it was claimed, its mark taken off;
      each other where, and with what, the one before it ended. */
  predicate FollowsOn(run: Run, turns: seq<Turn>, rows: seq<StepRecord>, k: nat)
    requires k < |turns| == |rows|
  {
    if k == 0 then turns[k].before == run.context - {CUT_SHORT_BY_KEY} && turns[k].node.id == run.node
    else turns[k].before == turns[k - 1].after && rows[k - 1].next == Some(turns[k].node.id)
  }

  ghost predicate IsTrace(doc: Definition, run: Run, world: World, turns: seq<Turn>, rows: seq<StepRecord>) {
    |turns| == |rows| && forall k: nat | k < |turns| :: IsTurn(doc, run, world, turns, rows, k)
  }

  ghost predicate IsTurn(doc: Definition, run: Run, world: World, turns: seq<Turn>, rows: seq<StepRecord>, k: nat)
    requires k < |turns| == |rows|
  {
    TurnTells(doc, run, world, turns[k], rows[k], k) && FollowsOn(run, turns, rows, k)
  }

  function Carried(run: Run, turns: seq<Turn>): Context {
    if turns == [] then run.context - {CUT_SHORT_BY_KEY} else turns[|turns| - 1].after
  }

  function LedTo(run: Run, rows: seq<StepRecord>): Option<string> {
    if rows == [] then Some(run.node) else rows[|rows| - 1].next
  }

  /** Where the walk stopped. It waits: on hours that are shut, until they open, or
      on a wait's own alarm. Or it is over. What it carried is written; a run that
      has not left its square keeps the mark of the letter that woke it. */
  ghost predicate StopsThere(doc: Definition, run: Run, world: World, turns: seq<Turn>, move: Move) {
    match move
    case Moved(id, wake, context, arrivedAt, rows) =>
      var node := NodeNamed(doc.nodes, id);
      && LedTo(run, rows) == Some(id) && node.Some?
      && context == (if rows == [] && MarkOn(run.context).Some? then
                       Carried(run, turns)[CUT_SHORT_BY_KEY := Text(MarkOn(run.context).value)]
                     else Carried(run, turns))
      && (|| (&& IsShut(node.value, Carried(run, turns), world.now)
              && IsNextOpening(wake, world.now, node.value.window.value))
          || (&& rows != [] && node.value.kind == Wait
              && var leftAt := world.leftAt(|rows| - 1);
                 wake > leftAt && RingsAt(node.value, leftAt, run.entered + doc.maxAge, wake)))
    case Exits(reason, at, left, rows) =>
      && reason == "completed" && turns != [] && LedTo(run, rows).None?
      && at == Some(turns[|turns| - 1].node.id) && left == Some(Carried(run, turns))
    case _ => false
  }

  /** The variables of the loop, as the trace so far has them. */
  ghost predicate IsTraced(doc: Definition, run: Run, world: World, s: Walking, turns: seq<Turn>) {
    && IsTrace(doc, run, world, turns, s.walked)
    && s.context == Carried(run, turns) && LedTo(run, s.walked) == Some(s.at)
    && s.arrivedAt.Some? && s.first == (turns == [])
    && s.cutShortBy == (if turns == [] then MarkOn(run.context) else None)
    && s.arrivedBy == (if turns == [] then FirstArrival(run, MarkOn(run.context)) else ByWalk)
  }

  lemma AppendTurn(doc: Definition, run: Run, world: World, turns: seq<Turn>, rows: seq<StepRecord>,
                   turn: Turn, row: StepRecord)
    requires IsTrace(doc, run, world, turns, rows) && TurnTells(doc, run, world, turn, row, |turns|)
    requires turn.before == Carried(run, turns) && LedTo(run, rows) == Some(turn.node.id)
    ensures IsTrace(doc, run, world, turns + [turn], rows + [row])
  {
    var longer, more := turns + [turn], rows + [row];
    forall k: nat | k < |longer| ensures IsTurn(doc, run, world, longer, more, k) {
      if k < |turns| {
        assert IsTurn(doc, run, world, turns, rows, k);
      }
    }
  }

  /** The turn a walked square makes. */
  function TurnOf(node: Node, patch: Context, context: Context): Turn {
    Turn(node, patch, context, Spent(node, Merged(context, patch)))
  }

  lemma TheTurnTells(
    doc: Definition, run: Run, world: World, s: Walking, turns: seq<Turn>, node: Node, patch: Context)
    requires IsTraced(doc, run, world, s, turns)
    requires NodeNamed(doc.nodes, s.at) == Some(node) && !Held(node, s.context, world.now)
    requires Perform(node, s.context, world, |turns|) == Patched(patch)
    ensures TurnTells(doc, run, world, TurnOf(node, patch, s.context),
                      RowOf(doc, run, s, node, patch, world.leftAt(|turns|))[0], |turns|)
  {
    HeldIffShut(node, s.context, world.now);
    LeavingIsTold(node, patch, s.context);
    RowsTell(doc, run, s, node, patch, world.leftAt(|turns|));
    RowsBlame(doc, run, s, node, patch, world.leftAt(|turns|));
  }

  lemma RowsTell(doc: Definition, run: Run, s: Walking, node: Node, patch: Context, leftAt: int)
    requires s.arrivedAt.Some? && node.id == s.at
    ensures var row := RowOf(doc, run, s, node, patch, leftAt)[0];
            RowTells(row, node, patch, s.context)
            && LeavesAlong(doc.edges, node, LabelLeft(node, patch, s.context), row.next)
  {
    TheArrowIsTheAnswers(doc.edges, node, patch, s.context);
    MergedAnswer(node, patch, s.context);
  }

  lemma RowsBlame(doc: Definition, run: Run, s: Walking, node: Node, patch: Context, leftAt: int)
    requires s.arrivedAt.Some? && s.cutShortBy == (if s.first then MarkOn(run.context) else None)
    requires s.arrivedBy == (if s.first then FirstArrival(run, MarkOn(run.context)) else ByWalk)
    ensures RowBlames(RowOf(doc, run, s, node, patch, leftAt)[0], run, s.first)
  {
  }

  lemma LeavingTraces(
    doc: Definition, run: Run, world: World, s: Walking, turns: seq<Turn>, node: Node, patch: Context)
    requires IsTraced(doc, run, world, s, turns)
    requires NodeNamed(doc.nodes, s.at) == Some(node) && !Held(node, s.context, world.now)
    requires Perform(node, s.context, world, |turns|) == Patched(patch)
    ensures var turning := Leave(doc, run, s, node, patch, world.leftAt(|turns|));
            var rows := s.walked + RowOf(doc, run, s, node, patch, world.leftAt(|turns|));
            TurningTells(doc, run, world, turns + [TurnOf(node, patch, s.context)], rows, turning)
  {
    var turn := TurnOf(node, patch, s.context);
    var row := RowOf(doc, run, s, node, patch, world.leftAt(|turns|))[0];
    TheTurnTells(doc, run, world, s, turns, node, patch);
    AppendTurn(doc, run, world, turns, s.walked, turn, row);
    LeavingStops(doc, run, world, s, turns, node, patch);
    LeavingGoesOn(doc, run, world, s, turns, node, patch);
  }

  lemma LeavingGoesOn(
    doc: Definition, run: Run, world: World, s: Walking, turns: seq<Turn>, node: Node, patch: Context)
    requires s.arrivedAt.Some? && node.id == s.at
    ensures var turning := Leave(doc, run, s, node, patch, world.leftAt(|turns|));
            var longer := turns + [TurnOf(node, patch, s.context)];
            turning.Onward? ==>
              var row := RowOf(doc, run, s, node, patch, world.leftAt(|turns|))[0];
              && turning.state.walked == s.walked + [row] && turning.state.context == Carried(run, longer)
              && LedTo(run, turning.state.walked) == Some(turning.state.at) && turning.state.arrivedAt.Some?
              && !turning.state.first && turning.state.cutShortBy.None? && turning.state.arrivedBy == ByWalk
  {
  }

  /** Each square of the walk, and where it stopped. */
  ghost predicate TellsItsWords(
    doc: Definition, run: Run, world: World, turns: seq<Turn>, rows: seq<StepRecord>, ending: Ending)
  {
    IsTrace(doc, run, world, turns, rows) && StopsFor(doc, run, world, turns, rows, ending)
  }

  /** ... and why, when nothing is written: the square it was led to is not in the
      document; or it has walked ten; or that square's word failed it. */
  ghost predicate StopsFor(
    doc: Definition, run: Run, world: World, turns: seq<Turn>, rows: seq<StepRecord>, ending: Ending)
  {
    var square := if LedTo(run, rows).Some? then NodeNamed(doc.nodes, LedTo(run, rows).value) else None;
    match ending
    case Writes(move) => rows == ClosedBy(move) && StopsThere(doc, run, world, turns, move)
    case Defect(Runaway) => |turns| == 10
    case Defect(SquareMissing) => turns == [] && square.None?
    case Defect(ArrowIntoNowhere) => turns != [] && LedTo(run, rows).Some? && square.None?
    case Defect(Word(why)) =>
      square.Some? && WordFails(world, |turns|, square.value, Carried(run, turns), ParkedBy(why))
    case Failure(why) =>
      square.Some? && WordFails(world, |turns|, square.value, Carried(run, turns), RaisedBy(why))
    case _ => false
  }

  ghost predicate WordFails(world: World, i: nat, node: Node, context: Context, how: Performed) {
    node.kind != Wait && !IsShut(node, context, world.now) && world.performs(i, node, context) == how
  }

  lemma LeavingStops(
    doc: Definition, run: Run, world: World, s: Walking, turns: seq<Turn>, node: Node, patch: Context)
    requires s.arrivedAt.Some? && |turns| == |s.walked| && node.id == s.at
    ensures var turning := Leave(doc, run, s, node, patch, world.leftAt(|turns|));
            var longer := turns + [TurnOf(node, patch, s.context)];
            turning.Stops? ==>
              StopsFor(doc, run, world, longer, s.walked + RowOf(doc, run, s, node, patch, world.leftAt(|turns|)),
                       turning.ending)
  {
    var context := Merged(s.context, patch);
    var next := PickNext(node, ArrowsFrom(doc.edges, s.at), context);
    if next.Some? && NodeNamed(doc.nodes, next.value).Some? {
      AlarmsRing(NodeNamed(doc.nodes, next.value).value, world.leftAt(|turns|), run.entered + doc.maxAge);
    }
  }

  lemma HoldingStops(doc: Definition, run: Run, world: World, s: Walking, turns: seq<Turn>, node: Node)
    requires IsTraced(doc, run, world, s, turns)
    requires NodeNamed(doc.nodes, s.at) == Some(node) && Held(node, s.context, world.now)
    ensures TellsItsWords(doc, run, world, turns, s.walked, Writes(Hold(node, world.now, s)))
  {
    HeldIffShut(node, s.context, world.now);
    OpensAtIsTheNextOpenInstant(world.now, node.window.value);
  }

  ghost predicate TurningTells(
    doc: Definition, run: Run, world: World, turns: seq<Turn>, rows: seq<StepRecord>, turning: Turning)
  {
    match turning
    case Onward(after) => after.walked == rows && IsTraced(doc, run, world, after, turns)
    case Stops(ending) => TellsItsWords(doc, run, world, turns, rows, ending)
  }

  /** One turn: the trace is the longer by one, or the same for a hold. */
  lemma TurningTraces(doc: Definition, run: Run, world: World, s: Walking, turns: seq<Turn>)
    returns (longer: seq<Turn>, rows: seq<StepRecord>)
    requires IsTraced(doc, run, world, s, turns) && (turns != [] ==> NodeNamed(doc.nodes, s.at).Some?)
    ensures TurningTells(doc, run, world, longer, rows, TurnOnce(doc, run, world, |turns|, s))
    ensures TurnOnce(doc, run, world, |turns|, s).Onward? ==>
              |longer| == |turns| + 1 && NodeNamed(doc.nodes, TurnOnce(doc, run, world, |turns|, s).state.at).Some?
  {
    longer, rows := turns, s.walked;
    var found := NodeNamed(doc.nodes, s.at);
    if found.Some? {
      if Held(found.value, s.context, world.now) {
        HoldingStops(doc, run, world, s, turns, found.value);
      } else {
        HeldIffShut(found.value, s.context, world.now);
        var performed := Perform(found.value, s.context, world, |turns|);
        if performed.Patched? {
          LeavingTraces(doc, run, world, s, turns, found.value, performed.patch);
          longer := turns + [TurnOf(found.value, performed.patch, s.context)];
          rows := s.walked + RowOf(doc, run, s, found.value, performed.patch, world.leftAt(|turns|));
        }
      }
    }
  }

  /** What every turn keeps, a walk keeps. */
  ghost predicate TurnKeeps(
    doc: Definition, run: Run, world: World, holds: (nat, Walking) -> bool, ends: Ending -> bool, i: nat, s: Walking)
  {
    match TurnOnce(doc, run, world, i, s)
    case Onward(after) => holds(i + 1, after)
    case Stops(ending) => ends(ending)
  }

  lemma {:induction false} WalksKeep(
    doc: Definition, run: Run, world: World, holds: (nat, Walking) -> bool, ends: Ending -> bool, i: nat, s: Walking)
    requires i <= MAX_STEPS_PER_VISIT && holds(i, s)
    requires forall j: nat, t | j < MAX_STEPS_PER_VISIT && holds(j, t) :: TurnKeeps(doc, run, world, holds, ends, j, t)
    requires forall t :: holds(MAX_STEPS_PER_VISIT, t) ==> ends(Defect(Runaway))
    ensures ends(WalkFrom(doc, run, world, i, s))
    decreases MAX_STEPS_PER_VISIT - i
  {
    if i < MAX_STEPS_PER_VISIT {
      assert TurnKeeps(doc, run, world, holds, ends, i, s);
      match TurnOnce(doc, run, world, i, s)
      case Stops(_) =>
      case Onward(after) => WalksKeep(doc, run, world, holds, ends, i + 1, after);
    }
  }

  ghost predicate HasTrace(doc: Definition, run: Run, world: World, i: nat, s: Walking) {
    exists turns :: |turns| == i && TracedSoFar(doc, run, world, s, turns)
  }

  ghost predicate TracedSoFar(doc: Definition, run: Run, world: World, s: Walking, turns: seq<Turn>) {
    IsTraced(doc, run, world, s, turns) && (turns != [] ==> NodeNamed(doc.nodes, s.at).Some?)
  }

  ghost predicate IsSpelledOut(doc: Definition, run: Run, world: World, ending: Ending) {
    exists turns, rows :: TellsItsWords(doc, run, world, turns, rows, ending)
  }

  lemma EveryTurnIsTold(doc: Definition, run: Run, world: World, i: nat, s: Walking)
    requires HasTrace(doc, run, world, i, s)
    ensures TurnKeeps(doc, run, world, (j: nat, t: Walking) => HasTrace(doc, run, world, j, t),
                      (ending: Ending) => IsSpelledOut(doc, run, world, ending), i, s)
  {
    var turns :| |turns| == i && TracedSoFar(doc, run, world, s, turns);
    var longer, rows := TurningTraces(doc, run, world, s, turns);
    TurnsAreTold(doc, run, world, longer, rows, TurnOnce(doc, run, world, i, s));
  }

  lemma TurnsAreTold(
    doc: Definition, run: Run, world: World, turns: seq<Turn>, rows: seq<StepRecord>, turning: Turning)
    requires TurningTells(doc, run, world, turns, rows, turning)
    requires turning.Onward? ==> NodeNamed(doc.nodes, turning.state.at).Some?
    ensures match turning
            case Onward(after) => HasTrace(doc, run, world, |turns|, after)
            case Stops(ending) => IsSpelledOut(doc, run, world, ending)
  {
    if turning.Onward? {
      assert TracedSoFar(doc, run, world, turning.state, turns);
    }
  }

  lemma RunawaysAreTold(doc: Definition, run: Run, world: World, s: Walking)
    requires HasTrace(doc, run, world, MAX_STEPS_PER_VISIT, s)
    ensures IsSpelledOut(doc, run, world, Defect(Runaway))
  {
    var turns :| |turns| == MAX_STEPS_PER_VISIT && TracedSoFar(doc, run, world, s, turns);
    assert TellsItsWords(doc, run, world, turns, s.walked, Defect(Runaway));
  }

  lemma BeginningTraces(doc: Definition, run: Run, world: World)
    requires run.arrivedAt.Some?
    ensures HasTrace(doc, run, world, 0, Begin(run))
  {
    assert TracedSoFar(doc, run, world, Begin(run), []);
  }

  /** The board's part of a visit is told square by square: each square acted on
      the context the one before it left, its word's patch was merged, its answer
      spent, its arrow was its answer's, its row says so; what is written is what
      the last of them left; and when nothing is, it is for the reason given. */
  lemma EveryVisitTellsItsWords(doc: Definition, run: Run, world: World)
    requires run.arrivedAt.Some?
    ensures IsSpelledOut(doc, run, world, WalkFrom(doc, run, world, 0, Begin(run)))
  {
    var holds := (j: nat, t: Walking) => HasTrace(doc, run, world, j, t);
    var ends := (ending: Ending) => IsSpelledOut(doc, run, world, ending);
    BeginningTraces(doc, run, world);
    forall j: nat, t | j < MAX_STEPS_PER_VISIT && holds(j, t) ensures TurnKeeps(doc, run, world, holds, ends, j, t) {
      EveryTurnIsTold(doc, run, world, j, t);
    }
    forall t | holds(MAX_STEPS_PER_VISIT, t) ensures ends(Defect(Runaway)) {
      RunawaysAreTold(doc, run, world, t);
    }
    WalksKeep(doc, run, world, holds, ends, 0, Begin(run));
  }

  // ---- What that comes to ----

  /** The value a key has in the end: what the last word to write it wrote, unless
      its own square spent it since; else what the run held. */
  function LastWord(turns: seq<Turn>, key: string, held: Option<Value>): Option<Value> {
    if turns == [] then held
    else
      var last := turns[|turns| - 1];
      Told(last.node, last.patch, key, LastWord(turns[..|turns| - 1], key, held))
  }

  /** The patches overlay the run's context in walking order. */
  lemma {:induction false} PatchesOverlayInOrder(
    doc: Definition, run: Run, world: World, turns: seq<Turn>, rows: seq<StepRecord>, key: string)
    requires IsTrace(doc, run, world, turns, rows)
    ensures Lookup(Carried(run, turns), key)
            == LastWord(turns, key, if key == CUT_SHORT_BY_KEY then None else Lookup(run.context, key))
  {
    if turns != [] {
      TheLastTurnTells(doc, run, world, turns, rows, key);
      PatchesOverlayInOrder(doc, run, world, turns[..|turns| - 1], rows[..|rows| - 1], key);
    }
  }

  lemma TheLastTurnTells(
    doc: Definition, run: Run, world: World, turns: seq<Turn>, rows: seq<StepRecord>, key: string)
    requires IsTrace(doc, run, world, turns, rows) && turns != []
    ensures var before, last := turns[..|turns| - 1], turns[|turns| - 1];
            && IsTrace(doc, run, world, before, rows[..|rows| - 1])
            && Lookup(last.after, key) == Told(last.node, last.patch, key, Lookup(Carried(run, before), key))
  {
    var n := |turns| - 1;
    assert IsTurn(doc, run, world, turns, rows, n);
    FewerTurns(doc, run, world, turns, rows);
  }

  lemma FewerTurns(doc: Definition, run: Run, world: World, turns: seq<Turn>, rows: seq<StepRecord>)
    requires IsTrace(doc, run, world, turns, rows) && turns != []
    ensures IsTrace(doc, run, world, turns[..|turns| - 1], rows[..|rows| - 1])
  {
    var before, fewer := turns[..|turns| - 1], rows[..|rows| - 1];
    forall k: nat | k < |before| ensures IsTurn(doc, run, world, before, fewer, k) {
      assert IsTurn(doc, run, world, turns, rows, k);
    }
  }

  /** So a key that no square spends holds what the last word to write it wrote. */
  lemma {:induction false} TheLastWordStands(turns: seq<Turn>, key: string, held: Option<Value>, j: nat)
    requires key != OUTCOME_KEY && j < |turns| && key in turns[j].patch
    requires forall k | j < k < |turns| :: key !in turns[k].patch
    requires forall k | j <= k < |turns| :: !(IsAsked(turns[k].node) && key == ReplyKey(turns[k].node.id))
    ensures LastWord(turns, key, held) == Some(turns[j].patch[key])
  {
    if j < |turns| - 1 {
      TheLastWordStands(turns[..|turns| - 1], key, held, j);
    }
  }

  /** The context a move writes, if it writes one. */
  function ContextLeft(move: Move): Option<Context> {
    match move
    case Moved(_, _, context, _, _) => Some(context)
    case Exits(_, _, left, _) => left
    case _ => None
  }

  /** The context a turn hands on, or writes. */
  function HandedOn(turning: Turning): Option<Context> {
    match turning
    case Onward(after) => Some(after.context)
    case Stops(ending) => if ending.Writes? then ContextLeft(ending.move) else None
  }

  /** The square a turn leaves the run on. */
  function LedOnto(turning: Turning): Option<string> {
    match turning
    case Onward(after) => Some(after.at)
    case Stops(ending) => if ending.Writes? && ending.move.Moved? then Some(ending.move.node) else None
  }

  /** The context a visit's walk writes, name by name: what the run held, overlaid by
      what the words it walked wrote, in walking order, their answers spent. */
  lemma EveryVisitOverlaysItsPatches(doc: Definition, run: Run, world: World, key: string) returns (turns: seq<Turn>)
    requires run.arrivedAt.Some? && key != CUT_SHORT_BY_KEY
    ensures var ending := WalkFrom(doc, run, world, 0, Begin(run));
            ending.Writes? ==>
              && IsTrace(doc, run, world, turns, ClosedBy(ending.move))
              && var left := ContextLeft(ending.move);
                 left.Some? && Lookup(left.value, key) == LastWord(turns, key, Lookup(run.context, key))
  {
    EveryVisitTellsItsWords(doc, run, world);
    var ending := WalkFrom(doc, run, world, 0, Begin(run));
    var all, rows :| TellsItsWords(doc, run, world, all, rows, ending);
    turns := all;
    PatchesOverlayInOrder(doc, run, world, turns, rows, key);
  }

  /** One turn of the loop, as it stands: a square that is not shut, whose word
      wrote `patch`, hands on exactly the context told; unless its arrow leads
      nowhere at all. */
  lemma ATurnTellsItsWord(
    doc: Definition, run: Run, world: World, i: nat, s: Walking, node: Node, patch: Context)
    requires NodeNamed(doc.nodes, s.at) == Some(node) && !IsShut(node, s.context, world.now)
    requires WordSays(world, i, node, s.context, patch)
    ensures var turning := TurnOnce(doc, run, world, i, s);
            if HandedOn(turning).Some? then IsTold(node, patch, s.context, HandedOn(turning).value)
            else turning == Stops(Defect(ArrowIntoNowhere))
  {
    HeldIffShut(node, s.context, world.now);
    LeavingIsTold(node, patch, s.context);
  }

  /** A branching square whose word answers is left along the arrow that answer
      labels, on a board whose labels are lawful. */
  lemma AnAnswerTakesItsArrow(
    doc: Definition, run: Run, world: World, i: nat, s: Walking, node: Node, patch: Context, word: string, dst: string)
    requires NodeNamed(doc.nodes, s.at) == Some(node) && !IsShut(node, s.context, world.now) && IsAsked(node)
    requires WordSays(world, i, node, s.context, patch)
    requires ReplyKey(node.id) in patch && patch[ReplyKey(node.id)] == Text(word)
    requires Edge(node.id, dst, Some(word)) in doc.edges && NodeNamed(doc.nodes, dst).Some?
    requires forall to | Edge(node.id, to, Some(word)) in doc.edges :: to == dst
    ensures LedOnto(TurnOnce(doc, run, world, i, s)) == Some(dst)
  {
    HeldIffShut(node, s.context, world.now);
    TheArrowIsTheAnswers(doc.edges, node, patch, s.context);
    assert HasLabel(doc.edges, node.id, Some(word));
  }

  // ---- The visit ----

  /** A run ended without a walk: at most one row, of the square it stood on, left
      now, for this reason, leading nowhere. */
  predicate ClosesFor(run: Run, reason: string, now: int, letter: Option<string>, rows: seq<StepRecord>) {
    |rows| <= 1
    && (rows != [] ==>
          && run.arrivedAt.Some? && rows[0].node == run.node && rows[0].arrivedAt == run.arrivedAt.value
          && rows[0].leftAt == (if now < run.arrivedAt.value then run.arrivedAt.value else now)
          && rows[0].outcome == Some(reason) && rows[0].next.None? && rows[0].dispatchId.None?
          && rows[0].attempts == (if run.attempts > 1 then run.attempts else 1) && rows[0].lastError == run.lastError
          && rows[0].cutShortBy == (if letter.Some? then letter else MarkOn(run.context))
          && (rows[0].arrivedBy == ByDoor <==> run.arrivedAt == Some(run.entered))
          && (rows[0].arrivedBy == ByLetter <==> run.arrivedAt != Some(run.entered) && rows[0].cutShortBy.Some?))
  }

  predicate ExitsFor(run: Run, reason: string, now: int, move: Move) {
    && move.Exits? && move.reason == reason && move.at.None? && move.left.None?
    && ClosesFor(run, reason, now, None, move.closed)
  }

  lemma ClosingsClose(run: Run, doc: Option<Definition>, reason: string, now: int, letter: Option<string>)
    ensures ClosesFor(run, reason, now, letter, Closing(run, doc, reason, now, letter))
    ensures Closing(run, doc, reason, now, letter) == [] <==>
            doc.None? || run.arrivedAt.None? || forall node | node in doc.value.nodes :: node.id != run.node
  {
  }

  /** A tier that can be asked about this run, and whose letter exists: a keyed one
      needs the run's value; one with conditions needs a key. */
  predicate TierHolds(doc: Definition, run: Run, world: World, i: nat)
    requires i < |GoalTiers(doc.goals)|
  {
    var tier := GoalTiers(doc.goals)[i];
    && (match tier.key
        case None => tier.conditions == 0
        case Some(key) => Lookup(run.context, key.run) !in {None, Some(Null), Some(Text(""))})
    && world.says(i)
  }

  /** What stands in the way of a walk: the age of the run, then a goal its letters
      have met, the first to hold. */
  lemma EveryVisitHasItsReason(doc: Definition, run: Run, world: World)
    ensures var ending := Visit(doc, run, world);
            if world.now > run.entered + doc.maxAge then
              ending.Writes? && ExitsFor(run, "timed_out", world.now, ending.move)
            else if SomeTierHolds(doc, run, world) then
              ending.Writes? && exists i: nat | FirstToHold(doc, run, world, i) ::
                ExitsFor(run, GoalTiers(doc.goals)[i].exitReason, world.now, ending.move)
            else ending == WalkFrom(doc, run, world, 0, Begin(run))
  {
    if world.now <= run.entered + doc.maxAge {
      if SomeTierHolds(doc, run, world) {
        AHeldTierExits(doc, run, world);
      } else {
        NoTierHolds(doc, run, world);
      }
    }
  }

  predicate SomeTierHolds(doc: Definition, run: Run, world: World) {
    exists i | 0 <= i < |GoalTiers(doc.goals)| :: TierHolds(doc, run, world, i)
  }

  predicate FirstToHold(doc: Definition, run: Run, world: World, i: nat) {
    && i < |GoalTiers(doc.goals)| && TierHolds(doc, run, world, i)
    && forall j: nat | j < i :: !TierHolds(doc, run, world, j)
  }

  lemma AHeldTierExits(doc: Definition, run: Run, world: World)
    requires world.now <= run.entered + doc.maxAge && SomeTierHolds(doc, run, world)
    ensures var hit := Verdict(GoalTiers(doc.goals), run.context, world.says, 0);
            hit.Some? && FirstToHold(doc, run, world, hit.value)
  {
    var tiers := GoalTiers(doc.goals);
    var i :| 0 <= i < |tiers| && TierHolds(doc, run, world, i);
    var hit := Verdict(tiers, run.context, world.says, 0).value;
    forall j: nat | j < hit ensures !TierHolds(doc, run, world, j) {
    }
  }

  lemma NoTierHolds(doc: Definition, run: Run, world: World)
    requires !SomeTierHolds(doc, run, world)
    ensures Verdict(GoalTiers(doc.goals), run.context, world.says, 0).None?
  {
    var hit := Verdict(GoalTiers(doc.goals), run.context, world.says, 0);
    assert hit.Some? ==> TierHolds(doc, run, world, hit.value);
  }

  /** Written as walked; parked for a defect; for a failure, retried or parked. */
  predicate Becomes(run: Run, world: World, ending: Ending, move: Move) {
    match ending
    case Writes(written) => move == written
    case Defect(reason) => move == Parks(reason)
    case Failure(error) => IsRetried(run, world, error, move)
  }

  predicate IsRetried(run: Run, world: World, error: string, move: Move) {
    move == if run.attempts < 3 then Retries(error, world.retryIn) else Parks(Exhausted(error))
  }

  /** A claim's visit: an archived plan lets the run go, a paused one leaves it; no
      document parks it; else it becomes what its visit came to. */
  lemma EveryClaimHasItsReason(run: Run, status: Option<PlanStatus>, read: DocRead, world: World)
    requires run.wake.Some?
    ensures var move := WalkRun(run, status, read, world);
            match status
            case None => ExitsFor(run, "ejected", world.now, move)
            case Some(Archived) => ExitsFor(run, "ejected", world.now, move)
            case Some(Paused) => move == Rests
            case Some(_) =>
              match read
              case Missing => move == Parks(VersionMissing)
              case Unreadable => IsRetried(run, world, "definition unreadable", move)
              case Read(doc) => Becomes(run, world, Visit(doc, run, world), move)
  {
  }
}
