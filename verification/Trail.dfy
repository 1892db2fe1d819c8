/** What one visit does to a run's trail and to its answers, whatever the world
    says. */
module Trail {
  import opened Wrappers
  import opened Board
  import opened Steps
  import opened Walker

  // ---- The clock ----

  /** The walker's clock does not run backwards during a visit. */
  ghost predicate Monotone(world: World, until: int) {
    && world.now <= until
    && forall i: nat, j: nat | i <= j :: world.now <= world.leftAt(i) <= world.leftAt(j) <= until
  }

  // ---- What every walked buffer is ----

  /** One closed square: its arrow is the document's, time runs forwards, and
      only the door's own square, closed first, arrived by the door. */
  ghost predicate StepFits(edges: seq<Edge>, run: Run, after: int, row: StepRecord, first: bool) {
    && row.arrivedAt <= row.leftAt && after <= row.leftAt
    && (row.arrivedBy == ByDoor <==> first && run.arrivedAt == Some(run.entered))
    && TakesAnArrow(edges, row)
  }

  ghost predicate TakesAnArrow(edges: seq<Edge>, row: StepRecord) {
    row.next.Some? ==> exists arrow :: arrow in ArrowsFrom(edges, row.node) && arrow.dst == row.next.value
  }

  /** A buffer that starts on the square the run stood on and walks arrows. */
  ghost predicate Walked(edges: seq<Edge>, run: Run, after: int, rows: seq<StepRecord>) {
    && Gapless(rows)
    && (forall k | 0 <= k < |rows| :: StepFits(edges, run, after, rows[k], k == 0))
    && (rows != [] ==> rows[0].node == run.node && Some(rows[0].arrivedAt) == run.arrivedAt)
  }

  /** Where a run stands after closing `rows`: on the square the last of them
      led to, since the instant it was left. */
  ghost predicate LeadsTo(rows: seq<StepRecord>, at: string, since: Option<int>)
    requires rows != []
  {
    Last(rows).next == Some(at) && Some(Last(rows).leftAt) == since
  }

  /** Appending a square that begins where the last one led. */
  lemma AppendWalked(edges: seq<Edge>, run: Run, after: int, rows: seq<StepRecord>, row: StepRecord)
    requires Walked(edges, run, after, rows)
    requires if rows == [] then row.node == run.node && Some(row.arrivedAt) == run.arrivedAt
             else LeadsTo(rows, row.node, Some(row.arrivedAt))
    requires StepFits(edges, run, after, row, rows == [])
    ensures Walked(edges, run, after, rows + [row])
  {
    var all := rows + [row];
    forall k | 0 <= k < |all| ensures StepFits(edges, run, after, all[k], k == 0) {
      if k < |rows| {
        assert all[k] == rows[k];
      }
    }
  }

  /** The loop's variables agree with the squares it has closed. */
  ghost predicate WalkingFits(edges: seq<Edge>, run: Run, now: int, s: Walking) {
    && Walked(edges, run, now, s.walked)
    && s.first == (s.walked == [])
    && s.arrivedAt.Some?
    && (s.arrivedBy == ByDoor <==> s.first && run.arrivedAt == Some(run.entered))
    && if s.first then s.at == run.node && s.arrivedAt == run.arrivedAt && s.arrivedAt.value <= now
       else LeadsTo(s.walked, s.at, s.arrivedAt) && now <= s.arrivedAt.value
  }

  /** The squares a move closes: they share the fate of its write. */
  function ClosedBy(move: Move): seq<StepRecord> {
    match move
    case Moved(_, _, _, _, steps) => steps
    case Exits(_, _, _, closed) => closed
    case _ => []
  }

  /** A write that moves the token: its squares lead from where the run stood
      to where it now stands; a hold that closed nothing leaves it in place. */
  ghost predicate MovedFits(edges: seq<Edge>, run: Run, now: int, until: int, move: Move)
    requires move.Moved?
  {
    && Walked(edges, run, now, move.steps)
    && if move.steps == [] then move.node == run.node && move.arrivedAt.None?
       else LeadsTo(move.steps, move.node, move.arrivedAt) && now <= move.arrivedAt.value <= until
  }

  /** A write that ends the run: the last square it closes leads nowhere. */
  ghost predicate ExitFits(edges: seq<Edge>, run: Run, now: int, move: Move)
    requires move.Exits?
  {
    && Walked(edges, run, now, move.closed)
    && if move.closed == [] then move.at.None?
       else Last(move.closed).next.None? && Last(move.closed).node == move.at.GetOr(run.node)
  }

  ghost predicate MoveFits(edges: seq<Edge>, run: Run, now: int, until: int, move: Move) {
    && (move.Moved? ==> MovedFits(edges, run, now, until, move))
    && (move.Exits? ==> ExitFits(edges, run, now, move))
  }

  // ---- One turn ----

  /** The one row a turn closes. */
  function RowOf(doc: Definition, run: Run, s: Walking, node: Node, patch: Context, leftAt: int): seq<StepRecord> {
    var context := Merged(s.context, patch);
    Step(node, s.arrivedAt, leftAt, s.arrivedBy, OutcomeOf(node, patch, context),
         PickNext(node, ArrowsFrom(doc.edges, s.at), context), run, s.cutShortBy, s.first,
         DispatchId(patch, node.id))
  }

  lemma LeavingKeepsTheTrail(
    doc: Definition, run: Run, now: int, until: int, s: Walking, node: Node, patch: Context, leftAt: int)
    requires WalkingFits(doc.edges, run, now, s)
    requires s.arrivedAt.value <= leftAt && now <= leftAt <= until && node.id == s.at
    ensures var turning := Leave(doc, run, s, node, patch, leftAt);
            && (turning.Onward? ==>
                  WalkingFits(doc.edges, run, now, turning.state) && turning.state.arrivedAt == Some(leftAt))
            && (turning.Stops? && turning.ending.Writes? ==>
                  MoveFits(doc.edges, run, now, until, turning.ending.move))
  {
    var row := RowOf(doc, run, s, node, patch, leftAt)[0];
    AppendWalked(doc.edges, run, now, s.walked, row);
    assert Last(s.walked + [row]) == row;
  }

  lemma WalkingKeepsTheTrail(doc: Definition, run: Run, world: World, i: nat, s: Walking, until: int)
    requires i <= MAX_STEPS_PER_VISIT && Monotone(world, until)
    requires WalkingFits(doc.edges, run, world.now, s)
    requires s.arrivedAt.value <= world.leftAt(i) && s.arrivedAt.value <= until
    ensures var ending := WalkFrom(doc, run, world, i, s);
            ending.Writes? ==> MoveFits(doc.edges, run, world.now, until, ending.move)
    decreases MAX_STEPS_PER_VISIT - i
  {
    if i < MAX_STEPS_PER_VISIT {
      var turning := TurnOnce(doc, run, world, i, s);
      TurningKeepsTheTrail(doc, run, world, i, s, until);
      if turning.Onward? {
        assert world.leftAt(i) <= world.leftAt(i + 1) <= until;
        WalkingKeepsTheTrail(doc, run, world, i + 1, turning.state, until);
      }
    }
  }

  lemma TurningKeepsTheTrail(doc: Definition, run: Run, world: World, i: nat, s: Walking, until: int)
    requires WalkingFits(doc.edges, run, world.now, s)
    requires s.arrivedAt.value <= world.leftAt(i) && s.arrivedAt.value <= until
    requires world.now <= world.leftAt(i) <= until
    ensures var turning := TurnOnce(doc, run, world, i, s);
            && (turning.Onward? ==>
                  WalkingFits(doc.edges, run, world.now, turning.state)
                  && turning.state.arrivedAt == Some(world.leftAt(i)))
            && (turning.Stops? && turning.ending.Writes? ==>
                  MoveFits(doc.edges, run, world.now, until, turning.ending.move))
  {
    var found := NodeNamed(doc.nodes, s.at);
    if found.Some? && !Held(found.value, s.context, world.now) {
      var performed := Perform(found.value, s.context, world, i);
      if performed.Patched? {
        LeavingKeepsTheTrail(doc, run, world.now, until, s, found.value, performed.patch, world.leftAt(i));
      }
    }
  }

  lemma ClosingFits(
    edges: seq<Edge>, run: Run, doc: Option<Definition>, reason: string, now: int, until: int,
    letter: Option<string>)
    requires run.arrivedAt.Some? && run.arrivedAt.value <= now
    ensures MoveFits(edges, run, now, until, Exits(reason, None, None, Closing(run, doc, reason, now, letter)))
  {
  }

  /** Whatever a visit writes, its closed squares continue the run's trail: a
      gapless walk over arrows of the document, from the square the run stood
      on to the square it is written onto, or to nowhere when it ends. */
  lemma EveryVisitContinuesTheTrail(
    run: Run, status: Option<PlanStatus>, read: DocRead, doc: Definition, world: World, until: int)
    requires Monotone(world, until) && run.arrivedAt.Some? && run.arrivedAt.value <= world.now
    requires read.Read? ==> read.definition == doc
    ensures MoveFits(doc.edges, run, world.now, until, WalkRun(run, status, read, world))
  {
    var open := if read.Read? then Some(read.definition) else None;
    ClosingFits(doc.edges, run, open, "ejected", world.now, until, None);
    if read.Read? {
      VisitContinuesTheTrail(run, doc, world, until);
    }
  }

  lemma VisitContinuesTheTrail(run: Run, doc: Definition, world: World, until: int)
    requires Monotone(world, until) && run.arrivedAt.Some? && run.arrivedAt.value <= world.now
    ensures var ending := Visit(doc, run, world);
            ending.Writes? ==> MoveFits(doc.edges, run, world.now, until, ending.move)
  {
    var tiers := GoalTiers(doc.goals);
    if world.now - run.entered > doc.maxAge {
      ClosingFits(doc.edges, run, Some(doc), "timed_out", world.now, until, None);
    } else {
      match Verdict(tiers, run.context, world.says, 0)
      case Some(i) => ClosingFits(doc.edges, run, Some(doc), tiers[i].exitReason, world.now, until, None);
      case None =>
        assert world.now <= world.leftAt(0);
        WalkingKeepsTheTrail(doc, run, world, 0, Begin(run), until);
    }
  }

  // ---- Answers ----

  /** The answers a context holds: stored nulls are none. */
  predicate HoldsAnswer(context: Context, key: string) {
    IsReplyKey(key) && Get(context, key).Some?
  }

  /** A context holds no answer but this square's own, and that only when the
      square branches. */
  ghost predicate OnlyOwnAnswer(nodes: seq<Node>, id: string, context: Context) {
    forall key | HoldsAnswer(context, key) ::
      key == ReplyKey(id) && NodeNamed(nodes, id).Some? && Branches(NodeNamed(nodes, id).value)
  }

  /** No square's answer at all. */
  ghost predicate NoAnswers(context: Context) {
    forall key :: !HoldsAnswer(context, key)
  }

  /** A square's word writes no answer but its own, and the words that do
      answer never say `timeout`. */
  ghost predicate OwnPatch(node: Node, patch: Context) {
    forall key | HoldsAnswer(patch, key) ::
      key == ReplyKey(node.id) && Branches(node) && patch[key] != Text(TIMEOUT)
  }

  ghost predicate WordsKeepToThemselves(world: World) {
    forall i: nat, node: Node, context: Context ::
      world.performs(i, node, context).Patched? ==> OwnPatch(node, world.performs(i, node, context).patch)
  }

  /** Leaving a square spends every answer in hand. */
  lemma LeavingSpendsTheAnswer(nodes: seq<Node>, node: Node, context: Context, patch: Context)
    requires NodeNamed(nodes, node.id) == Some(node)
    requires OnlyOwnAnswer(nodes, node.id, context) && OwnPatch(node, patch)
    ensures NoAnswers(Spent(node, Merged(context, patch)))
  {
    forall key ensures !HoldsAnswer(Spent(node, Merged(context, patch)), key) {
      assert HoldsAnswer(Merged(context, patch), key) ==> HoldsAnswer(context, key) || HoldsAnswer(patch, key);
    }
  }

  /** Nothing a visit writes still holds an answer. */
  ghost predicate AnswersSpent(move: Move) {
    && (move.Moved? ==> NoAnswers(move.context))
    && (move.Exits? && move.left.Some? ==> NoAnswers(move.left.value))
  }

  /** A held square has no answer to keep; the mark put back is not one. */
  lemma HoldingKeepsNoAnswer(nodes: seq<Node>, node: Node, now: int, s: Walking)
    requires Held(node, s.context, now) && OnlyOwnAnswer(nodes, node.id, s.context)
    ensures NoAnswers(Hold(node, now, s).context)
  {
    var kept := Hold(node, now, s).context;
    assert !IsReplyKey(CUT_SHORT_BY_KEY) by {
      assert CUT_SHORT_BY_KEY[0] != REPLY_PREFIX[0];
    }
    forall key ensures !HoldsAnswer(kept, key) {
      assert HoldsAnswer(kept, key) ==> HoldsAnswer(s.context, key);
    }
  }

  lemma WalkingSpendsAnswers(doc: Definition, run: Run, world: World, i: nat, s: Walking)
    requires i <= MAX_STEPS_PER_VISIT && WordsKeepToThemselves(world)
    requires OnlyOwnAnswer(doc.nodes, s.at, s.context)
    ensures var ending := WalkFrom(doc, run, world, i, s);
            ending.Writes? ==> AnswersSpent(ending.move)
    decreases MAX_STEPS_PER_VISIT - i
  {
    if i < MAX_STEPS_PER_VISIT {
      var found := NodeNamed(doc.nodes, s.at);
      if found.Some? {
        if Held(found.value, s.context, world.now) {
          HoldingKeepsNoAnswer(doc.nodes, found.value, world.now, s);
        } else {
          var performed := Perform(found.value, s.context, world, i);
          if performed.Patched? {
            LeavingSpendsTheAnswer(doc.nodes, found.value, s.context, performed.patch);
            var turning := Leave(doc, run, s, found.value, performed.patch, world.leftAt(i));
            if turning.Onward? {
              WalkingSpendsAnswers(doc, run, world, i + 1, turning.state);
            }
          }
        }
      }
    }
  }

  /** A visit that moves or holds a run leaves no answer behind. So an answer
      the next claim finds was heard on the very square the run stands on,
      since this write. */
  lemma EveryVisitSpendsItsAnswers(run: Run, status: Option<PlanStatus>, doc: Definition, read: DocRead, world: World)
    requires WordsKeepToThemselves(world) && OnlyOwnAnswer(doc.nodes, run.node, run.context)
    requires read.Read? ==> read.definition == doc
    ensures AnswersSpent(WalkRun(run, status, read, world))
  {
    if read.Read? {
      forall key | HoldsAnswer(Begin(run).context, key) ensures HoldsAnswer(run.context, key) {
      }
      WalkingSpendsAnswers(doc, run, world, 0, Begin(run));
    }
  }
}
