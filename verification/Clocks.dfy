/** The rows a visit closes on a clock that may run backwards
    (outreach/steps.py, `step`). */
module Clocks {
  import opened Wrappers
  import opened Board
  import opened Steps
  import opened Walker
  import opened Trail

  /** When a visit reached the k-th square it walked. */
  function Arrival(run: Run, world: World, k: nat): int
    requires run.arrivedAt.Some?
  {
    if k == 0 then run.arrivedAt.value else world.leftAt(k - 1)
  }

  /** The clock had not fallen over any of the first `n` squares. */
  ghost predicate ClockHeld(run: Run, world: World, n: nat)
    requires run.arrivedAt.Some?
  {
    forall k: nat {:trigger Arrival(run, world, k)} | k < n :: Arrival(run, world, k) <= world.leftAt(k)
  }

  /** The rows' own clock: each square is entered when the last was left, and left
      when it was, or, on a clock that fell, as it was entered. */
  ghost predicate ClampedRows(run: Run, world: World, rows: seq<StepRecord>)
    requires run.arrivedAt.Some?
  {
    && (forall k | 0 <= k < |rows| :: ClampedRow(run, world, k, rows[k]))
    && forall k: nat | k < |rows| - 1 :: LeadsOn(rows, k)
  }

  predicate LeadsOn(rows: seq<StepRecord>, k: nat)
    requires k < |rows| - 1
  {
    rows[k].next == Some(rows[k + 1].node)
  }

  predicate ClampedRow(run: Run, world: World, k: nat, row: StepRecord)
    requires run.arrivedAt.Some?
  {
    && row.arrivedAt == Arrival(run, world, k)
    && row.leftAt == if world.leftAt(k) < row.arrivedAt then row.arrivedAt else world.leftAt(k)
  }

  ghost predicate ClampedWalk(run: Run, world: World, i: nat, s: Walking)
    requires run.arrivedAt.Some?
  {
    && |s.walked| == i && s.arrivedAt == Some(Arrival(run, world, i)) && ClampedRows(run, world, s.walked)
    && (s.walked != [] ==> Last(s.walked).next == Some(s.at)) && (s.first <==> i == 0)
  }

  ghost predicate ClampedMove(run: Run, world: World, move: Move)
    requires run.arrivedAt.Some?
  {
    var rows := ClosedBy(move);
    && ClampedRows(run, world, rows)
    && (move.Moved? && rows != [] ==>
          Last(rows).next == Some(move.node) && move.arrivedAt == Some(Arrival(run, world, |rows|)))
  }

  lemma LeavingClamps(doc: Definition, run: Run, world: World, i: nat, s: Walking, node: Node, patch: Context)
    requires run.arrivedAt.Some? && ClampedWalk(run, world, i, s) && node.id == s.at
    ensures var turning := Leave(doc, run, s, node, patch, world.leftAt(i));
            && (turning.Onward? ==> ClampedWalk(run, world, i + 1, turning.state))
            && (turning.Stops? && turning.ending.Writes? ==> ClampedMove(run, world, turning.ending.move))
  {
    var row := RowOf(doc, run, s, node, patch, world.leftAt(i))[0];
    AppendClamped(run, world, s.walked, row);
    assert Last(s.walked + [row]) == row;
  }

  lemma AppendClamped(run: Run, world: World, rows: seq<StepRecord>, row: StepRecord)
    requires run.arrivedAt.Some? && ClampedRows(run, world, rows) && ClampedRow(run, world, |rows|, row)
    requires rows != [] ==> Last(rows).next == Some(row.node)
    ensures ClampedRows(run, world, rows + [row])
  {
    var all := rows + [row];
    forall k | 0 <= k < |all| ensures ClampedRow(run, world, k, all[k]) {
      if k < |rows| {
        assert all[k] == rows[k];
      }
    }
    forall k: nat | k < |all| - 1 ensures LeadsOn(all, k) {
      if k < |rows| - 1 {
        assert LeadsOn(rows, k);
      }
    }
  }

  ghost predicate ClampedEnding(run: Run, world: World, ending: Ending)
    requires run.arrivedAt.Some?
  {
    ending.Writes? ==> ClampedMove(run, world, ending.move)
  }

  ghost predicate ClampedTurn(run: Run, world: World, i: nat, turning: Turning)
    requires run.arrivedAt.Some?
  {
    match turning
    case Onward(after) => ClampedWalk(run, world, i + 1, after)
    case Stops(ending) => ClampedEnding(run, world, ending)
  }

  lemma TurningClamps(doc: Definition, run: Run, world: World, i: nat, s: Walking)
    requires run.arrivedAt.Some? && ClampedWalk(run, world, i, s)
    ensures ClampedTurn(run, world, i, TurnOnce(doc, run, world, i, s))
  {
    var found := NodeNamed(doc.nodes, s.at);
    if found.Some? && !Held(found.value, s.context, world.now) {
      var performed := Perform(found.value, s.context, world, i);
      if performed.Patched? {
        LeavingClamps(doc, run, world, i, s, found.value, performed.patch);
      }
    }
  }

  lemma {:induction false} WalkingClamps(doc: Definition, run: Run, world: World, i: nat, s: Walking)
    requires i <= MAX_STEPS_PER_VISIT && run.arrivedAt.Some? && ClampedWalk(run, world, i, s)
    ensures ClampedEnding(run, world, WalkFrom(doc, run, world, i, s))
    decreases MAX_STEPS_PER_VISIT - i
  {
    if i < MAX_STEPS_PER_VISIT {
      var turning := TurnOnce(doc, run, world, i, s);
      assert ClampedTurn(run, world, i, turning) by {
        TurningClamps(doc, run, world, i, s);
      }
      assert WalkFrom(doc, run, world, i, s)
             == if turning.Stops? then turning.ending else WalkFrom(doc, run, world, i + 1, turning.state);
      if turning.Onward? {
        WalkingClamps(doc, run, world, i + 1, turning.state);
      }
    }
  }

  /** Two machines' clocks may disagree, and a row's exit is clamped so that it
      never precedes its entry. The squares a move closes are then still gapless
      exactly when the clock had not fallen over any but the last of them; and they
      lead up to the instant the run is written to stand since exactly when it had
      not fallen over the last one either. */
  ghost predicate MeetsIffTheClockHeld(run: Run, world: World, move: Move)
    requires run.arrivedAt.Some?
  {
    var rows := ClosedBy(move);
    rows != [] ==>
      && (Gapless(rows) <==> ClockHeld(run, world, |rows| - 1))
      && (move.Moved? ==>
            (Gapless(rows) && LeadsTo(rows, move.node, move.arrivedAt) <==> ClockHeld(run, world, |rows|)))
  }

  lemma ClampedMovesMeetIff(run: Run, world: World, move: Move)
    requires run.arrivedAt.Some? && ClampedMove(run, world, move)
    ensures MeetsIffTheClockHeld(run, world, move)
  {
    var rows := ClosedBy(move);
    if rows != [] {
      ClampedRowsMeetIff(run, world, rows);
      ClockHeldOnceMore(run, world, |rows| - 1);
    }
  }

  lemma ClockHeldOnceMore(run: Run, world: World, n: nat)
    requires run.arrivedAt.Some?
    ensures ClockHeld(run, world, n + 1) <==> ClockHeld(run, world, n) && Arrival(run, world, n) <= world.leftAt(n)
  {
  }

  predicate MeetsTheNext(rows: seq<StepRecord>, k: nat)
    requires k < |rows| - 1
  {
    rows[k].next == Some(rows[k + 1].node) && rows[k].leftAt == rows[k + 1].arrivedAt
  }

  lemma GaplessIsMeeting(rows: seq<StepRecord>)
    ensures Gapless(rows) <==> forall k: nat | k < |rows| - 1 :: MeetsTheNext(rows, k)
  {
    if forall k: nat | k < |rows| - 1 :: MeetsTheNext(rows, k) {
      forall k | 0 <= k < |rows| - 1
        ensures rows[k].next == Some(rows[k + 1].node) && rows[k].leftAt == rows[k + 1].arrivedAt
      {
        assert MeetsTheNext(rows, k);
      }
    }
  }

  lemma ClampedRowMeetsIff(run: Run, world: World, rows: seq<StepRecord>, k: nat)
    requires run.arrivedAt.Some? && ClampedRows(run, world, rows) && k < |rows| - 1
    ensures MeetsTheNext(rows, k) <==> Arrival(run, world, k) <= world.leftAt(k)
  {
    assert LeadsOn(rows, k) && ClampedRow(run, world, k, rows[k]) && ClampedRow(run, world, k + 1, rows[k + 1]);
  }

  lemma ClampedRowsMeetIff(run: Run, world: World, rows: seq<StepRecord>)
    requires run.arrivedAt.Some? && rows != [] && ClampedRows(run, world, rows)
    ensures Gapless(rows) <==> ClockHeld(run, world, |rows| - 1)
    ensures Last(rows).leftAt == Arrival(run, world, |rows|) <==>
            Arrival(run, world, |rows| - 1) <= world.leftAt(|rows| - 1)
  {
    GaplessIsMeeting(rows);
    forall k: nat | k < |rows| - 1 ensures MeetsTheNext(rows, k) <==> Arrival(run, world, k) <= world.leftAt(k) {
      ClampedRowMeetsIff(run, world, rows, k);
    }
    assert ClampedRow(run, world, |rows| - 1, rows[|rows| - 1]);
    if Gapless(rows) {
      forall k: nat | k < |rows| - 1 ensures Arrival(run, world, k) <= world.leftAt(k) {
        assert MeetsTheNext(rows, k);
      }
    }
  }

  /** The walk of any visit, on any clock. */
  lemma AWalkIsGaplessIffTheClockHeld(doc: Definition, run: Run, world: World)
    requires run.arrivedAt.Some?
    ensures var ending := WalkFrom(doc, run, world, 0, Begin(run));
            ending.Writes? ==> MeetsIffTheClockHeld(run, world, ending.move)
  {
    WalkingClamps(doc, run, world, 0, Begin(run));
    var ending := WalkFrom(doc, run, world, 0, Begin(run));
    if ending.Writes? {
      ClampedMovesMeetIff(run, world, ending.move);
    }
  }
}
