/** A whole life on an expanded ladder: visit after visit, as the walker makes
    them, from a door to the end. */
module LadderLives {
  import opened Board
  import opened Steps
  import opened Walker
  import opened Ladder
  import opened LadderLaws
  import opened LadderRefinement

  /** One visit: the run as it was claimed, and what the world said. */
  datatype Attended = Attended(run: Run, world: World)

  function EndingOf(doc: Definition, visit: Attended): Ending {
    Visit(doc, visit.run, visit.world)
  }

  /** The squares a visit's write closes. */
  function ClosedBy(ending: Ending): nat {
    if ending.Defect? || ending.Failure? then 0
    else
      match ending.move
      case Moved(_, _, _, _, steps) => |steps|
      case Exits(_, _, _, closed) => |closed|
      case _ => 0
  }

  function ClosedInAll(doc: Definition, visits: seq<Attended>): nat {
    if visits == [] then 0 else ClosedBy(EndingOf(doc, visits[0])) + ClosedInAll(doc, visits[1..])
  }

  /** The run brings no answer, or the name of a letter its square listens for. */
  predicate BringsWhatItHears(doc: Definition, run: Run) {
    var answer := Get(run.context, ReplyKey(run.node));
    var node := NodeNamed(doc.nodes, run.node);
    answer.Some? ==> node.Some? && answer.value.Text? && answer.value.text in node.value.topics
  }

  ghost predicate IsOrdinary(doc: Definition, visit: Attended) {
    Uneventful(doc, visit.run, visit.world) && visit.run.arrivedAt.Some? && BringsWhatItHears(doc, visit.run)
  }

  /** Each visit finds the run where the one before it left it. */
  ghost predicate IsLife(doc: Definition, visits: seq<Attended>) {
    && (forall k | 0 <= k < |visits| :: IsOrdinary(doc, visits[k]))
    && forall k | 0 <= k < |visits| - 1 :: Follows(doc, visits[k], visits[k + 1])
  }

  ghost predicate Follows(doc: Definition, visit: Attended, next: Attended) {
    var ending := EndingOf(doc, visit);
    ending.Writes? && ending.move.Moved? && next.run.node == ending.move.node
  }

  /** What a run standing on a place brings is a signal the place can hear. */
  lemma WhatItBrings(f: seq<Stage>, doc: Definition, run: Run, place: Place) returns (signal: Signal)
    requires Apart(f) && IsPlace(|f|, place) && !place.Done? && doc.nodes == Drawn(f).nodes
    requires run.node == SquareOf(f, place) && BringsWhatItHears(doc, run)
    ensures CanHear(|f|, place, signal) && Brings(f, run, signal)
  {
    EveryPlaceIsNamed(f, place);
    var answer := Get(run.context, ReplyKey(run.node));
    if answer.None? {
      signal := Silence;
    } else {
      var later := Topics(f)[place.stage + 1..];
      var k :| 0 <= k < |later| && later[k] == answer.value.text;
      signal := LetterOf(place.stage + 1 + k);
    }
  }

  /** One visit of a life: it closes what the funnel says and leaves the run at
      the funnel's next place. */
  lemma OneVisitOfALife(
    stages: Stages, goals: seq<Goal>, maxAge: int, visit: Attended, place: Place) returns (signal: Signal)
    requires IsShaped(stages) && SlugsAreDistinct(stages.order)
    requires TIMEOUT !in stages.order && ELSE !in stages.order
    requires IsPlace(|stages.order|, place) && !place.Done?
    requires IsOrdinary(LadderDoc(StagesOf(stages), goals, maxAge), visit)
    requires visit.run.node == SquareOf(StagesOf(stages), place)
    ensures CanHear(|stages.order|, place, signal)
    ensures var ending := EndingOf(LadderDoc(StagesOf(stages), goals, maxAge), visit);
            var next := Follow(|stages.order|, place, signal);
            && ClosedBy(ending) == Closes(place, signal) && IsPlace(|stages.order|, next)
            && (ending.Writes? && ending.move.Moved? ==>
                  !next.Done? && ending.move.node == SquareOf(StagesOf(stages), next))
  {
    var f := StagesOf(stages);
    var doc := LadderDoc(f, goals, maxAge);
    LaddersAreFunnels(stages);
    signal := WhatItBrings(f, doc, visit.run, place);
    LadderVisitsFollowTheFunnel(stages, goals, maxAge, visit.run, visit.world, place, signal);
    EveryVisitAdvances(|f|, place, signal);
  }

  /** From any place, what is left of a life closes no more squares, and takes no
      more visits, than the board has left ahead of that place. */
  lemma {:induction false} LivesAreShort(
    stages: Stages, goals: seq<Goal>, maxAge: int, visits: seq<Attended>, place: Place)
    requires IsShaped(stages) && SlugsAreDistinct(stages.order)
    requires TIMEOUT !in stages.order && ELSE !in stages.order
    requires IsPlace(|stages.order|, place) && !place.Done?
    requires IsLife(LadderDoc(StagesOf(stages), goals, maxAge), visits)
    requires visits != [] ==> visits[0].run.node == SquareOf(StagesOf(stages), place)
    ensures var n := |stages.order|;
            && Rank(n, place) + ClosedInAll(LadderDoc(StagesOf(stages), goals, maxAge), visits) <= 3 * n - 1
            && Rank(n, place) + |visits| <= 3 * n - 1
    decreases |visits|
  {
    var doc := LadderDoc(StagesOf(stages), goals, maxAge);
    if visits != [] {
      assert IsOrdinary(doc, visits[0]);
      var signal := OneVisitOfALife(stages, goals, maxAge, visits[0], place);
      EveryVisitAdvances(|stages.order|, place, signal);
      if |visits| > 1 {
        assert Follows(doc, visits[0], visits[0 + 1]);
        LifeGoesOn(doc, visits);
        LivesAreShort(stages, goals, maxAge, visits[1..], Follow(|stages.order|, place, signal));
      }
    }
  }

  lemma LifeGoesOn(doc: Definition, visits: seq<Attended>)
    requires IsLife(doc, visits) && |visits| > 1
    ensures IsLife(doc, visits[1..])
  {
    var rest := visits[1..];
    forall k | 0 <= k < |rest| ensures IsOrdinary(doc, rest[k]) {
      assert IsOrdinary(doc, visits[k + 1]);
    }
    forall k | 0 <= k < |rest| - 1 ensures Follows(doc, rest[k], rest[k + 1]) {
      assert Follows(doc, visits[k + 1], visits[k + 1 + 1]);
    }
  }

  /** Entered through the door of stage `i`, a run is visited, and closes squares,
      at most 3(n - i) - 1 times in its life. */
  lemma ALifeFromADoor(stages: Stages, goals: seq<Goal>, maxAge: int, visits: seq<Attended>, i: nat)
    requires IsShaped(stages) && SlugsAreDistinct(stages.order)
    requires TIMEOUT !in stages.order && ELSE !in stages.order && i < |stages.order|
    requires var doc := LadderDoc(StagesOf(stages), goals, maxAge);
             && IsLife(doc, visits)
             && (visits != [] ==> visits[0].run.node == doc.doors[i].start)
    ensures var bound := 3 * (|stages.order| - i) - 1;
            ClosedInAll(LadderDoc(StagesOf(stages), goals, maxAge), visits) <= bound && |visits| <= bound
  {
    LivesAreShort(stages, goals, maxAge, visits, Idle(i));
  }
}
