/** A run's trail while its documents change under it: a migrate publish re-filings
    open runs to another version (outreach/plans.py), and a closed square is
    stored under the version its row carries when it is written
    (db/queries/step.py). */
module Repins {
  import opened Wrappers
  import opened Board
  import opened Steps
  import opened Walker
  import opened Trail
  import opened Entry
  import opened Lease
  import opened RunHistory

  /** Under which version a stored square was walked, and under which it is
      recorded. */
  datatype Filing = Filing(walked: nat, recorded: nat)

  /** The protocol's state, with a filing for every stored square. */
  datatype Pinned = Pinned(s: State, filings: seq<Filing>)

  datatype Happening = Happens(event: Event) | Repins(to: nat)

  /** The version a visit, or the consumer, reads: its own row's, as it was read. */
  function VersionOf(s: State, event: Event): nat {
    match event
    case Land(w, _, _, _) => if w in s.visits then s.visits[w].run.version else s.row.version
    case GoalCancel(c, _, _, _) => if c in s.looks then s.looks[c].run.version else s.row.version
    case _ => s.row.version
  }

  function PlanAt(docs: seq<Definition>, plan: Plan, version: nat): Plan {
    if version < |docs| then plan.(doc := docs[version]) else plan
  }

  function Grown(filings: seq<Filing>, rows: nat, filing: Filing): seq<Filing> {
    filings + seq(if |filings| < rows then rows - |filings| else 0, i => filing)
  }

  /** A re-pin moves an open run, whatever its lease. */
  function Happened(docs: seq<Definition>, plan: Plan, p: Pinned, at: int, what: Happening): Pinned {
    match what
    case Repins(to) =>
      Pinned(p.s.(row := if p.s.row.status == Exited then p.s.row else p.s.row.(version := to), time := at), p.filings)
    case Happens(event) =>
      var version := VersionOf(p.s, event);
      var after := Next(PlanAt(docs, plan, version), p.s, at, event);
      Pinned(after, Grown(p.filings, |after.trail|, Filing(version, p.s.row.version)))
  }

  ghost predicate CanHappen(docs: seq<Definition>, plan: Plan, p: Pinned, at: int, what: Happening) {
    match what
    case Repins(to) => p.s.time < at && to < |docs|
    case Happens(event) =>
      VersionOf(p.s, event) < |docs| && Enabled(PlanAt(docs, plan, VersionOf(p.s, event)), p.s, at, event)
  }

  // ---- Every version's arrows ----

  function EveryEdge(docs: seq<Definition>): seq<Edge> {
    if docs == [] then [] else docs[0].edges + EveryEdge(docs[1..])
  }

  lemma {:induction false} VersionsEdgesAreAmongThem(docs: seq<Definition>, version: nat, edge: Edge)
    requires version < |docs| && edge in docs[version].edges
    ensures edge in EveryEdge(docs)
  {
    if version > 0 {
      VersionsEdgesAreAmongThem(docs[1..], version - 1, edge);
    }
  }

  /** The plan whose arrows are every version's. */
  function Everything(docs: seq<Definition>, plan: Plan): Plan {
    plan.(doc := plan.doc.(edges := EveryEdge(docs)))
  }

  lemma TakenAmongEveryEdge(docs: seq<Definition>, version: nat, row: StepRecord)
    requires version < |docs| && TakesAnArrow(docs[version].edges, row)
    ensures TakesAnArrow(EveryEdge(docs), row)
  {
    if row.next.Some? {
      var arrow :| arrow in ArrowsFrom(docs[version].edges, row.node) && arrow.dst == row.next.value;
      ArrowsAreEdges(docs[version].edges, row.node, arrow);
      VersionsEdgesAreAmongThem(docs, version, Edge(row.node, arrow.dst, arrow.on));
      ArrowsAreEdges(EveryEdge(docs), row.node, arrow);
    }
  }

  lemma WalkedAmongEveryEdge(docs: seq<Definition>, version: nat, run: Run, after: int, rows: seq<StepRecord>)
    requires version < |docs| && Walked(docs[version].edges, run, after, rows)
    ensures Walked(EveryEdge(docs), run, after, rows)
  {
    forall k | 0 <= k < |rows| ensures StepFits(EveryEdge(docs), run, after, rows[k], k == 0) {
      assert StepFits(docs[version].edges, run, after, rows[k], k == 0);
      TakenAmongEveryEdge(docs, version, rows[k]);
    }
  }

  lemma MovesAmongEveryEdge(docs: seq<Definition>, version: nat, run: Run, now: int, until: int, move: Move)
    requires version < |docs| && MoveFits(docs[version].edges, run, now, until, move)
    ensures MoveFits(EveryEdge(docs), run, now, until, move)
  {
    if move.Moved? {
      WalkedAmongEveryEdge(docs, version, run, now, move.steps);
    }
    if move.Exits? {
      WalkedAmongEveryEdge(docs, version, run, now, move.closed);
    }
  }

  // ---- The invariant ----

  /** The square was left along an arrow of the version it was walked under. */
  ghost predicate FilingFits(docs: seq<Definition>, filing: Filing, row: StepRecord) {
    row.next.Some? ==> filing.walked < |docs| && TakesAnArrow(docs[filing.walked].edges, row)
  }

  ghost predicate FilingsFit(docs: seq<Definition>, p: Pinned) {
    |p.filings| == |p.s.trail| && forall k | 0 <= k < |p.filings| :: FilingFits(docs, p.filings[k], p.s.trail[k])
  }

  ghost predicate PinnedInv(docs: seq<Definition>, plan: Plan, p: Pinned) {
    TrailInv(Everything(docs, plan), p.s) && FilingsFit(docs, p)
  }

  /** The squares an event stores. */
  function Stored(plan: Plan, s: State, at: int, event: Event): seq<StepRecord> {
    match event
    case Land(w, status, read, world) =>
      if w in s.visits then
        var move := WalkRun(s.visits[w].run, status, read, world);
        if MoveStatement(s.row, s.visits[w].run.wake, move, at, s.nextGen).Some? then ClosedBy(move) else []
      else []
    case GoalCancel(c, letter, reason, isItsGoal) =>
      if c in s.looks && CancelStatement(s.row, reason, isItsGoal).Some? then
        CancelFlush(s.row, Closing(s.looks[c].run, Some(plan.doc), reason, at, Some(letter.id)))
      else []
    case _ => []
  }

  lemma EventsStore(plan: Plan, s: State, at: int, event: Event)
    ensures Next(plan, s, at, event).trail == s.trail + Stored(plan, s, at, event)
    ensures Next(plan, s, at, event).row.version == s.row.version
  {
    assert s.trail + [] == s.trail;
  }

  /** Only a visit's squares lead anywhere, and they lead along its document's
      arrows. */
  lemma StoredSquaresFit(docs: seq<Definition>, plan: Plan, s: State, at: int, event: Event, k: nat)
    requires TrailInv(Everything(docs, plan), s) && VersionOf(s, event) < |docs|
    requires Enabled(PlanAt(docs, plan, VersionOf(s, event)), s, at, event)
    requires k < |Stored(PlanAt(docs, plan, VersionOf(s, event)), s, at, event)|
    ensures var row := Stored(PlanAt(docs, plan, VersionOf(s, event)), s, at, event)[k];
            row.next.Some? ==> event.Land? && TakesAnArrow(docs[VersionOf(s, event)].edges, row)
  {
    if event.Land? {
      var here := PlanAt(docs, plan, VersionOf(s, event));
      assert VisitFits(s, s.visits[event.walker]);
      VisitsFit(here, s, at, event.walker, event.status, event.read, event.world);
      MovesTakeArrows(
        here.doc.edges, s.visits[event.walker].run, event.world.now, at,
        WalkRun(s.visits[event.walker].run, event.status, event.read, event.world), k);
    }
  }

  lemma MovesTakeArrows(edges: seq<Edge>, run: Run, now: int, until: int, move: Move, k: nat)
    requires MoveFits(edges, run, now, until, move) && k < |ClosedBy(move)|
    ensures TakesAnArrow(edges, ClosedBy(move)[k])
  {
    assert StepFits(edges, run, now, ClosedBy(move)[k], k == 0);
  }

  lemma HappeningKeepsTrail(docs: seq<Definition>, plan: Plan, s: State, at: int, event: Event)
    requires TrailInv(Everything(docs, plan), s) && VersionOf(s, event) < |docs|
    requires Enabled(PlanAt(docs, plan, VersionOf(s, event)), s, at, event)
    ensures TrailInv(Everything(docs, plan), Next(PlanAt(docs, plan, VersionOf(s, event)), s, at, event))
  {
    var all, here := Everything(docs, plan), PlanAt(docs, plan, VersionOf(s, event));
    if event.GoalCancel? {
      GoalCancelKeepsTrail(all, here.doc, s, at, event.reader, event.letter, event.reason, event.isItsGoal);
    } else {
      if event.Land? {
        var seen := s.visits[event.walker];
        assert VisitFits(s, seen);
        VisitsFit(here, s, at, event.walker, event.status, event.read, event.world);
        MovesAmongEveryEdge(docs, VersionOf(s, event), seen.run, event.world.now, at,
                            WalkRun(seen.run, event.status, event.read, event.world));
      }
      StepKeepsTrail(all, s, at, event);
      DocumentsMatterToGoals(all, here, s, at, event);
    }
  }

  lemma DocumentsMatterToGoals(plan: Plan, other: Plan, s: State, at: int, event: Event)
    requires !event.GoalCancel? && plan.maxChars == other.maxChars
    ensures Next(plan, s, at, event) == Next(other, s, at, event)
  {
  }

  lemma HappeningKeepsInv(docs: seq<Definition>, plan: Plan, p: Pinned, at: int, what: Happening)
    requires PinnedInv(docs, plan, p) && CanHappen(docs, plan, p, at, what)
    ensures PinnedInv(docs, plan, Happened(docs, plan, p, at, what))
  {
    match what
    case Repins(to) => RepinningKeepsTrail(Everything(docs, plan), p.s, at, to);
    case Happens(event) =>
      HappeningKeepsTrail(docs, plan, p.s, at, event);
      HappeningKeepsFilings(docs, plan, p, at, event);
  }

  lemma RepinningKeepsTrail(plan: Plan, s: State, at: int, to: nat)
    requires TrailInv(plan, s) && s.time < at
    ensures TrailInv(plan, s.(row := s.row.(version := to), time := at))
    ensures TrailInv(plan, s.(time := at))
  {
  }

  lemma HappeningKeepsFilings(docs: seq<Definition>, plan: Plan, p: Pinned, at: int, event: Event)
    requires PinnedInv(docs, plan, p) && CanHappen(docs, plan, p, at, Happens(event))
    ensures FilingsFit(docs, Happened(docs, plan, p, at, Happens(event)))
  {
    var version := VersionOf(p.s, event);
    var here := PlanAt(docs, plan, version);
    var after := Happened(docs, plan, p, at, Happens(event));
    EventsStore(here, p.s, at, event);
    forall k | 0 <= k < |after.filings| ensures FilingFits(docs, after.filings[k], after.s.trail[k]) {
      if k < |p.filings| {
        assert FilingFits(docs, p.filings[k], p.s.trail[k]);
      } else {
        StoredSquaresFit(docs, plan, p.s, at, event, k - |p.filings|);
      }
    }
  }

  // ---- Over any history ----

  datatype TimedHappening = TimedHappening(at: int, what: Happening)

  function AfterAll(docs: seq<Definition>, plan: Plan, p: Pinned, history: seq<TimedHappening>): Pinned
    decreases |history|
  {
    if history == [] then p
    else AfterAll(docs, plan, Happened(docs, plan, p, history[0].at, history[0].what), history[1..])
  }

  ghost predicate AllCanHappen(docs: seq<Definition>, plan: Plan, p: Pinned, history: seq<TimedHappening>)
    decreases |history|
  {
    history == [] ||
    (&& CanHappen(docs, plan, p, history[0].at, history[0].what)
     && AllCanHappen(docs, plan, Happened(docs, plan, p, history[0].at, history[0].what), history[1..]))
  }

  /** Whatever is re-pinned when, the trail stays one gapless path from the door to
      where the run stands, and each of its arrows is one of the document its
      visit walked. */
  lemma {:induction false} TrailsSurviveRepins(
    docs: seq<Definition>, plan: Plan, p: Pinned, history: seq<TimedHappening>)
    requires PinnedInv(docs, plan, p) && AllCanHappen(docs, plan, p, history)
    ensures PinnedInv(docs, plan, AfterAll(docs, plan, p, history))
    decreases |history|
  {
    if history != [] {
      HappeningKeepsInv(docs, plan, p, history[0].at, history[0].what);
      TrailsSurviveRepins(docs, plan, Happened(docs, plan, p, history[0].at, history[0].what), history[1..]);
    }
  }

  // ---- The version on record ----

  /** The square was left along an arrow of the version it is recorded under. */
  ghost predicate IsWellFiled(docs: seq<Definition>, filing: Filing, row: StepRecord) {
    row.next.Some? ==> filing.recorded < |docs| && TakesAnArrow(docs[filing.recorded].edges, row)
  }

  ghost predicate AllWellFiled(docs: seq<Definition>, p: Pinned) {
    |p.filings| == |p.s.trail| && forall k | 0 <= k < |p.filings| :: IsWellFiled(docs, p.filings[k], p.s.trail[k])
  }

  /** A visit that may still land was claimed under the version of the row. */
  ghost predicate LeasesAreUpToDate(s: State) {
    forall w | w in s.visits && s.visits[w].run.wake == s.row.wake :: s.visits[w].run.version == s.row.version
  }

  /** No walker holds the run as it is re-pinned. */
  predicate NobodyHolds(s: State) {
    forall w | w in s.visits :: s.visits[w].run.wake != s.row.wake
  }

  ghost predicate RepinsWaitForVisits(docs: seq<Definition>, plan: Plan, p: Pinned, history: seq<TimedHappening>)
    decreases |history|
  {
    history == [] ||
    (&& (history[0].what.Repins? ==> NobodyHolds(p.s))
     && RepinsWaitForVisits(docs, plan, Happened(docs, plan, p, history[0].at, history[0].what), history[1..]))
  }

  lemma EventsKeepLeasesUpToDate(plan: Plan, s: State, at: int, event: Event)
    requires LeasesAreUpToDate(s) && forall w | w in s.visits :: VisitFits(s, s.visits[w])
    ensures LeasesAreUpToDate(Next(plan, s, at, event))
  {
  }

  lemma HappeningFilesWell(docs: seq<Definition>, plan: Plan, p: Pinned, at: int, event: Event)
    requires PinnedInv(docs, plan, p) && CanHappen(docs, plan, p, at, Happens(event))
    requires LeasesAreUpToDate(p.s) && AllWellFiled(docs, p)
    ensures AllWellFiled(docs, Happened(docs, plan, p, at, Happens(event)))
  {
    var version := VersionOf(p.s, event);
    var here := PlanAt(docs, plan, version);
    var after := Happened(docs, plan, p, at, Happens(event));
    EventsStore(here, p.s, at, event);
    forall k | 0 <= k < |after.filings| ensures IsWellFiled(docs, after.filings[k], after.s.trail[k]) {
      if k < |p.filings| {
        assert IsWellFiled(docs, p.filings[k], p.s.trail[k]);
      } else {
        StoredSquaresFit(docs, plan, p.s, at, event, k - |p.filings|);
      }
    }
  }

  /** While re-filings wait for the visits in flight, every arrow of the trail is one
      of the version recorded beside it. */
  lemma {:induction false} RecordedVersionsAreTrue(
    docs: seq<Definition>, plan: Plan, p: Pinned, history: seq<TimedHappening>)
    requires PinnedInv(docs, plan, p) && AllCanHappen(docs, plan, p, history)
    requires RepinsWaitForVisits(docs, plan, p, history) && LeasesAreUpToDate(p.s) && AllWellFiled(docs, p)
    ensures AllWellFiled(docs, AfterAll(docs, plan, p, history))
    decreases |history|
  {
    if history != [] {
      var at, what := history[0].at, history[0].what;
      HappeningKeepsInv(docs, plan, p, at, what);
      if what.Happens? {
        HappeningFilesWell(docs, plan, p, at, what.event);
        EventsKeepLeasesUpToDate(PlanAt(docs, plan, VersionOf(p.s, what.event)), p.s, at, what.event);
      }
      RecordedVersionsAreTrue(docs, plan, Happened(docs, plan, p, at, what), history[1..]);
    }
  }

  /** A re-pin under a visit in flight files its squares under the new version:
      so the record is true exactly when the new document has their arrows too. */
  lemma ARepinMidVisitMisfilesIff(
    docs: seq<Definition>, plan: Plan, p: Pinned, at: int, to: nat, later: int, landing: Event)
    requires PinnedInv(docs, plan, p) && AllWellFiled(docs, p) && to < |docs| && p.s.row.status == Waiting
    requires landing.Land? && landing.walker in p.s.visits
    ensures var repinned := Happened(docs, plan, p, at, Repins(to));
            var after := Happened(docs, plan, repinned, later, Happens(landing));
            var stored := Stored(PlanAt(docs, plan, VersionOf(p.s, landing)), repinned.s, later, landing);
            && after.s.trail == p.s.trail + stored
            && (AllWellFiled(docs, after) <==>
                  forall row | row in stored && row.next.Some? :: TakesAnArrow(docs[to].edges, row))
  {
    var repinned := Happened(docs, plan, p, at, Repins(to));
    var after := Happened(docs, plan, repinned, later, Happens(landing));
    var here := PlanAt(docs, plan, VersionOf(p.s, landing));
    var stored := Stored(here, repinned.s, later, landing);
    EventsStore(here, repinned.s, later, landing);
    NewRowsAreFiledUnder(docs, p, after, stored, to);
  }

  lemma NewRowsAreFiledUnder(docs: seq<Definition>, p: Pinned, after: Pinned, stored: seq<StepRecord>, to: nat)
    requires AllWellFiled(docs, p) && to < |docs|
    requires after.s.trail == p.s.trail + stored && |after.filings| == |after.s.trail|
    requires after.filings[..|p.filings|] == p.filings
    requires forall k | |p.filings| <= k < |after.filings| :: after.filings[k].recorded == to
    ensures AllWellFiled(docs, after) <==>
            forall row | row in stored && row.next.Some? :: TakesAnArrow(docs[to].edges, row)
  {
    if AllWellFiled(docs, after) {
      forall row | row in stored && row.next.Some? ensures TakesAnArrow(docs[to].edges, row) {
        var k :| 0 <= k < |stored| && stored[k] == row;
        assert IsWellFiled(docs, after.filings[|p.filings| + k], after.s.trail[|p.filings| + k]);
      }
    }
    if forall row | row in stored && row.next.Some? :: TakesAnArrow(docs[to].edges, row) {
      forall k | 0 <= k < |after.filings| ensures IsWellFiled(docs, after.filings[k], after.s.trail[k]) {
        if k < |p.filings| {
          assert after.filings[k] == after.filings[..|p.filings|][k];
          assert IsWellFiled(docs, p.filings[k], p.s.trail[k]);
        } else {
          assert after.s.trail[k] == stored[k - |p.filings|] && stored[k - |p.filings|] in stored;
        }
      }
    }
  }

  /** A run as it is enrolled: nothing to file yet. */
  lemma EnrolmentIsFiled(
    docs: seq<Definition>, plan: Plan, id: string, version: nat, letter: Letter, happened: string, now: int)
    ensures var p := Pinned(Enrolled(plan, id, version, letter, happened, now), []);
            PinnedInv(docs, plan, p) && LeasesAreUpToDate(p.s) && AllWellFiled(docs, p)
  {
  }

  /** So for every run, from its door on: its trail is whole and its arrows are
      its documents', and, while re-pins wait for visits, those on record. */
  lemma EveryRunIsFiled(
    docs: seq<Definition>, plan: Plan, id: string, version: nat, letter: Letter, happened: string, now: int,
    history: seq<TimedHappening>)
    requires AllCanHappen(docs, plan, Pinned(Enrolled(plan, id, version, letter, happened, now), []), history)
    ensures var born := Pinned(Enrolled(plan, id, version, letter, happened, now), []);
            var after := AfterAll(docs, plan, born, history);
            && PinnedInv(docs, plan, after)
            && (RepinsWaitForVisits(docs, plan, born, history) ==> AllWellFiled(docs, after))
  {
    var born := Pinned(Enrolled(plan, id, version, letter, happened, now), []);
    EnrolmentIsFiled(docs, plan, id, version, letter, happened, now);
    TrailsSurviveRepins(docs, plan, born, history);
    if RepinsWaitForVisits(docs, plan, born, history) {
      RecordedVersionsAreTrue(docs, plan, born, history);
    }
  }

  // ---- Answers ----

  /** A re-pin leaves the run's context alone. So the answer it holds is still one
      its square will spend exactly if the square branches in the new document
      too; else it is carried on from there. */
  lemma ARepinKeepsAnAnswerSpentIff(docs: seq<Definition>, plan: Plan, p: Pinned, at: int, to: nat, was: Definition)
    requires AnswersInv(was.nodes, p.s) && p.s.row.status != Exited && to < |docs|
    ensures var row := Happened(docs, plan, p, at, Repins(to)).s.row;
            var square := NodeNamed(docs[to].nodes, row.node);
            OnlyOwnAnswer(docs[to].nodes, row.node, row.context) <==>
            NoAnswers(row.context) || (square.Some? && Branches(square.value))
  {
    var row := Happened(docs, plan, p, at, Repins(to)).s.row;
    if OnlyOwnAnswer(docs[to].nodes, row.node, row.context) && !NoAnswers(row.context) {
      var key :| HoldsAnswer(row.context, key);
      assert NodeNamed(docs[to].nodes, row.node).Some?;
    }
  }
}
