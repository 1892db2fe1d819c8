/** A plan's published documents and the runs pinned to them
    (outreach/plans.py, outreach/versions.py, outreach/enrol.py). */
module Versions {
  import opened Wrappers
  import opened Board
  import opened Steps
  import opened Walker
  import opened Plans
  import opened Lease

  // ---- The store ----

  /** The version rows (never changed, never deleted), the newest of them, and
      every run of the plan. */
  datatype Store = Store(versions: map<nat, Definition>, newest: nat, runs: map<string, Run>)

  predicate IsOpen(run: Run) {
    run.status != Exited
  }

  /** The squares the open runs stand on: of one version, or of the plan. */
  function Occupied(runs: map<string, Run>, on: Option<nat>): set<string> {
    set id | id in runs && IsOpen(runs[id]) && (on.Some? ==> runs[id].version == on.value) :: runs[id].node
  }

  /** Open runs, of one version or of the plan, now execute another. */
  function Repinned(runs: map<string, Run>, from: Option<nat>, to: nat): map<string, Run> {
    map id | id in runs ::
      if IsOpen(runs[id]) && (from.Some? ==> runs[id].version == from.value) then runs[id].(version := to) else runs[id]
  }

  function LiveEntry(store: Store): Option<seq<Door>> {
    if store.newest in store.versions then Some(store.versions[store.newest].doors) else None
  }

  function Published(store: Store, draft: Definition): Store {
    var version := store.newest + 1;
    Store(store.versions[version := draft], version,
          if draft.onPublish == Migrate then Repinned(store.runs, None, version) else store.runs)
  }

  function MovedForward(store: Store, from: nat, to: nat): Store {
    store.(runs := Repinned(store.runs, Some(from), to))
  }

  /** A run through a door of the document the consumer read as live; by the
      time it is inserted a newer one may have been published. */
  function Entered(store: Store, id: string, version: nat, door: Door, wake: int, context: Context, now: int): Store {
    store.(runs := store.runs[id := Run(id, version, Waiting, door.start, Some(Stamp(wake, 0)), now, context, 0,
                                        None, Some(now), None)])
  }

  /** A visit no re-pin interrupts: claimed, walked and written. */
  function Visited(store: Store, id: string, status: Option<PlanStatus>, world: World, at: int, gen: nat): Store
    requires id in store.runs
  {
    var run := store.runs[id];
    var move := WalkRun(run, status, DocumentOf(store, run), world);
    var written := MoveStatement(run, run.wake, move, at, gen);
    if written.None? then store else store.(runs := store.runs[id := written.value])
  }

  /** The document a run executes: its pin's, never the newest. */
  function DocumentOf(store: Store, run: Run): DocRead {
    if run.version in store.versions then Read(store.versions[run.version]) else Missing
  }

  // ---- The transactions ----

  /** The publish and migrate transactions and the reads they judge. */
  class PlanStore {
    var versions: map<nat, Definition>
    var newest: nat
    var runs: map<string, Run>

    constructor ()
      ensures Contents() == Store(map[], 0, map[])
    {
      versions, newest, runs := map[], 0, map[];
    }

    function Contents(): Store
      reads this
    {
      Store(versions, newest, runs)
    }

    /** `occupied_nodes`: the squares open runs stand on, in some order. */
    method OccupiedNodes(on: Option<nat>) returns (squares: seq<string>)
      ensures forall id :: id in squares <==> id in Occupied(runs, on)
    {
      squares := [];
      var left := runs.Keys;
      while left != {}
        invariant left <= runs.Keys
        invariant forall square :: square in squares <==>
                    exists id | id in runs.Keys - left ::
                      IsOpen(runs[id]) && (on.Some? ==> runs[id].version == on.value) && runs[id].node == square
        decreases left
      {
        var id :| id in left;
        left := left - {id};
        if IsOpen(runs[id]) && (on.Some? ==> runs[id].version == on.value) {
          squares := squares + [runs[id].node];
        }
      }
    }

    /** The publish atom: the document judged is the one that becomes a version
        and, under migrate, the one every open run is moved to. */
    method Publish(draft: Definition) returns (problems: seq<Problem>)
      modifies this
      ensures problems == [] <==>
                exists occupied: seq<string> ::
                  (forall id :: id in occupied <==> id in Occupied(old(runs), None))
                  && Publishable(draft, occupied, LiveEntry(old(Contents())))
      ensures Contents() == if problems == [] then Published(old(Contents()), draft) else old(Contents())
    {
      var occupied := OccupiedNodes(None);
      var live := LiveEntry(Contents());
      problems := ValidateDefinition(draft, occupied, live);
      ghost var before := Contents();
      if problems == [] {
        newest := newest + 1;
        versions := versions[newest := draft];
        if draft.onPublish == Migrate {
          runs := Repinned(runs, None, newest);
        }
      } else {
        forall others: seq<string> | forall id :: id in others <==> id in Occupied(before.runs, None)
          ensures !Publishable(draft, others, live)
        {
          SameSquaresSameVerdict(draft, occupied, others, live);
        }
      }
    }

    /** Every open run of one version now executes another, or nothing moves. */
    method MigrateForward(from: nat, to: nat) returns (moved: bool)
      modifies this`runs
      ensures moved <==>
                && from != to && from in versions && to in versions
                && exists occupied: seq<string> ::
                     (forall id :: id in occupied <==> id in Occupied(old(runs), Some(from)))
                     && KeepsOpenRuns(versions[to], occupied, Some(versions[from].doors))
      ensures Contents() == if moved then MovedForward(old(Contents()), from, to) else old(Contents())
    {
      if from == to || from !in versions || to !in versions {
        return false;
      }
      var occupied := OccupiedNodes(Some(from));
      var problems := ValidateMigration(versions[to], occupied, Some(versions[from].doors));
      if problems != [] {
        forall others: seq<string> | forall id :: id in others <==> id in Occupied(runs, Some(from))
          ensures !KeepsOpenRuns(versions[to], others, Some(versions[from].doors))
        {
          SameSquaresKept(versions[to], occupied, others, Some(versions[from].doors));
        }
        return false;
      }
      runs := Repinned(runs, Some(from), to);
      return true;
    }
  }

  /** The validator reads the occupied squares as a set. */
  lemma SameSquaresKept(doc: Definition, occupied: seq<string>, others: seq<string>, live: Option<seq<Door>>)
    requires forall id :: id in occupied <==> id in others
    ensures KeepsOpenRuns(doc, occupied, live) <==> KeepsOpenRuns(doc, others, live)
  {
    if occupied != [] {
      assert occupied[0] in others;
    }
    if others != [] {
      assert others[0] in occupied;
    }
  }

  lemma SameSquaresSameVerdict(
    draft: Definition, ours: seq<string>, theirs: seq<string>, live: Option<seq<Door>>)
    requires forall id :: id in ours <==> id in theirs
    ensures Publishable(draft, ours, live) <==> Publishable(draft, theirs, live)
  {
    if ours != [] {
      assert ours[0] in theirs;
    }
    if theirs != [] {
      assert theirs[0] in ours;
    }
  }

  // ---- No run is stranded ----

  /** Every open run stands on a square of the document it is pinned to, and
      every version was lawful when it was published. */
  ghost predicate NobodyStranded(store: Store) {
    && (forall version | version in store.versions :: version <= store.newest)
    && (forall version | version in store.versions :: BoardIsLawful(store.versions[version]))
    && (forall id | id in store.runs && IsOpen(store.runs[id]) :: StandsOnItsBoard(store.versions, store.runs[id]))
  }

  ghost predicate StandsOnItsBoard(versions: map<nat, Definition>, run: Run) {
    run.version in versions && NodeNamed(versions[run.version].nodes, run.node).Some?
  }

  datatype Event =
    | Publishes(draft: Definition, occupied: seq<string>)
    | MovesForward(from: nat, to: nat, occupied: seq<string>)
    | Enrols(id: string, version: nat, door: Door, wake: int, context: Context, now: int)
    | Visits(id: string, status: Option<PlanStatus>, world: World, at: int, gen: nat)
    | Touches(id: string, run: Run)

  function Step(store: Store, event: Event): Store {
    match event
    case Publishes(draft, _) => Published(store, draft)
    case MovesForward(from, to, _) => MovedForward(store, from, to)
    case Enrols(id, version, door, wake, context, now) => Entered(store, id, version, door, wake, context, now)
    case Visits(id, status, world, at, gen) =>
      if id in store.runs then Visited(store, id, status, world, at, gen) else store
    case Touches(id, run) => store.(runs := store.runs[id := run])
  }

  /** What the validators let through; and an event-side write, which leaves the
      token on its square under its version. */
  ghost predicate Allowed(store: Store, event: Event) {
    match event
    case Publishes(draft, occupied) =>
      (forall id :: id in occupied <==> id in Occupied(store.runs, None))
      && Publishable(draft, occupied, LiveEntry(store))
    case MovesForward(from, to, occupied) =>
      && from != to && from in store.versions && to in store.versions
      && (forall id :: id in occupied <==> id in Occupied(store.runs, Some(from)))
      && KeepsOpenRuns(store.versions[to], occupied, Some(store.versions[from].doors))
    case Enrols(id, version, door, _, _, _) =>
      id !in store.runs && version in store.versions && door in store.versions[version].doors
    case Visits(_, _, _, _, _) => true
    case Touches(id, run) =>
      id in store.runs && IsOpen(store.runs[id])
      && run.node == store.runs[id].node && run.version == store.runs[id].version
  }

  /** None of the parks a document can cause by losing something. */
  predicate LosesNothing(reason: Reason) {
    reason != SquareMissing && reason != ArrowIntoNowhere && reason != VersionMissing
  }

  ghost predicate EndsOnTheBoard(doc: Definition, ending: Ending) {
    && (ending.Defect? ==> LosesNothing(ending.reason))
    && (ending.Writes? ==> !ending.move.Parks?)
    && (ending.Writes? && ending.move.Moved? ==> NodeNamed(doc.nodes, ending.move.node).Some?)
  }

  lemma TurnsStayOnTheBoard(doc: Definition, run: Run, world: World, i: nat, s: Walking)
    requires ArrowsLeadSomewhere(doc) && NodeNamed(doc.nodes, s.at).Some?
    ensures var turning := TurnOnce(doc, run, world, i, s);
            && (turning.Onward? ==> NodeNamed(doc.nodes, turning.state.at).Some?)
            && (turning.Stops? ==> EndsOnTheBoard(doc, turning.ending))
  {
    var node := NodeNamed(doc.nodes, s.at).value;
    var performed := Perform(node, s.context, world, i);
    if !Held(node, s.context, world.now) && performed.Patched? {
      ArrowsLeadToSquares(doc, s.at, node, Merged(s.context, performed.patch));
    }
  }

  lemma {:induction false} WalksStayOnTheBoard(doc: Definition, run: Run, world: World, i: nat, s: Walking)
    requires i <= MAX_STEPS_PER_VISIT && ArrowsLeadSomewhere(doc) && NodeNamed(doc.nodes, s.at).Some?
    ensures EndsOnTheBoard(doc, WalkFrom(doc, run, world, i, s))
    decreases MAX_STEPS_PER_VISIT - i
  {
    if i < MAX_STEPS_PER_VISIT {
      TurnsStayOnTheBoard(doc, run, world, i, s);
      match TurnOnce(doc, run, world, i, s)
      case Stops(_) =>
      case Onward(after) => WalksStayOnTheBoard(doc, run, world, i + 1, after);
    }
  }

  lemma ArrowsLeadToSquares(doc: Definition, src: string, node: Node, context: Context)
    requires ArrowsLeadSomewhere(doc)
    ensures var next := PickNext(node, ArrowsFrom(doc.edges, src), context);
            next.Some? ==> NodeNamed(doc.nodes, next.value).Some?
  {
    var arrows := ArrowsFrom(doc.edges, src);
    var next := PickNext(node, arrows, context);
    if next.Some? {
      var arrow :| arrow in arrows && arrow.dst == next.value;
      ArrowsAreEdges(doc.edges, src, arrow);
      assert EndpointsAreReal(doc.nodes, Edge(src, arrow.dst, arrow.on));
    }
  }

  /** A move that parks for nothing lost, and goes nowhere off the board. */
  ghost predicate MoveIsOnTheBoard(doc: Definition, move: Move) {
    && (move.Parks? ==> LosesNothing(move.defect))
    && (move.Moved? ==> NodeNamed(doc.nodes, move.node).Some?)
  }

  lemma VisitsStayOnTheBoard(doc: Definition, run: Run, status: Option<PlanStatus>, world: World)
    requires ArrowsLeadSomewhere(doc) && NodeNamed(doc.nodes, run.node).Some?
    ensures MoveIsOnTheBoard(doc, WalkRun(run, status, Read(doc), world))
  {
    WalksStayOnTheBoard(doc, run, world, 0, Begin(run));
  }

  /** On a store with nobody stranded no visit parks for a missing version, a
      missing square or an arrow into nowhere, and none strands its run. */
  lemma VisitsStrandNobody(
    store: Store, id: string, status: Option<PlanStatus>, world: World, at: int, gen: nat)
    requires NobodyStranded(store) && id in store.runs && IsOpen(store.runs[id])
    ensures NothingLost(store, id, status, world)
    ensures NobodyStranded(Visited(store, id, status, world, at, gen))
  {
    var run := store.runs[id];
    assert StandsOnItsBoard(store.versions, run);
    var doc := store.versions[run.version];
    VisitsStayOnTheBoard(doc, run, status, world);
    MovesStrandNobody(store, id, WalkRun(run, status, Read(doc), world), at, gen);
  }

  /** A visit of this run would not park for something its document lost. */
  ghost predicate NothingLost(store: Store, id: string, status: Option<PlanStatus>, world: World) {
    id in store.runs && IsOpen(store.runs[id]) ==>
      var move := WalkRun(store.runs[id], status, DocumentOf(store, store.runs[id]), world);
      move.Parks? ==> LosesNothing(move.defect)
  }

  lemma MovesStrandNobody(store: Store, id: string, move: Move, at: int, gen: nat)
    requires NobodyStranded(store) && id in store.runs && IsOpen(store.runs[id])
    requires MoveIsOnTheBoard(store.versions[store.runs[id].version], move)
    ensures var written := MoveStatement(store.runs[id], store.runs[id].wake, move, at, gen);
            written.Some? ==> NobodyStranded(store.(runs := store.runs[id := written.value]))
  {
    assert StandsOnItsBoard(store.versions, store.runs[id]);
  }

  lemma PublishStrandsNobody(store: Store, draft: Definition, occupied: seq<string>)
    requires NobodyStranded(store) && Allowed(store, Publishes(draft, occupied))
    ensures NobodyStranded(Published(store, draft))
  {
    var after := Published(store, draft);
    forall id | id in after.runs && IsOpen(after.runs[id]) ensures StandsOnItsBoard(after.versions, after.runs[id]) {
      assert StandsOnItsBoard(store.versions, store.runs[id]);
      assert store.runs[id].node in Occupied(store.runs, None);
    }
  }

  lemma MigrationStrandsNobody(store: Store, from: nat, to: nat, occupied: seq<string>)
    requires NobodyStranded(store) && Allowed(store, MovesForward(from, to, occupied))
    ensures NobodyStranded(MovedForward(store, from, to))
  {
    var after := MovedForward(store, from, to);
    forall id | id in after.runs && IsOpen(after.runs[id]) ensures StandsOnItsBoard(after.versions, after.runs[id]) {
      MigratedRunsStand(store, from, to, occupied, id);
    }
  }

  lemma MigratedRunsStand(store: Store, from: nat, to: nat, occupied: seq<string>, id: string)
    requires NobodyStranded(store) && Allowed(store, MovesForward(from, to, occupied))
    requires id in store.runs && IsOpen(store.runs[id])
    ensures StandsOnItsBoard(store.versions, Repinned(store.runs, Some(from), to)[id])
  {
    assert StandsOnItsBoard(store.versions, store.runs[id]);
    if store.runs[id].version == from {
      assert store.runs[id].node in Occupied(store.runs, Some(from));
    }
  }

  lemma StepStrandsNobody(store: Store, event: Event)
    requires NobodyStranded(store) && Allowed(store, event)
    ensures NobodyStranded(Step(store, event))
  {
    match event
    case Publishes(draft, occupied) => PublishStrandsNobody(store, draft, occupied);
    case MovesForward(from, to, occupied) => MigrationStrandsNobody(store, from, to, occupied);
    case Enrols(id, version, door, wake, context, now) =>
      assert DoorIsLawful(store.versions[version], door);
    case Visits(id, status, world, at, gen) =>
      if id in store.runs && IsOpen(store.runs[id]) {
        VisitsStrandNobody(store, id, status, world, at, gen);
      }
    case Touches(id, run) =>
      assert StandsOnItsBoard(store.versions, store.runs[id]);
  }

  function AfterAll(store: Store, events: seq<Event>): Store
    decreases |events|
  {
    if events == [] then store else AfterAll(Step(store, events[0]), events[1..])
  }

  ghost predicate AllAllowed(store: Store, events: seq<Event>)
    decreases |events|
  {
    events == [] || (Allowed(store, events[0]) && AllAllowed(Step(store, events[0]), events[1..]))
  }

  /** Over every sequence of publishes, migrations, enrolments, visits and
      event-side writes, no open run is ever stranded; so none of the three
      parks a missing square or version causes ever fires. */
  lemma {:induction false} NoRunIsEverStranded(
    store: Store, events: seq<Event>, id: string, status: Option<PlanStatus>, world: World)
    requires NobodyStranded(store) && AllAllowed(store, events)
    ensures NobodyStranded(AfterAll(store, events))
    ensures NothingLost(AfterAll(store, events), id, status, world)
    decreases |events|
  {
    if events == [] {
      if id in store.runs && IsOpen(store.runs[id]) {
        VisitsStrandNobody(store, id, status, world, 0, 0);
      }
    } else {
      StepStrandsNobody(store, events[0]);
      NoRunIsEverStranded(Step(store, events[0]), events[1..], id, status, world);
    }
  }

  /** A re-pin leaves every lease alone, so a visit in flight across one still
      lands; it strands its run exactly when the new document lacks the square
      the old one sent it to. */
  lemma ARepinMidVisitStrandsIffTheSquareIsGone(store: Store, id: string, to: nat, move: Move, at: int, gen: nat)
    requires id in store.runs && store.runs[id].status == Waiting && store.runs[id].wake.Some?
    requires to in store.versions && move.Moved?
    ensures var repinned := Repinned(store.runs, None, to)[id];
            var landed := MoveStatement(repinned, store.runs[id].wake, move, at, gen);
            && landed.Some?
            && (StandsOnItsBoard(store.versions, landed.value) <==>
                  NodeNamed(store.versions[to].nodes, move.node).Some?)
  {
  }
}
