/** The publish validator (outreach/plans.py): the laws of the board, the
    calling window's law, and the stranding laws of a migration. */
module Plans {
  import opened Wrappers
  import opened Board

  // ---- Squares that act at once ----

  /** A square of the document that does not wait. */
  predicate ActsAt(doc: Definition, id: string) {
    NodeNamed(doc.nodes, id).Some? && !IsWait(NodeNamed(doc.nodes, id).value)
  }

  predicate IsCall(doc: Definition, id: string) {
    NodeNamed(doc.nodes, id).Some? && NodeNamed(doc.nodes, id).value.kind == Call
  }

  predicate HasArrow(edges: seq<Edge>, src: string, dst: string) {
    exists arrow | arrow in ArrowsFrom(edges, src) :: arrow.dst == dst
  }

  /** Squares one visit could walk in a row, every one of them acting. */
  ghost predicate ActingPath(doc: Definition, path: seq<string>) {
    && path != []
    && (forall k | 0 <= k < |path| :: ActsAt(doc, path[k]))
    && (forall k | 0 <= k < |path| - 1 :: HasArrow(doc.edges, path[k], path[k + 1]))
  }

  ghost predicate PathBetween(doc: Definition, path: seq<string>, start: string, end: string) {
    ActingPath(doc, path) && path[0] == start && path[|path| - 1] == end
  }

  ghost predicate Reaches(doc: Definition, start: string, end: string) {
    exists path :: PathBetween(doc, path, start, end)
  }

  /** Some call can be walked onto from `start` without a wait between. */
  ghost predicate ReachesACall(doc: Definition, start: string) {
    exists call :: IsCall(doc, call) && Reaches(doc, start, call)
  }

  lemma ReachesOneFurther(doc: Definition, start: string, mid: string, next: string)
    requires Reaches(doc, start, mid) && HasArrow(doc.edges, mid, next) && ActsAt(doc, next)
    ensures Reaches(doc, start, next)
  {
    var path :| PathBetween(doc, path, start, mid);
    var longer := path + [next];
    forall k | 0 <= k < |longer| - 1 ensures HasArrow(doc.edges, longer[k], longer[k + 1]) {
      if k < |path| - 1 {
        assert longer[k] == path[k] && longer[k + 1] == path[k + 1];
      }
    }
    assert PathBetween(doc, longer, start, next);
  }

  /** A set of squares no acting arrow leaves holds every square reachable
      from one of its own. */
  lemma ClosedSetsHoldWhatTheyReach(doc: Definition, closed: set<string>, path: seq<string>, k: nat)
    requires ActingPath(doc, path) && path[0] in closed && k < |path|
    requires forall id, next | id in closed && HasArrow(doc.edges, id, next) && ActsAt(doc, next) :: next in closed
    ensures path[k] in closed
  {
    if k > 0 {
      ClosedSetsHoldWhatTheyReach(doc, closed, path, k - 1);
      assert HasArrow(doc.edges, path[k - 1], path[k - 1 + 1]);
    }
  }

  function Ids(nodes: seq<Node>): set<string> {
    set node | node in nodes :: node.id
  }

  /** What the search has queued leads on from what it has seen. */
  ghost predicate QueueLeadsOn(doc: Definition, start: string, seen: set<string>, queue: seq<string>) {
    forall id | id in queue :: id == start || LedTo(doc, seen, id)
  }

  ghost predicate LedTo(doc: Definition, seen: set<string>, id: string) {
    exists from | from in seen :: HasArrow(doc.edges, from, id)
  }

  lemma QueueGrows(
    doc: Definition, start: string, seen: set<string>, queue: seq<string>, id: string, targets: seq<string>)
    requires QueueLeadsOn(doc, start, seen, queue)
    requires forall next | next in targets :: HasArrow(doc.edges, id, next)
    ensures QueueLeadsOn(doc, start, seen + {id}, queue + targets)
  {
    forall next | next in queue + targets ensures next == start || LedTo(doc, seen + {id}, next) {
      if next in targets {
        assert id in seen + {id};
      } else if next != start {
        assert LedTo(doc, seen, next);
        var from :| from in seen && HasArrow(doc.edges, from, next);
        assert from in seen + {id};
      }
    }
  }

  /** What the search has seen acts, is no call, was reached, and leads only to
      what is seen or queued. */
  ghost predicate SeenIsSound(doc: Definition, start: string, seen: set<string>, queue: seq<string>) {
    forall id | id in seen ::
      && ActsAt(doc, id) && !IsCall(doc, id) && Reaches(doc, start, id)
      && forall next | HasArrow(doc.edges, id, next) && ActsAt(doc, next) :: next in seen || next in queue
  }

  lemma SeenGrows(
    doc: Definition, start: string, seen: set<string>, rest: seq<string>, id: string, targets: seq<string>)
    requires SeenIsSound(doc, start, seen, [id] + rest)
    requires ActsAt(doc, id) && !IsCall(doc, id) && Reaches(doc, start, id)
    requires forall next | HasArrow(doc.edges, id, next) :: next in targets
    ensures SeenIsSound(doc, start, seen + {id}, rest + targets)
  {
  }

  /** A queued square already seen, or waiting, can be dropped. */
  lemma SeenSkips(doc: Definition, start: string, seen: set<string>, rest: seq<string>, id: string)
    requires SeenIsSound(doc, start, seen, [id] + rest) && (!ActsAt(doc, id) || id in seen)
    ensures SeenIsSound(doc, start, seen, rest)
  {
  }

  lemma QueuedIsReached(doc: Definition, start: string, seen: set<string>, queue: seq<string>, id: string)
    requires SeenIsSound(doc, start, seen, queue) && QueueLeadsOn(doc, start, seen, queue)
    requires id in queue && ActsAt(doc, id)
    ensures Reaches(doc, start, id)
  {
    if id == start {
      assert PathBetween(doc, [start], start, start);
    } else {
      assert LedTo(doc, seen, id);
      var from :| from in seen && HasArrow(doc.edges, from, id);
      ReachesOneFurther(doc, start, from, id);
    }
  }

  lemma NothingLeftToReach(doc: Definition, start: string, seen: set<string>)
    requires SeenIsSound(doc, start, seen, []) && (ActsAt(doc, start) ==> start in seen)
    ensures !ReachesACall(doc, start)
  {
    if ReachesACall(doc, start) {
      var found :| IsCall(doc, found) && Reaches(doc, start, found);
      var path :| PathBetween(doc, path, start, found);
      ClosedSetsHoldWhatTheyReach(doc, seen, path, |path| - 1);
      assert false;
    }
  }

  /** The squares some arrows point at. */
  function Targets(arrows: seq<Arrow>): (targets: seq<string>)
    ensures forall id :: id in targets <==> exists arrow | arrow in arrows :: arrow.dst == id
  {
    if arrows == [] then [] else [arrows[0].dst] + Targets(arrows[1..])
  }

  /** The breadth-first search: the first call a run reaches from `start` in one
      visit. It ends on every graph, cycles included, finds a call whenever one
      can be reached, and answers None only when none can. */
  method CallReachedWithoutWaiting(doc: Definition, start: string) returns (call: Option<string>)
    ensures call.Some? ==> IsCall(doc, call.value) && Reaches(doc, start, call.value)
    ensures call.Some? <==> ReachesACall(doc, start)
  {
    var seen: set<string>, queue := {}, [start];
    while queue != []
      invariant QueueLeadsOn(doc, start, seen, queue)
      invariant SeenIsSound(doc, start, seen, queue)
      invariant ActsAt(doc, start) ==> start in seen || start in queue
      invariant seen <= Ids(doc.nodes)
      decreases Ids(doc.nodes) - seen, |queue|
    {
      var id, rest := queue[0], queue[1..];
      assert queue == [id] + rest;
      if !ActsAt(doc, id) || id in seen {
        SeenSkips(doc, start, seen, rest, id);
        queue := rest;
        continue;
      }
      QueuedIsReached(doc, start, seen, queue, id);
      if IsCall(doc, id) {
        return Some(id);
      }
      var targets := Targets(ArrowsFrom(doc.edges, id));
      QueueGrows(doc, start, seen, rest, id, targets);
      SeenGrows(doc, start, seen, rest, id, targets);
      assert id in Ids(doc.nodes);
      seen, queue := seen + {id}, rest + targets;
    }
    NothingLeftToReach(doc, start, seen);
    return None;
  }

  // ---- The laws ----

  /** Why a document may not be published. */
  datatype Problem =
    | DuplicateNode(id: string)
    | WindowOnAnAction(id: string)
    | WaitForNothing(id: string)
    | NoDoor
    | TwoDoors(topic: string)
    | StartMissing(topic: string)
    | NothingToSlide(topic: string)
    | NothingToRearm(topic: string)
    | UnknownReason(tier: nat)
    | SameReason(tier: nat)
    | ArrowFromNowhere(src: string)
    | ArrowToNowhere(dst: string)
    | BadArrows(src: string)
    | LetterReachesACall(id: string, on: Option<string>, call: string)
    | EntryChanged
    | Strands(id: string)

  const GOAL_EXIT_REASONS: set<string> := {"goal_met", "converted_elsewhere", "withdrawn"}

  /** A window belongs to a wait; a wait waits for something, and not for a
      negative time. */
  predicate NodeIsLawful(node: Node) {
    && (node.window.Some? ==> IsWait(node))
    && (IsWait(node) ==>
          (node.lasts.Some? ==> node.lasts.value > 0)
          && (node.lasts.Some? || node.window.Some? || node.topics != []))
  }

  predicate NodesAreLawful(nodes: seq<Node>) {
    DistinctIds(nodes) && forall node | node in nodes :: NodeIsLawful(node)
  }

  /** A door starts on a real square; a debounce slides a wait's alarm. */
  predicate DoorIsLawful(doc: Definition, door: Door) {
    && NodeNamed(doc.nodes, door.start).Some?
    && (door.debounce > 0 ==> IsWait(NodeNamed(doc.nodes, door.start).value))
    && (door.restartOnRepeat ==> door.debounce > 0)
  }

  predicate DoorsAreLawful(doc: Definition, doors: seq<Door>) {
    && (forall i, j | 0 <= i < j < |doors| :: doors[i].topic != doors[j].topic)
    && forall door | door in doors :: DoorIsLawful(doc, door)
  }

  predicate GoalsAreLawful(goals: seq<Goal>) {
    && (forall goal | goal in goals :: goal.exitReason in GOAL_EXIT_REASONS)
    && forall i, j | 0 <= i < j < |goals| :: goals[i].exitReason != goals[j].exitReason
  }

  /** A branching square labels every arrow, each differently; any other has at
      most one arrow, unlabelled. */
  predicate ArrowsFit(node: Node, arrows: seq<Arrow>) {
    if Branches(node) then
      && (forall arrow | arrow in arrows :: arrow.on.Some?)
      && forall i, j | 0 <= i < j < |arrows| :: arrows[i].on != arrows[j].on
    else
      |arrows| <= 1 && forall arrow | arrow in arrows :: arrow.on.None?
  }

  /** The word an answer takes an arrow by: its own text, the timer's when nobody
      answered, none when it is not a text. */
  function WordOf(context: Context, id: string): Option<string> {
    match Get(context, ReplyKey(id))
    case None => Some(TIMEOUT)
    case Some(Text(text)) => Some(text)
    case Some(_) => None
  }

  predicate Leads(arrows: seq<Arrow>, word: string, dst: string) {
    exists arrow :: arrow in arrows && arrow.on == Some(word) && arrow.dst == dst
  }

  predicate IsLabelled(arrows: seq<Arrow>, word: string) {
    exists arrow :: arrow in arrows && arrow.on == Some(word)
  }

  /** On lawful arrows the choice has nothing to do with their order: a branching
      square is left by the arrow its answer names, else by its `else` arrow; any
      other by its only arrow. */
  lemma LawfulArrowsAreTakenByLabel(node: Node, arrows: seq<Arrow>, context: Context, dst: string)
    requires ArrowsFit(node, arrows)
    ensures Branches(node) ==>
              var word := WordOf(context, node.id);
              (PickNext(node, arrows, context) == Some(dst) <==>
                 || (word.Some? && Leads(arrows, word.value, dst))
                 || ((word.None? || !IsLabelled(arrows, word.value)) && Leads(arrows, ELSE, dst)))
    ensures !Branches(node) ==>
              (PickNext(node, arrows, context) == Some(dst) <==> exists arrow :: arrow in arrows && arrow.dst == dst)
  {
    if Branches(node) {
      var word := WordOf(context, node.id);
      if word.Some? {
        LabelsLeadOneWay(arrows, word.value, dst);
      }
      LabelsLeadOneWay(arrows, ELSE, dst);
    }
  }

  lemma LabelsLeadOneWay(arrows: seq<Arrow>, word: string, dst: string)
    requires forall k, l | 0 <= k < l < |arrows| :: arrows[k].on != arrows[l].on
    ensures FirstLabelled(arrows, word) == Some(dst) <==> Leads(arrows, word, dst)
    ensures FirstLabelled(arrows, word).None? <==> !IsLabelled(arrows, word)
  {
    var first := FirstLabelled(arrows, word);
    if first.Some? {
      assert Arrow(first.value, Some(word)) in arrows;
    }
  }

  predicate LabelsFit(edges: seq<Edge>, node: Node) {
    ArrowsFit(node, ArrowsFrom(edges, node.id))
  }

  predicate EndpointsAreReal(nodes: seq<Node>, edge: Edge) {
    NodeNamed(nodes, edge.src).Some? && NodeNamed(nodes, edge.dst).Some?
  }

  predicate ArrowsLeadSomewhere(doc: Definition) {
    forall edge | edge in doc.edges :: EndpointsAreReal(doc.nodes, edge)
  }

  predicate ArrowsAreLawful(doc: Definition) {
    && ArrowsLeadSomewhere(doc)
    && forall node | node in doc.nodes :: LabelsFit(doc.edges, node)
  }

  /** The timer's own arrow is guarded by the hold; any other labelled arrow out
      of a windowed square must reach a wait before it reaches a call. */
  ghost predicate ArrowIsHeldOrWaits(doc: Definition, node: Node, arrow: Arrow) {
    node.window.Some? && Branches(node) && arrow.on != Some(TIMEOUT) ==> !ReachesACall(doc, arrow.dst)
  }

  ghost predicate NodeKeepsItsHours(doc: Definition, node: Node) {
    forall arrow | arrow in ArrowsFrom(doc.edges, node.id) :: ArrowIsHeldOrWaits(doc, node, arrow)
  }

  ghost predicate NoLetterReachesACall(doc: Definition) {
    forall node | node in doc.nodes :: NodeKeepsItsHours(doc, node)
  }

  /** Do two door lists mean the same, whatever their order? */
  predicate SameDoors(ours: seq<Door>, theirs: seq<Door>) {
    multiset(ours) == multiset(theirs)
  }

  /** A document pushed under open runs keeps every square they stand on, and
      the doors they came in by. */
  predicate KeepsOpenRuns(doc: Definition, occupied: seq<string>, liveEntry: Option<seq<Door>>) {
    && (occupied != [] && liveEntry.Some? ==> SameDoors(doc.doors, liveEntry.value))
    && forall id | id in occupied :: NodeNamed(doc.nodes, id).Some?
  }

  /** The laws of the board itself. */
  ghost predicate BoardIsLawful(doc: Definition) {
    && NodesAreLawful(doc.nodes)
    && doc.doors != [] && DoorsAreLawful(doc, doc.doors)
    && GoalsAreLawful(doc.goals)
    && ArrowsAreLawful(doc)
    && NoLetterReachesACall(doc)
  }

  ghost predicate Publishable(doc: Definition, occupied: seq<string>, liveEntry: Option<seq<Door>>) {
    BoardIsLawful(doc) && (doc.onPublish == Migrate ==> KeepsOpenRuns(doc, occupied, liveEntry))
  }

  // ---- The validator ----

  method CheckNodes(nodes: seq<Node>) returns (problems: seq<Problem>)
    ensures problems == [] <==> NodesAreLawful(nodes)
  {
    problems := [];
    var seen: set<string> := {};
    for i := 0 to |nodes|
      invariant forall id :: id in seen <==> exists k | 0 <= k < i :: nodes[k].id == id
      invariant problems == [] <==> DistinctIds(nodes[..i]) && forall k | 0 <= k < i :: NodeIsLawful(nodes[k])
    {
      var node := nodes[i];
      if node.id in seen {
        problems := problems + [DuplicateNode(node.id)];
      }
      seen := seen + {node.id};
      if node.window.Some? && !IsWait(node) {
        problems := problems + [WindowOnAnAction(node.id)];
      } else if !NodeIsLawful(node) {
        problems := problems + [WaitForNothing(node.id)];
      }
    }
    assert nodes[..|nodes|] == nodes;
  }

  method CheckDoors(doc: Definition) returns (problems: seq<Problem>)
    ensures problems == [] <==> doc.doors != [] && DoorsAreLawful(doc, doc.doors)
  {
    problems := if doc.doors == [] then [NoDoor] else [];
    var seen: set<string>, doors := {}, doc.doors;
    for i := 0 to |doors|
      invariant forall topic :: topic in seen <==> exists k | 0 <= k < i :: doors[k].topic == topic
      invariant problems == [] <==>
                  && doors != []
                  && (forall k, l | 0 <= k < l < i :: doors[k].topic != doors[l].topic)
                  && forall k | 0 <= k < i :: DoorIsLawful(doc, doors[k])
    {
      var door := doors[i];
      if door.topic in seen {
        problems := problems + [TwoDoors(door.topic)];
      }
      seen := seen + {door.topic};
      var start := NodeNamed(doc.nodes, door.start);
      if start.None? {
        problems := problems + [StartMissing(door.topic)];
      }
      if door.debounce > 0 && (start.None? || !IsWait(start.value)) {
        problems := problems + [NothingToSlide(door.topic)];
      }
      if door.restartOnRepeat && door.debounce <= 0 {
        problems := problems + [NothingToRearm(door.topic)];
      }
    }
  }

  method CheckGoals(goals: seq<Goal>) returns (problems: seq<Problem>)
    ensures problems == [] <==> GoalsAreLawful(goals)
  {
    problems := [];
    var seen: set<string> := {};
    for i := 0 to |goals|
      invariant forall reason :: reason in seen <==> exists k | 0 <= k < i :: goals[k].exitReason == reason
      invariant problems == [] <==>
                  && (forall k | 0 <= k < i :: goals[k].exitReason in GOAL_EXIT_REASONS)
                  && forall k, l | 0 <= k < l < i :: goals[k].exitReason != goals[l].exitReason
    {
      var reason := goals[i].exitReason;
      if reason !in GOAL_EXIT_REASONS {
        problems := problems + [UnknownReason(i)];
      } else if reason in seen {
        problems := problems + [SameReason(i)];
      }
      seen := seen + {reason};
    }
  }

  method CheckEndpoints(doc: Definition) returns (problems: seq<Problem>)
    ensures problems == [] <==> ArrowsLeadSomewhere(doc)
  {
    problems := [];
    for i := 0 to |doc.edges|
      invariant problems == [] <==> forall k | 0 <= k < i :: EndpointsAreReal(doc.nodes, doc.edges[k])
    {
      if NodeNamed(doc.nodes, doc.edges[i].src).None? {
        problems := problems + [ArrowFromNowhere(doc.edges[i].src)];
      }
      if NodeNamed(doc.nodes, doc.edges[i].dst).None? {
        problems := problems + [ArrowToNowhere(doc.edges[i].dst)];
      }
    }
  }

  method CheckLabels(doc: Definition) returns (problems: seq<Problem>)
    ensures problems == [] <==> forall node | node in doc.nodes :: LabelsFit(doc.edges, node)
  {
    problems := [];
    for i := 0 to |doc.nodes|
      invariant problems == [] <==> forall k | 0 <= k < i :: LabelsFit(doc.edges, doc.nodes[k])
    {
      if !LabelsFit(doc.edges, doc.nodes[i]) {
        problems := problems + [BadArrows(doc.nodes[i].id)];
      }
    }
  }

  /** One windowed square: each arrow a letter could take is searched. */
  method CheckHours(doc: Definition, node: Node) returns (problems: seq<Problem>)
    ensures problems == [] <==> NodeKeepsItsHours(doc, node)
  {
    problems := [];
    if node.window.None? {
      return;
    }
    var arrows := ArrowsFrom(doc.edges, node.id);
    for i := 0 to |arrows|
      invariant problems == [] <==> forall k | 0 <= k < i :: ArrowIsHeldOrWaits(doc, node, arrows[k])
    {
      if arrows[i].on == Some(TIMEOUT) || !Branches(node) {
        continue;
      }
      var call := CallReachedWithoutWaiting(doc, arrows[i].dst);
      if call.Some? {
        problems := problems + [LetterReachesACall(node.id, arrows[i].on, call.value)];
      }
    }
  }

  method CheckLetters(doc: Definition) returns (problems: seq<Problem>)
    ensures problems == [] <==> NoLetterReachesACall(doc)
  {
    problems := [];
    for i := 0 to |doc.nodes|
      invariant problems == [] <==> forall k | 0 <= k < i :: NodeKeepsItsHours(doc, doc.nodes[k])
    {
      var found := CheckHours(doc, doc.nodes[i]);
      problems := problems + found;
    }
  }

  /** The stranding laws (`validate_migration`, and migrate-mode publish). */
  method ValidateMigration(target: Definition, occupied: seq<string>, liveEntry: Option<seq<Door>>)
    returns (problems: seq<Problem>)
    ensures problems == [] <==> KeepsOpenRuns(target, occupied, liveEntry)
  {
    problems := [];
    if occupied != [] && liveEntry.Some? && !SameDoors(target.doors, liveEntry.value) {
      problems := [EntryChanged];
    }
    ghost var entry := problems;
    for i := 0 to |occupied|
      invariant problems == [] <==>
                  entry == [] && forall k | 0 <= k < i :: NodeNamed(target.nodes, occupied[k]).Some?
    {
      if NodeNamed(target.nodes, occupied[i]).None? {
        problems := problems + [Strands(occupied[i])];
      }
    }
  }

  /** No problem is reported exactly when the document obeys every law. */
  method ValidateDefinition(doc: Definition, occupied: seq<string>, liveEntry: Option<seq<Door>>)
    returns (problems: seq<Problem>)
    ensures problems == [] <==> Publishable(doc, occupied, liveEntry)
  {
    problems := CheckNodes(doc.nodes);
    var found := CheckDoors(doc);
    problems := problems + found;
    found := CheckGoals(doc.goals);
    problems := problems + found;
    found := CheckEndpoints(doc);
    problems := problems + found;
    found := CheckLabels(doc);
    problems := problems + found;
    found := CheckLetters(doc);
    problems := problems + found;
    if doc.onPublish == Migrate {
      found := ValidateMigration(doc, occupied, liveEntry);
      problems := problems + found;
    }
  }
}
