/** The promises the walker and the consumer make about a run, for every
    schedule of claims, visits, crashes, letters, repeats, goals and revivals. */
module RunTheorems {
  import opened Wrappers
  import opened Board
  import opened Steps
  import opened Walker
  import opened Trail
  import opened Entry
  import opened Lease
  import opened RunHistory

  /** A run enrolled through a door, and then anything. */
  ghost predicate Reachable(plan: Plan, s: State) {
    exists id, version, letter, happened, now, schedule ::
      ReachedBy(plan, s, id, version, letter, happened, now, schedule)
  }

  ghost predicate ReachedBy(
    plan: Plan, s: State, id: string, version: nat, letter: Letter, happened: string, now: int,
    schedule: seq<Timed>)
  {
    var born := Enrolled(plan, id, version, letter, happened, now);
    Lawful(plan, born, schedule) && s == After(plan, born, schedule)
  }

  lemma ReachableStatesFit(plan: Plan, s: State)
    requires Reachable(plan, s)
    ensures Inv(plan, s)
  {
    var id, version, letter, happened, now, schedule :|
      ReachedBy(plan, s, id, version, letter, happened, now, schedule);
    EnrolmentFits(plan, id, version, letter, happened, now);
    ScheduleKeepsInv(plan, Enrolled(plan, id, version, letter, happened, now), schedule);
  }

  // ---- The trail ----

  /** A timeline without a gap: it begins at the door when the run began, each
      line ends where and when the next begins, each arrow is the document's,
      and only the first line arrived by the door. */
  ghost predicate IsWholePath(plan: Plan, entered: int, lines: seq<TimelineStep>) {
    && lines != [] && lines[0].node == plan.door.start && lines[0].arrivedAt == entered
    && (forall k | 0 <= k < |lines| :: lines[k].arrivedBy == ByDoor <==> k == 0)
    && (forall k | 0 <= k < |lines| - 1 :: Meets(plan.doc.edges, lines[k], lines[k + 1]))
  }

  /** One line leads to the next: same square, same instant, along an arrow. */
  ghost predicate Meets(edges: seq<Edge>, line: TimelineStep, next: TimelineStep) {
    && line.next == Some(next.node) && line.leftAt == Some(next.arrivedAt) && line.arrivedAt <= next.arrivedAt
    && exists arrow :: arrow in ArrowsFrom(edges, line.node) && arrow.dst == next.node
  }

  lemma TimelineLink(plan: Plan, row: Run, trail: seq<StepRecord>, k: nat)
    requires TrailFits(plan, row.entered, trail) && k < |Timeline(row, trail)| - 1
    requires row.status != Exited ==> StandsAtTheEnd(plan, row, trail)
    ensures Meets(plan.doc.edges, Timeline(row, trail)[k], Timeline(row, trail)[k + 1])
  {
    var lines := Timeline(row, trail);
    assert lines[k] == Shown(trail[k]) && TrailRowFits(plan.doc.edges, trail[k], k == 0);
    if k + 1 < |trail| {
      assert lines[k + 1] == Shown(trail[k + 1]);
    } else {
      assert trail[k] == Last(trail);
    }
  }

  lemma TimelineIsAPath(plan: Plan, row: Run, trail: seq<StepRecord>)
    requires TrailFits(plan, row.entered, trail)
    requires row.status != Exited ==> StandsAtTheEnd(plan, row, trail) && row.arrivedAt.Some?
    requires row.status == Exited ==> trail != []
    ensures IsWholePath(plan, row.entered, Timeline(row, trail))
  {
    var lines := Timeline(row, trail);
    forall k | 0 <= k < |lines| ensures lines[k].arrivedBy == ByDoor <==> k == 0 {
      if k < |trail| {
        assert lines[k] == Shown(trail[k]) && TrailRowFits(plan.doc.edges, trail[k], k == 0);
      }
    }
    forall k | 0 <= k < |lines| - 1 ensures Meets(plan.doc.edges, lines[k], lines[k + 1]) {
      TimelineLink(plan, row, trail, k);
    }
  }

  /** In every reachable state the timeline is the run's whole path: an open
      run's ends with the square it stands on, an exited run's with the square
      that was closed under it, or, if that row was lost, one short of it. */
  lemma TimelineIsTheWholePath(plan: Plan, s: State)
    requires Reachable(plan, s)
    ensures var lines := Timeline(s.row, s.trail);
            && (s.row.status != Exited || s.trail != [] ==> IsWholePath(plan, s.row.entered, lines))
            && (s.row.status != Exited ==>
                  var last := lines[|lines| - 1];
                  last.node == s.row.node && Some(last.arrivedAt) == s.row.arrivedAt && last.leftAt.None?)
            && (s.row.status == Exited && s.trail != [] ==>
                  var last := lines[|lines| - 1];
                  last.leftAt.Some? && (last.next.Some? ==> last.next.value == s.row.node)
                  && (last.next.None? ==> last.node == s.row.node))
  {
    ReachableStatesFit(plan, s);
    if s.row.status != Exited || s.trail != [] {
      TimelineIsAPath(plan, s.row, s.trail);
    }
  }

  // ---- Exits are final ----

  lemma {:induction false} ExitedRunsNeverChange(plan: Plan, s: State, schedule: seq<Timed>)
    requires s.row.status == Exited && s.row.wake.None? && Lawful(plan, s, schedule)
    ensures After(plan, s, schedule).row == s.row && After(plan, s, schedule).trail == s.trail
    decreases |schedule|
  {
    if schedule != [] {
      var next := Next(plan, s, schedule[0].at, schedule[0].event);
      assert next.row == s.row && next.trail == s.trail;
      ExitedRunsNeverChange(plan, next, schedule[1..]);
    }
  }

  // ---- The lease ----

  /** Does this event store a different `wake_at`? */
  predicate Rearms(plan: Plan, s: State, at: int, event: Event) {
    Next(plan, s, at, event).row.wake != s.row.wake
  }

  /** No event of the schedule stores a new `wake_at`. */
  predicate NobodyRearms(plan: Plan, s: State, schedule: seq<Timed>)
    decreases |schedule|
  {
    schedule == [] ||
    (&& !Rearms(plan, s, schedule[0].at, schedule[0].event)
     && NobodyRearms(plan, Next(plan, s, schedule[0].at, schedule[0].event), schedule[1..]))
  }

  /** Once a stored stamp has been replaced it never comes back. */
  lemma {:induction false} SpentLeasesStaySpent(plan: Plan, s: State, schedule: seq<Timed>, lease: Stamp)
    requires Inv(plan, s) && Lawful(plan, s, schedule)
    requires lease.generation < s.nextGen && s.row.wake != Some(lease)
    ensures After(plan, s, schedule).row.wake != Some(lease)
    decreases |schedule|
  {
    if schedule != [] {
      StepKeepsInv(plan, s, schedule[0].at, schedule[0].event);
      OneStepNeverRestores(plan, s, schedule[0].at, schedule[0].event, lease);
      SpentLeasesStaySpent(plan, Next(plan, s, schedule[0].at, schedule[0].event), schedule[1..], lease);
    }
  }

  lemma OneStepNeverRestores(plan: Plan, s: State, at: int, event: Event, lease: Stamp)
    requires lease.generation < s.nextGen && s.row.wake != Some(lease)
    ensures Next(plan, s, at, event).row.wake != Some(lease)
    ensures lease.generation < Next(plan, s, at, event).nextGen
  {
  }

  /** The lease is still on the row exactly when nobody has re-armed the run. */
  lemma {:induction false} LeaseHoldsIffNobodyRearmed(plan: Plan, s: State, schedule: seq<Timed>)
    requires Inv(plan, s) && Lawful(plan, s, schedule) && s.row.wake.Some?
    ensures After(plan, s, schedule).row.wake == s.row.wake <==> NobodyRearms(plan, s, schedule)
    decreases |schedule|
  {
    if schedule != [] {
      var next := Next(plan, s, schedule[0].at, schedule[0].event);
      StepKeepsInv(plan, s, schedule[0].at, schedule[0].event);
      if Rearms(plan, s, schedule[0].at, schedule[0].event) {
        OneStepOnlyGrowsGenerations(plan, s, schedule[0].at, schedule[0].event);
        SpentLeasesStaySpent(plan, next, schedule[1..], s.row.wake.value);
      } else {
        LeaseHoldsIffNobodyRearmed(plan, next, schedule[1..]);
      }
    }
  }

  lemma OneStepOnlyGrowsGenerations(plan: Plan, s: State, at: int, event: Event)
    ensures s.nextGen <= Next(plan, s, at, event).nextGen
  {
  }

  /** A claim's visit: between the claim and its write, other writers do what
      they like. Its write lands if, and only if, none of them re-armed the
      run; when it does not, the row and the trail are exactly what they left. */
  lemma VisitLandsIffNobodyRearmed(
    plan: Plan, s: State, claimedAt: int, w: nat, between: seq<Timed>, at: int,
    status: Option<PlanStatus>, read: DocRead, world: World)
    requires Inv(plan, s) && Enabled(plan, s, claimedAt, Claim(w))
    requires var claimed := Next(plan, s, claimedAt, Claim(w));
             var before := After(plan, claimed, between);
             && Lawful(plan, claimed, between)
             && w in before.visits && before.visits[w] == claimed.visits[w]
             && Enabled(plan, before, at, Land(w, status, read, world))
    ensures var claimed := Next(plan, s, claimedAt, Claim(w));
            var before := After(plan, claimed, between);
            var after := Next(plan, before, at, Land(w, status, read, world));
            var move := WalkRun(claimed.row, status, read, world);
            && (NobodyRearms(plan, claimed, between) && !move.Rests? ==>
                  after.row.wake != before.row.wake && after.trail == before.trail + ClosedBy(move))
            && (!NobodyRearms(plan, claimed, between) || move.Rests? ==>
                  after.row == before.row && after.trail == before.trail)
  {
    var claimed := Next(plan, s, claimedAt, Claim(w));
    var before := After(plan, claimed, between);
    StepKeepsInv(plan, s, claimedAt, Claim(w));
    LeaseHoldsIffNobodyRearmed(plan, claimed, between);
    ScheduleKeepsInv(plan, claimed, between);
    assert RowFits(before);
    LandedMoveTakesIff(before, at, w, WalkRun(claimed.row, status, read, world));
  }

  /** A move is written, with its squares and a new stamp, exactly when the row
      still carries the lease; otherwise nothing is. */
  lemma LandedMoveTakesIff(s: State, at: int, w: nat, move: Move)
    requires w in s.visits && s.visits[w].run.wake.Some?
    requires s.row.wake.Some? ==> s.row.status == Waiting && s.row.wake.value.generation < s.nextGen
    ensures var after := Landed(s, at, w, move);
            if s.row.wake == s.visits[w].run.wake && !move.Rests? then
              after.row.wake != s.row.wake && after.trail == s.trail + ClosedBy(move)
            else
              after.row == s.row && after.trail == s.trail
  {
  }

  /** Parking, retrying and deferring write no squares: whatever the visit had
      closed is discarded with the move. */
  lemma NoMoveNoSquares(plan: Plan, s: State, at: int, w: nat, status: Option<PlanStatus>, read: DocRead, world: World)
    requires w in s.visits
    ensures var move := WalkRun(s.visits[w].run, status, read, world);
            var after := Next(plan, s, at, Land(w, status, read, world));
            move.Parks? || move.Retries? || s.row.wake != s.visits[w].run.wake ==> after.trail == s.trail
  {
    assert s.trail + [] == s.trail;
  }

  /** Every write that takes effect on an armed run stores a new `wake_at`, with
      one exception: a repeat whose debounce does not outlast the alarm already
      stored. */
  lemma EveryTakenWriteRearmsButAShortRepeat(plan: Plan, s: State, at: int, event: Event)
    requires s.row.wake.Some? && s.row.wake.value.generation < s.nextGen
    requires Next(plan, s, at, event).row != s.row
    ensures Rearms(plan, s, at, event) <==>
            !(event.Repeat? && !Outlasts(event.door, at, s.row.wake.value))
  {
  }

  // ---- The closing row ----

  /** A goal-cancel always ends the run it names, and closes its last square
      exactly when the row the consumer read still stands on that square. */
  lemma GoalCancelClosesIffItsReadIsCurrent(
    plan: Plan, s: State, at: int, c: nat, letter: Letter, reason: string)
    requires Inv(plan, s) && s.row.status != Exited
    requires Enabled(plan, s, at, GoalCancel(c, letter, reason, true))
    ensures var after := Next(plan, s, at, GoalCancel(c, letter, reason, true));
            var seen := s.looks[c].run;
            && after.row.status == Exited && after.row.exitReason == Some(reason)
            && (ClosedAtTheEnd(after.row, after.trail) <==>
                  && FirstNamed(plan.doc.nodes, s.row.node).Some?
                  && seen.node == s.row.node && seen.arrivedAt == s.row.arrivedAt)
            && (!ClosedAtTheEnd(after.row, after.trail) ==> after.trail == s.trail)
  {
    var seen := s.looks[c].run;
    var closing := Closing(seen, Some(plan.doc), reason, at, Some(letter.id));
    assert SeenFits(s, s.looks[c]);
    var after := Next(plan, s, at, GoalCancel(c, letter, reason, true));
    if CancelFlush(s.row, closing) == [] {
      assert s.trail + [] == s.trail;
    } else {
      assert Last(after.trail) == closing[0];
    }
  }

  // ---- Answers ----

  /** In every reachable state, an answer an open run holds belongs to the
      square it stands on; and every visit that leaves the run open writes it
      back with none. So an old answer never resolves a revisit. */
  lemma StaleAnswersNeverResolveARevisit(plan: Plan, s: State)
    requires Reachable(plan, s) && s.row.status != Exited
    ensures forall key | HoldsAnswer(s.row.context, key) ::
              key == ReplyKey(s.row.node)
              && NodeNamed(plan.doc.nodes, s.row.node).Some?
              && Branches(NodeNamed(plan.doc.nodes, s.row.node).value)
    ensures forall w, status, read, world, at |
              && Enabled(plan, s, at, Land(w, status, read, world))
              && WalkRun(s.visits[w].run, status, read, world).Moved? ::
              NoAnswers(WalkRun(s.visits[w].run, status, read, world).context)
  {
    ReachableStatesFit(plan, s);
    forall w, status, read, world, at |
      && Enabled(plan, s, at, Land(w, status, read, world))
      && WalkRun(s.visits[w].run, status, read, world).Moved?
      ensures NoAnswers(WalkRun(s.visits[w].run, status, read, world).context)
    {
      assert VisitFits(s, s.visits[w]);
      EveryVisitSpendsItsAnswers(s.visits[w].run, status, plan.doc, read, world);
    }
  }
}
