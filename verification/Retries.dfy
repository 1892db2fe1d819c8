/** What the attempt counter counts, and so when a failure parks a run
    (outreach/walker.py over the claim of db/queries/enrollment.py). */
module Retries {
  import opened Wrappers
  import opened Steps
  import opened Walker
  import opened Entry
  import opened Lease

  /** Writes that forgive: a visit's advance or hold that lands, a letter that
      un-parks, an operator's revival. */
  predicate Forgives(s: State, event: Event) {
    match event
    case Land(w, status, read, world) =>
      && w in s.visits && s.row.status == Waiting && s.row.wake.Some? && s.row.wake == s.visits[w].run.wake
      && WalkRun(s.visits[w].run, status, read, world).Moved?
    case Reply(_, square, _) => s.row.status == Parked && s.row.node == square
    case Refresh(_, square) => s.row.status == Parked && s.row.node == square
    case Revive => s.row.status == Parked
    case _ => false
  }

  predicate Claims(s: State, event: Event) {
    event.Claim? && s.row.wake.Some?
  }

  /** Claims since the last write that forgave, `so` of them before the schedule. */
  function ClaimsSince(plan: Plan, s: State, schedule: seq<Timed>, so: nat): nat
    decreases |schedule|
  {
    if schedule == [] then so
    else
      var event := schedule[0].event;
      ClaimsSince(plan, Next(plan, s, schedule[0].at, event), schedule[1..],
                  if Forgives(s, event) then 0 else if Claims(s, event) then so + 1 else so)
  }

  lemma OneStepCounts(plan: Plan, s: State, at: int, event: Event)
    ensures Next(plan, s, at, event).row.attempts
            == if Forgives(s, event) then 0 else if Claims(s, event) then s.row.attempts + 1 else s.row.attempts
  {
    match event
    case Land(w, status, read, world) =>
      if w in s.visits {
        LandingCounts(s, at, w, WalkRun(s.visits[w].run, status, read, world));
      }
    case _ =>
  }

  lemma LandingCounts(s: State, at: int, w: nat, move: Move)
    requires w in s.visits
    ensures Landed(s, at, w, move).row.attempts
            == if s.row.status == Waiting && s.row.wake.Some? && s.row.wake == s.visits[w].run.wake && move.Moved?
               then 0 else s.row.attempts
  {
  }

  /** Over any schedule, the counter is the number of claims since the run was
      last forgiven, however each of those claims ended. */
  lemma {:induction false} AttemptsCountClaims(plan: Plan, s: State, schedule: seq<Timed>)
    ensures After(plan, s, schedule).row.attempts == ClaimsSince(plan, s, schedule, s.row.attempts)
    decreases |schedule|
  {
    if schedule != [] {
      OneStepCounts(plan, s, schedule[0].at, schedule[0].event);
      AttemptsCountClaims(plan, Next(plan, s, schedule[0].at, schedule[0].event), schedule[1..]);
    }
  }

  /** How the visit ended: a failure, with this error. */
  predicate Fails(run: Run, status: Option<PlanStatus>, read: DocRead, world: World, error: string) {
    WalkRun(run, status, read, world) == Settled(run, world, Failure(error))
  }

  /** A failing visit parks its run if and only if this was at least the third
      claim since the run was last forgiven; otherwise it is retried. */
  lemma AFailureParksIffTheClaimsAreSpent(
    plan: Plan, s: State, schedule: seq<Timed>, w: nat, at: int, status: Option<PlanStatus>, read: DocRead,
    world: World, error: string)
    requires var now := After(plan, s, schedule);
             && w in now.visits && now.row == now.visits[w].run
             && now.row.status == Waiting && now.row.wake.Some?
             && Fails(now.row, status, read, world, error)
    ensures var now := After(plan, s, schedule);
            var after := Next(plan, now, at, Land(w, status, read, world)).row;
            && (after.status == Parked <==> ClaimsSince(plan, s, schedule, s.row.attempts) >= MAX_ATTEMPTS)
            && (after.status != Parked ==>
                  after.status == Waiting && after.wake == Some(Stamp(at + world.retryIn, now.nextGen))
                  && after.lastError == Some(error) && after.attempts == now.row.attempts)
  {
    AttemptsCountClaims(plan, s, schedule);
    var now := After(plan, s, schedule);
    AFailureLands(now, at, w, world, error);
    assert Next(plan, now, at, Land(w, status, read, world))
           == Landed(now, at, w, Settled(now.row, world, Failure(error)));
  }

  lemma AFailureLands(s: State, at: int, w: nat, world: World, error: string)
    requires w in s.visits && s.row == s.visits[w].run && s.row.status == Waiting && s.row.wake.Some?
    ensures var after := Landed(s, at, w, Settled(s.row, world, Failure(error))).row;
            && (after.status == Parked <==> s.row.attempts >= MAX_ATTEMPTS)
            && (after.status != Parked ==>
                  after.status == Waiting && after.wake == Some(Stamp(at + world.retryIn, s.nextGen))
                  && after.lastError == Some(error) && after.attempts == s.row.attempts)
  {
  }

  /** A letter taken mid-visit defers the visit, whatever it decided, and the
      claim still counts: so a run can be parked by its first failure. */
  lemma ADeferredVisitSpendsAnAttempt(
    plan: Plan, s: State, claimedAt: int, w: nat, at: int, letter: Letter, answer: string, later: int,
    status: Option<PlanStatus>, read: DocRead, world: World)
    requires s.row.status == Waiting && s.row.wake.Some? && s.row.wake.value.generation < s.nextGen
    ensures var claimed := Next(plan, s, claimedAt, Claim(w));
            var woken := Next(plan, claimed, at, Reply(letter, s.row.node, answer));
            var after := Next(plan, woken, later, Land(w, status, read, world));
            && after.row == woken.row && after.trail == s.trail
            && after.row.status == Waiting && after.row.attempts == s.row.attempts + 1
  {
    var claimed := Next(plan, s, claimedAt, Claim(w));
    var woken := Next(plan, claimed, at, Reply(letter, s.row.node, answer));
    assert woken.row.wake == Some(Stamp(at, claimed.nextGen));
    assert s.trail + [] == s.trail;
    StaleMovesChangeNothing(woken, later, w, WalkRun(woken.visits[w].run, status, read, world));
  }

  lemma StaleMovesChangeNothing(s: State, at: int, w: nat, move: Move)
    requires w in s.visits && s.row.wake != s.visits[w].run.wake
    ensures Landed(s, at, w, move).row == s.row && Landed(s, at, w, move).trail == s.trail
  {
  }
}
