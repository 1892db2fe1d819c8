/** Which document a run executes, over the history of its plan
    (outreach/plans.py, outreach/versions.py, db/queries/enrollment.py). */
module VersionHistory {
  import opened Wrappers
  import opened Board
  import opened Steps
  import opened Walker
  import opened Versions
  import Lease

  /** Only the version differs. */
  predicate IsMoved(before: Run, after: Run, to: nat) {
    after == before.(version := to)
  }

  /** A publish adds one version, the draft, and no other document changes. Under
      migrate every open run executes the draft from then on, and is otherwise as
      it was; under pin none is touched; and an ended run never is. */
  lemma WhatAPublishDoes(store: Store, draft: Definition, id: string)
    requires id in store.runs && forall version | version in store.versions :: version <= store.newest
    ensures var after := Published(store, draft);
            && after.newest !in store.versions && after.versions == store.versions + map[after.newest := draft]
            && after.newest == store.newest + 1 && after.runs.Keys == store.runs.Keys
            && (if draft.onPublish == Migrate && store.runs[id].status != Exited then
                  && IsMoved(store.runs[id], after.runs[id], after.newest)
                  && DocumentOf(after, after.runs[id]) == Read(draft)
                else
                  && after.runs[id] == store.runs[id]
                  && (store.runs[id].version in store.versions ==>
                        DocumentOf(after, after.runs[id]) == DocumentOf(store, store.runs[id])))
  {
    assert store.runs[id].version in store.versions ==> store.runs[id].version != store.newest + 1;
  }

  /** A migration moves the open runs of one version onto the other, and nothing
      else. */
  lemma WhatAMigrationDoes(store: Store, from: nat, to: nat, id: string)
    requires id in store.runs && to in store.versions
    ensures var after := MovedForward(store, from, to);
            && after.versions == store.versions && after.newest == store.newest
            && after.runs.Keys == store.runs.Keys
            && if store.runs[id].status != Exited && store.runs[id].version == from then
                 && IsMoved(store.runs[id], after.runs[id], to)
                 && DocumentOf(after, after.runs[id]) == Read(store.versions[to])
               else after.runs[id] == store.runs[id]
  {
  }

  /** An enrolment inserts a run at its door, on the version it was read from. */
  lemma WhatAnEnrolmentDoes(
    store: Store, id: string, version: nat, door: Door, wake: int, context: Context, now: int)
    ensures var after := Entered(store, id, version, door, wake, context, now);
            && after.versions == store.versions && after.newest == store.newest
            && after.runs.Keys == store.runs.Keys + {id}
            && (forall other | other in store.runs && other != id :: after.runs[other] == store.runs[other])
            && var run := after.runs[id];
               && run.version == version && run.node == door.start && run.status == Waiting
               && run.entered == now && run.arrivedAt == Some(now) && run.context == context
               && run.attempts == 0 && run.lastError.None? && run.exitReason.None?
               && run.wake.Some? && run.wake.value.due == wake
  {
  }

  // ---- Over any history ----

  lemma OneEventKeepsTheRecord(store: Store, event: Event, id: string)
    requires NobodyStranded(store) && Allowed(store, event)
    ensures var after := Versions.Step(store, event);
            && (forall version | version in store.versions ::
                  version in after.versions && after.versions[version] == store.versions[version])
            && (id in store.runs && store.runs[id].status == Exited ==>
                  id in after.runs && after.runs[id].version == store.runs[id].version
                  && after.runs[id].status == Exited && after.runs[id].node == store.runs[id].node)
  {
    match event
    case Visits(other, status, world, at, gen) =>
      if other == id && id in store.runs && store.runs[id].status == Exited {
        ExitedRunsAreNotWritten(store, id, status, world, at, gen);
      }
    case _ =>
  }

  lemma ExitedRunsAreNotWritten(
    store: Store, id: string, status: Option<PlanStatus>, world: World, at: int, gen: nat)
    requires id in store.runs && store.runs[id].status == Exited
    ensures Visited(store, id, status, world, at, gen) == store
  {
    var run := store.runs[id];
    NothingIsWritten(run, WalkRun(run, status, DocumentOf(store, run), world), at, gen);
  }

  lemma NothingIsWritten(run: Run, move: Move, at: int, gen: nat)
    requires run.status == Exited
    ensures Lease.MoveStatement(run, run.wake, move, at, gen).None?
  {
  }

  /** Over any history of publishes, migrations, enrolments and visits: no published
      document ever changes, and an ended run keeps the version it ended under. */
  lemma {:induction false} TheRecordStands(store: Store, events: seq<Event>, id: string)
    requires NobodyStranded(store) && AllAllowed(store, events)
    ensures var after := AfterAll(store, events);
            && (forall version | version in store.versions ::
                  version in after.versions && after.versions[version] == store.versions[version])
            && (id in store.runs && store.runs[id].status == Exited ==>
                  id in after.runs && after.runs[id].version == store.runs[id].version
                  && after.runs[id].status == Exited && after.runs[id].node == store.runs[id].node)
    decreases |events|
  {
    if events != [] {
      OneEventKeepsTheRecord(store, events[0], id);
      StepStrandsNobody(store, events[0]);
      TheRecordStands(Versions.Step(store, events[0]), events[1..], id);
    }
  }
}
