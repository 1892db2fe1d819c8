/** What the laws of publish are for: what a run on a lawful document can rely on
    (outreach/plans.py under outreach/walker.py, window.py and repeat.py). */
module Purposes {
  import opened Wrappers
  import opened Window
  import opened Board
  import opened Steps
  import opened Walker
  import opened Plans
  import opened Entry
  import opened Lease
  import opened Words
  import opened Statements

  /** A lawful wait is waited on: the token always rests there, but for one that
      only asks for its hours, while they are open. */
  lemma ALawfulWaitIsWaitedOn(node: Node, now: int, runEndsAt: int)
    requires NodeIsLawful(node) && node.kind == Wait
    ensures Alarm(node, now, runEndsAt) > now <==>
            !(node.lasts.None? && node.topics == [] && node.window.Some? && Open(now, node.window.value))
  {
    AlarmsRing(node, now, runEndsAt);
    var wake := Alarm(node, now, runEndsAt);
    assert node.window.Some? && wake == now ==> Open(now, node.window.value);
  }

  /** Only a wait has hours. */
  lemma OnlyWaitsAreHeld(doc: Definition, node: Node, context: Context, now: int)
    requires NodesAreLawful(doc.nodes) && node in doc.nodes && IsShut(node, context, now)
    ensures node.kind == Wait
  {
    assert NodeIsLawful(node);
  }

  /** A door that re-arms is never idle: a new letter on it, for a run that waits,
      is always taken, and its alarm is then at least the debounce away. */
  lemma ARestartDoorAlwaysActs(
    plan: Plan, s: State, at: int, letter: Letter, door: Door, policy: RepeatPlan)
    requires DoorIsLawful(plan.doc, door) && door.restartOnRepeat
    requires s.row.status == Waiting && s.row.wake.Some?
    requires letter.id !in RepeatsTaken(s.row.context)
    requires Lookup(s.row.context, "source_event_id") != Some(Text(letter.id))
    ensures var after := Next(plan, s, at, Repeat(letter, door, policy)).row;
            && letter.id in RepeatsTaken(after.context)
            && after.wake.Some? && after.wake.value.due >= at + door.debounce && door.debounce > 0
  {
    WhatARepeatWrites(plan, s, at, letter, door, policy);
    var after := Next(plan, s, at, Repeat(letter, door, policy)).row;
    assert Lookup(after.context, "repeat_event_ids") == Some(Many(RepeatsTaken(s.row.context) + [letter.id]));
  }

  /** A door that slides an alarm has one: a run enters by it onto a wait. */
  lemma ASlidingDoorHasAnAlarm(plan: Plan, id: string, version: nat, letter: Letter, happened: string, now: int)
    requires DoorIsLawful(plan.doc, plan.door) && plan.door.debounce > 0
    ensures var row := Enrolled(plan, id, version, letter, happened, now).row;
            && row.wake.Some? && NodeNamed(plan.doc.nodes, row.node).Some?
            && var node := NodeNamed(plan.doc.nodes, row.node).value;
               node.kind == Wait && RingsAt(node, now, now + plan.doc.maxAge, row.wake.value.due)
  {
    WhatAnEnrolmentWrites(plan, id, version, letter, happened, now);
  }

  /** One letter, one door of a plan. */
  lemma OneDoorALetter(doc: Definition, ours: Door, theirs: Door)
    requires DoorsAreLawful(doc, doc.doors) && ours in doc.doors && theirs in doc.doors && ours.topic == theirs.topic
    ensures ours == theirs
  {
    var i :| 0 <= i < |doc.doors| && doc.doors[i] == ours;
    var j :| 0 <= j < |doc.doors| && doc.doors[j] == theirs;
    assert i == j;
  }

  /** Two lawful documents have the same doors exactly when each letter finds the
      same door in both. */
  lemma SameDoorsAdmitTheSame(ours: Definition, theirs: Definition)
    requires DoorsAreLawful(ours, ours.doors) && DoorsAreLawful(theirs, theirs.doors)
    ensures SameDoors(ours.doors, theirs.doors) <==> forall door :: door in ours.doors <==> door in theirs.doors
  {
    if SameDoors(ours.doors, theirs.doors) {
      forall door ensures door in ours.doors <==> door in theirs.doors {
        assert door in ours.doors <==> door in multiset(ours.doors);
        assert door in theirs.doors <==> door in multiset(theirs.doors);
      }
    }
    if forall door :: door in ours.doors <==> door in theirs.doors {
      forall door ensures multiset(ours.doors)[door] == multiset(theirs.doors)[door] {
        EachDoorOnce(ours.doors, door);
        EachDoorOnce(theirs.doors, door);
      }
    }
  }

  lemma {:induction false} EachDoorOnce(doors: seq<Door>, door: Door)
    requires forall i, j | 0 <= i < j < |doors| :: doors[i].topic != doors[j].topic
    ensures multiset(doors)[door] == if door in doors then 1 else 0
  {
    if doors != [] {
      var n := |doors| - 1;
      EachDoorOnce(doors[..n], door);
      assert doors == doors[..n] + [doors[n]];
      if doors[n] == door {
        forall k | 0 <= k < n ensures doors[..n][k] != door {
          assert doors[k].topic != doors[n].topic;
        }
      }
    }
  }

  /** The reason a run ended tells how: none of the walker's own is a goal's, and no
      two goals share one. So a visit ends a run for a goal's reason exactly when
      that goal was the first to hold. */
  lemma AnExitNamesItsGoal(doc: Definition, run: Run, world: World, i: nat)
    requires GoalsAreLawful(doc.goals) && i < |GoalTiers(doc.goals)| && world.now <= run.entered + doc.maxAge
    requires run.arrivedAt.Some?
    ensures var ending := Visit(doc, run, world);
            ending.Writes? && ending.move.Exits? && ending.move.reason == GoalTiers(doc.goals)[i].exitReason
            <==> FirstToHold(doc, run, world, i)
  {
    var tiers := GoalTiers(doc.goals);
    EveryVisitHasItsReason(doc, run, world);
    TierReasons(doc.goals, i);
    if SomeTierHolds(doc, run, world) {
      var move := Visit(doc, run, world).move;
      var j: nat :| FirstToHold(doc, run, world, j) && ExitsFor(run, tiers[j].exitReason, world.now, move);
      TiersDiffer(doc.goals, i, j);
    } else {
      WalksOnlyComplete(doc, run, world);
    }
  }

  lemma WalksOnlyComplete(doc: Definition, run: Run, world: World)
    requires run.arrivedAt.Some?
    ensures var ending := WalkFrom(doc, run, world, 0, Begin(run));
            ending.Writes? && ending.move.Exits? ==> ending.move.reason == "completed"
  {
    EveryVisitTellsItsWords(doc, run, world);
  }

  lemma TierReasons(goals: seq<Goal>, i: nat)
    requires GoalsAreLawful(goals) && i < |GoalTiers(goals)|
    ensures GoalTiers(goals)[i].exitReason !in {"completed", "timed_out", "ejected"}
  {
    var tier := GoalTiers(goals)[i];
    TierIsAGoal(goals, i);
    assert tier.exitReason in GOAL_EXIT_REASONS;
    assert |"completed"| == 9 && |"timed_out"| == 9 && |"withdrawn"| == 9;
    assert "withdrawn"[0] == 'w' && "completed"[0] == 'c' && "timed_out"[0] == 't';
  }

  lemma TierIsAGoal(goals: seq<Goal>, i: nat)
    requires i < |GoalTiers(goals)|
    ensures GoalTiers(goals)[i] in goals
  {
    var keyed, plain := TiersOf(goals, true), TiersOf(goals, false);
    var tier := GoalTiers(goals)[i];
    if i < |keyed| {
      assert keyed[i] in keyed;
      TiersAreTheGoals(goals, true, tier);
    } else {
      assert plain[i - |keyed|] in plain;
      TiersAreTheGoals(goals, false, tier);
    }
  }

  /** No two tiers share a reason. */
  lemma TiersDiffer(goals: seq<Goal>, i: nat, j: nat)
    requires GoalsAreLawful(goals) && i < |GoalTiers(goals)| && j < |GoalTiers(goals)|
    ensures GoalTiers(goals)[i].exitReason == GoalTiers(goals)[j].exitReason ==> i == j
  {
    var keyed, plain := TiersOf(goals, true), TiersOf(goals, false);
    KindsDiffer(goals, true);
    KindsDiffer(goals, false);
    if i < |keyed| <= j {
      KeyedAreNotPlain(goals, keyed[i], plain[j - |keyed|]);
    } else if j < |keyed| <= i {
      KeyedAreNotPlain(goals, keyed[j], plain[i - |keyed|]);
    }
  }

  lemma KeyedAreNotPlain(goals: seq<Goal>, keyed: Goal, plain: Goal)
    requires GoalsAreLawful(goals) && keyed in TiersOf(goals, true) && plain in TiersOf(goals, false)
    ensures keyed.exitReason != plain.exitReason
  {
    TiersAreTheGoals(goals, true, keyed);
    TiersAreTheGoals(goals, false, plain);
    var a :| 0 <= a < |goals| && goals[a] == keyed;
    var b :| 0 <= b < |goals| && goals[b] == plain;
    assert a != b;
  }

  lemma {:induction false} KindsDiffer(goals: seq<Goal>, keyed: bool)
    requires forall a, b | 0 <= a < b < |goals| :: goals[a].exitReason != goals[b].exitReason
    ensures forall a, b | 0 <= a < b < |TiersOf(goals, keyed)| ::
              TiersOf(goals, keyed)[a].exitReason != TiersOf(goals, keyed)[b].exitReason
  {
    if goals != [] {
      KindsDiffer(goals[1..], keyed);
      var rest := TiersOf(goals[1..], keyed);
      forall b | 0 <= b < |rest| ensures rest[b].exitReason != goals[0].exitReason {
        TiersAreTheGoals(goals[1..], keyed, rest[b]);
        var k :| 0 <= k < |goals[1..]| && goals[1..][k] == rest[b];
        assert goals[k + 1] == rest[b];
      }
    }
  }
}
