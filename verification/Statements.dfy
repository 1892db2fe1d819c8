/** What each writer leaves on the row, key by key and column by column, in the
    words of the statements' own promises (db/queries/enrollment.py,
    outreach/entry.py, outreach/repeat.py, outreach/enrol.py). */
module Statements {
  import opened Wrappers
  import opened Board
  import opened Steps
  import opened Walker
  import opened Entry
  import opened Lease
  import opened Words
  import Trail

  // ---- A letter's facts ----

  /** A producer may say this much, under a name that is not the walker's. */
  predicate MayPass(said: Context, key: string, maxChars: nat) {
    key in said && |Str(said[key])| <= maxChars && !IsBookkeeping(key)
  }

  /** What a letter says under a name: what the catalog declared, else what its
      payload says; long values and the walker's own names are dropped. */
  function FactOf(letter: Letter, maxChars: nat, key: string): Option<Value> {
    if MayPass(letter.variables, key, maxChars) then Some(letter.variables[key])
    else if MayPass(letter.payload, key, maxChars) then Some(letter.payload[key])
    else None
  }

  lemma FactsAreTheLetters(letter: Letter, maxChars: nat, key: string)
    ensures Lookup(LetterFacts(letter, maxChars), key) == FactOf(letter, maxChars, key)
    ensures Lookup(RepeatFacts(letter, maxChars), key)
            == if key == "phone" && letter.phone.Some? then Some(Text(letter.phone.value))
               else FactOf(letter, maxChars, key)
  {
  }

  /** Every name the walker keeps is closed to producers: its marks, its references,
      the number it dials, and whatever it files under a square. */
  lemma TheWalkersNamesAreClosed(id: string)
    ensures forall key | key in {"source_event_id", "entered_event_at", "phone", "latest_letter", "facts", "goal",
                                 "repeat_event_ids", "repeat_items", "cut_short_by", "_outcome", "calls_today"} ::
              IsBookkeeping(key)
    ensures IsBookkeeping(ReplyKey(id)) && IsBookkeeping("lead_" + id) && IsBookkeeping("message_" + id)
    ensures IsBookkeeping("action_" + id) && IsBookkeeping("split_" + id) && IsBookkeeping("playbook_" + id)
  {
  }

  /** ... and no other name is. */
  lemma ProducersNamesAreOpen(key: string)
    requires key !in BOOKKEEPING_KEYS
    requires forall rest :: key != "lead_" + rest && key != "message_" + rest && key != "reply_" + rest
    requires forall rest :: key != "action_" + rest && key != "split_" + rest && key != "playbook_" + rest
    ensures !IsBookkeeping(key)
  {
    PrefixesBegin(key, "lead_");
    PrefixesBegin(key, "message_");
    PrefixesBegin(key, "reply_");
    PrefixesBegin(key, "action_");
    PrefixesBegin(key, "split_");
    PrefixesBegin(key, "playbook_");
  }

  lemma PrefixesBegin(key: string, prefix: string)
    ensures HasPrefix(key, prefix) ==> key == prefix + key[|prefix|..]
  {
  }

  // ---- Columns ----

  /** Woken where it stands: due now, forgiven if it was parked, its error cleared,
      and nothing else about it changed but its context. */
  predicate IsWoken(before: Run, after: Run, at: int, gen: nat) {
    && after == before.(context := after.context, wake := Some(Stamp(at, gen)), status := Waiting, lastError := None,
                        attempts := if before.status == Parked then 0 else before.attempts)
  }

  predicate StandsOpen(row: Run, square: string) {
    row.status in {Waiting, Parked} && row.node == square
  }

  // ---- Letters ----

  /** What a reply leaves under a name. */
  function AfterReply(letter: Letter, square: string, answer: string, key: string, before: Option<Value>): Option<Value>
  {
    if key == "facts" then Some(Other("facts"))
    else if key == "latest_letter" && !letter.callReport then Some(Text(square))
    else if key == "cut_short_by" then Some(Text(letter.id))
    else if key == "reply_" + square then Some(Text(answer))
    else before
  }

  /** A reply is heard by an open run on its square, and by no other: its answer is
      recorded, the letter is marked as the one that cut the square short and, a
      call report aside, as the latest; and the run is woken. */
  lemma WhatAReplyWrites(plan: Plan, s: State, at: int, letter: Letter, square: string, answer: string)
    ensures var after := Next(plan, s, at, Reply(letter, square, answer));
            && after.trail == s.trail
            && if StandsOpen(s.row, square) then
                 IsWoken(s.row, after.row, at, s.nextGen)
                 && forall key ::
                      Lookup(after.row.context, key)
                      == AfterReply(letter, square, answer, key, Lookup(s.row.context, key))
               else after.row == s.row
  {
    assert s.trail + [] == s.trail;
    RepliesAreKeptApart(square);
    if StandsOpen(s.row, square) {
      forall key
        ensures Lookup(s.row.context + ReplyPatch(square, letter, answer) + map[FACTS_KEY := Other("facts")], key)
                == AfterReply(letter, square, answer, key, Lookup(s.row.context, key))
      {
      }
    }
  }

  lemma RepliesAreKeptApart(square: string)
    ensures ReplyKey(square) !in {"facts", "latest_letter", "cut_short_by"}
  {
    assert ReplyKey(square)[0] == 'r';
  }

  /** A refresh finds an open run on the square it names: the letter's facts are
      written over the run's own, the letter marked, and the run is woken. */
  lemma WhatARefreshWrites(plan: Plan, s: State, at: int, letter: Letter, square: string)
    ensures var after := Next(plan, s, at, Refresh(letter, square));
            && after.trail == s.trail
            && if StandsOpen(s.row, square) then
                 IsWoken(s.row, after.row, at, s.nextGen)
                 && forall key ::
                      Lookup(after.row.context, key)
                      == if key == "cut_short_by" then Some(Text(letter.id))
                         else OrElse(FactOf(letter, plan.maxChars, key), Lookup(s.row.context, key))
               else after.row == s.row
  {
    assert s.trail + [] == s.trail;
    if StandsOpen(s.row, square) {
      var marked := map[CUT_SHORT_BY_KEY := Text(letter.id)];
      forall key
        ensures Lookup(s.row.context + LetterFacts(letter, plan.maxChars) + marked, key)
                == if key == "cut_short_by" then Some(Text(letter.id))
                   else OrElse(FactOf(letter, plan.maxChars, key), Lookup(s.row.context, key))
      {
        FactsAreTheLetters(letter, plan.maxChars, key);
      }
    }
  }

  /** The letters a run has taken as repeats. */
  function RepeatsTaken(context: Context): seq<string> {
    match Lookup(context, "repeat_event_ids")
    case Some(Many(letters)) => letters
    case _ => []
  }

  /** What a repeat is offered under a name. */
  function Offered(letter: Letter, maxChars: nat, key: string): Option<Value> {
    if key == "phone" && letter.phone.Some? then Some(Text(letter.phone.value)) else FactOf(letter, maxChars, key)
  }

  ghost predicate OffersNothing(letter: Letter, maxChars: nat) {
    forall key :: Offered(letter, maxChars, key).None?
  }

  /** A repeat is sent when it would do something: slide an alarm, or write; and it
      matches a waiting run on the door's own square, or on any that the door
      re-arms, that this letter neither founded nor repeated before. */
  ghost predicate IsTakenAsRepeat(row: Run, letter: Letter, maxChars: nat, door: Door, policy: RepeatPlan) {
    && (door.debounce > 0 || policy == Accumulate || (policy != Ignore && !OffersNothing(letter, maxChars)))
    && row.status == Waiting && row.wake.Some? && (row.node == door.start || door.restartOnRepeat)
    && letter.id !in RepeatsTaken(row.context) && Lookup(row.context, "source_event_id") != Some(Text(letter.id))
  }

  /** What a repeat leaves under a name: its own mark; the newest facts, where they
      are to win; the list of repeats and its count, where they are kept. */
  function AfterRepeat(
    letter: Letter, maxChars: nat, policy: RepeatPlan, taken: seq<string>, key: string, before: Option<Value>)
    : Option<Value>
  {
    if key == "repeat_event_ids" then Some(Many(taken + [letter.id]))
    else
      match policy
      case Latest => OrElse(Offered(letter, maxChars, key), before)
      case Accumulate =>
        if key == "repeat_items" then Some(Other("items"))
        else if key == "repeat_count" then Some(Other("count"))
        else before
      case _ => before
  }

  /** Its alarm is never pulled forward: it is the later of the one stored and the
      debounce from now, and its stamp is new only when it moved. */
  predicate SlidesTo(before: Stamp, after: Stamp, at: int, debounce: int, gen: nat) {
    if debounce > 0 && at + debounce > before.due then after == Stamp(at + debounce, gen) else after == before
  }

  lemma NothingIsOfferedIff(letter: Letter, maxChars: nat)
    ensures RepeatFacts(letter, maxChars) == map[] <==> OffersNothing(letter, maxChars)
  {
    forall key ensures Lookup(RepeatFacts(letter, maxChars), key) == Offered(letter, maxChars, key) {
      FactsAreTheLetters(letter, maxChars, key);
    }
    if RepeatFacts(letter, maxChars) != map[] {
      var key :| key in RepeatFacts(letter, maxChars);
      assert Lookup(RepeatFacts(letter, maxChars), key).Some?;
    }
  }

  lemma RepeatsAreTakenIff(
    row: Run, letter: Letter, maxChars: nat, door: Door, policy: RepeatPlan, at: int, gen: nat)
    ensures var after := RepeatStatement(row, RepeatFacts(letter, maxChars), letter.id, door, policy, at, gen);
            && (after.Some? <==> IsTakenAsRepeat(row, letter, maxChars, door, policy))
            && (after.Some? ==>
                  && after.value.wake.Some? && SlidesTo(row.wake.value, after.value.wake.value, at, door.debounce, gen)
                  && after.value == row.(context := after.value.context, wake := after.value.wake, lastError := None)
                  && after.value.context
                     == RepeatContext(row.context, RepeatFacts(letter, maxChars), letter.id, policy))
  {
    NothingIsOfferedIff(letter, maxChars);
    assert RepeatsTaken(row.context) == RepeatEvents(row.context);
  }

  lemma RepeatsWriteTheirFacts(context: Context, letter: Letter, maxChars: nat, policy: RepeatPlan, key: string)
    ensures Lookup(RepeatContext(context, RepeatFacts(letter, maxChars), letter.id, policy), key)
            == AfterRepeat(letter, maxChars, policy, RepeatsTaken(context), key, Lookup(context, key))
  {
    FactsAreTheLetters(letter, maxChars, key);
    assert RepeatsTaken(context) == RepeatEvents(context);
  }

  /** What that comes to: nothing where it is not taken; else the alarm slid, the
      error cleared, the letter marked, its facts as the policy has them. */
  lemma WhatARepeatWrites(plan: Plan, s: State, at: int, letter: Letter, door: Door, policy: RepeatPlan)
    ensures var after := Next(plan, s, at, Repeat(letter, door, policy));
            && after.trail == s.trail
            && if IsTakenAsRepeat(s.row, letter, plan.maxChars, door, policy) then
                 && after.row.wake.Some?
                 && after.row == s.row.(context := after.row.context, wake := after.row.wake, lastError := None)
                 && SlidesTo(s.row.wake.value, after.row.wake.value, at, door.debounce, s.nextGen)
                 && forall key ::
                      Lookup(after.row.context, key)
                      == AfterRepeat(letter, plan.maxChars, policy, RepeatsTaken(s.row.context), key,
                                     Lookup(s.row.context, key))
               else after.row == s.row
  {
    assert s.trail + [] == s.trail;
    var facts := RepeatFacts(letter, plan.maxChars);
    RepeatsAreTakenIff(s.row, letter, plan.maxChars, door, policy, at, s.nextGen);
    forall key
      ensures Lookup(RepeatContext(s.row.context, facts, letter.id, policy), key)
              == AfterRepeat(letter, plan.maxChars, policy, RepeatsTaken(s.row.context), key,
                             Lookup(s.row.context, key))
    {
      RepeatsWriteTheirFacts(s.row.context, letter, plan.maxChars, policy, key);
    }
  }

  // ---- Goals, claims, revivals ----

  /** A goal's letter ends an open run, whoever holds it: for that reason, with what
      ended it on record, and nothing else of it changed. */
  lemma WhatAGoalWrites(plan: Plan, s: State, at: int, c: nat, letter: Letter, reason: string, isItsGoal: bool)
    ensures var after := Next(plan, s, at, GoalCancel(c, letter, reason, isItsGoal));
            if c in s.looks && isItsGoal && s.row.status != Exited then
              && after.row == s.row.(status := Exited, exitReason := Some(reason), wake := None,
                                     context := after.row.context)
              && forall key ::
                   Lookup(after.row.context, key)
                   == if key == "goal" then Some(Other("goal")) else Lookup(s.row.context, key)
            else after.row == s.row && after.trail == s.trail
  {
    assert s.trail + [] == s.trail;
  }

  /** A claim takes a lease of five minutes and counts itself; the walker holds the
      row as it then stands. */
  lemma WhatAClaimWrites(plan: Plan, s: State, at: int, w: nat)
    requires s.row.wake.Some?
    ensures var after := Next(plan, s, at, Claim(w));
            && after.row == s.row.(wake := Some(Stamp(at + 5 * 60_000_000, s.nextGen)), attempts := s.row.attempts + 1)
            && after.visits == s.visits[w := Seen(after.row, at)] && after.trail == s.trail
  {
  }

  lemma WhatARevivalWrites(plan: Plan, s: State, at: int)
    ensures var after := Next(plan, s, at, Revive);
            && after.trail == s.trail
            && if s.row.status == Parked then
                 after.row == s.row.(status := Waiting, wake := Some(Stamp(at, s.nextGen)), attempts := 0)
               else after.row == s.row
  {
    assert s.trail + [] == s.trail;
  }

  // ---- A visit ----

  /** The row a visit's move leaves, when it still holds the lease: moved on, with
      its counter and its error cleared, standing since it arrived, or since before
      if it never left; ended, keeping its square and context where the move says
      none; parked, saying why; or due again later, saying why. */
  predicate IsMoved(before: Run, after: Run, move: Move, at: int, gen: nat) {
    match move
    case Rests => after == before
    case Moved(node, wake, context, arrivedAt, _) =>
      after == before.(node := node, wake := Some(Stamp(wake, gen)), context := context, attempts := 0,
                       lastError := None, arrivedAt := if arrivedAt.Some? then arrivedAt else before.arrivedAt)
    case Exits(reason, node, context, _) =>
      after == before.(status := Exited, exitReason := Some(reason), wake := None,
                       node := if node.Some? then node.value else before.node,
                       context := if context.Some? then context.value else before.context)
    case Parks(reason) =>
      after == before.(status := Parked, wake := None, lastError := Some(WhyParked(reason)))
    case Retries(error, delay) =>
      after == before.(wake := Some(Stamp(at + delay, gen)), lastError := Some(error))
  }

  function WhyParked(reason: Reason): string {
    match reason
    case VersionMissing => "definition missing"
    case SquareMissing => "node not in definition"
    case ArrowIntoNowhere => "edge points at unknown node"
    case Runaway => "immediate nodes in one visit: runaway document"
    case Word(why) => why
    case Exhausted(error) => "attempts exhausted: " + error
  }

  /** A visit writes on the row its lease is still on, and on no other; and its
      squares are stored with that write or not at all. */
  lemma WhatAVisitWrites(
    plan: Plan, s: State, at: int, w: nat, status: Option<PlanStatus>, read: DocRead, world: World)
    requires w in s.visits && s.visits[w].run.wake.Some? && (s.row.wake.Some? ==> s.row.status == Waiting)
    ensures var after := Next(plan, s, at, Land(w, status, read, world));
            var move := WalkRun(s.visits[w].run, status, read, world);
            && after.visits == s.visits - {w}
            && if s.row.wake == s.visits[w].run.wake then
                 IsMoved(s.row, after.row, move, at, s.nextGen) && after.trail == s.trail + Trail.ClosedBy(move)
               else after.row == s.row && after.trail == s.trail
  {
    MovesMove(s, at, w, WalkRun(s.visits[w].run, status, read, world));
  }

  lemma MovesMove(s: State, at: int, w: nat, move: Move)
    requires w in s.visits && s.visits[w].run.wake.Some? && (s.row.wake.Some? ==> s.row.status == Waiting)
    ensures var after := Landed(s, at, w, move);
            && after.visits == s.visits - {w}
            && if s.row.wake == s.visits[w].run.wake then
                 IsMoved(s.row, after.row, move, at, s.nextGen) && after.trail == s.trail + Trail.ClosedBy(move)
               else after.row == s.row && after.trail == s.trail
  {
    assert s.trail + [] == s.trail;
  }

  // ---- Enrolment ----

  /** What a new run carries under a name. */
  function Founded(letter: Letter, happened: string, maxChars: nat, key: string): Option<Value> {
    if key == "entered_event_at" then Some(Text(happened))
    else if key == "source_event_id" then Some(Text(letter.id))
    else Offered(letter, maxChars, key)
  }

  /** A run begins on its door's square, waiting for that square's alarm, or due at
      once where the square acts; with the letter's facts and the letter's mark. */
  lemma WhatAnEnrolmentWrites(plan: Plan, id: string, version: nat, letter: Letter, happened: string, now: int)
    ensures var row := Enrolled(plan, id, version, letter, happened, now).row;
            && row.node == plan.door.start && row.status == Waiting && row.attempts == 0
            && row.entered == now && row.arrivedAt == Some(now) && row.lastError.None? && row.exitReason.None?
            && row.wake.Some?
            && (forall key :: Lookup(row.context, key) == Founded(letter, happened, plan.maxChars, key))
            && match NodeNamed(plan.doc.nodes, plan.door.start)
               case None => row.wake.value.due == now
               case Some(node) =>
                 if node.kind == Wait then RingsAt(node, now, now + plan.doc.maxAge, row.wake.value.due)
                 else row.wake.value.due == now
  {
    var start := NodeNamed(plan.doc.nodes, plan.door.start);
    if start.Some? {
      AlarmsRing(start.value, now, now + plan.doc.maxAge);
    }
    forall key
      ensures Lookup(FoundingContext(letter, happened, plan.maxChars), key)
              == Founded(letter, happened, plan.maxChars, key)
    {
      FactsAreTheLetters(letter, plan.maxChars, key);
    }
  }
}
