# Outreach, identity and report: a verified model

A Dafny model of the parts of the repository whose promises span several
functions, with proofs that the promises hold for every input, every schedule
or every sequence of calls. Where a promise fails, the code is kept as it is,
a concrete input shows the failure, and the exact condition under which the
promise holds is proved.

Verify everything with `dafny verify dfyconfig.toml`.

## What is modelled

**The outreach engine** (`app/crm/outreach`). A plan is a graph of squares and a
run is a token on one square.

- `Window`, `Board`: the calling window and the alarm arithmetic on a
  fixed-offset clock; the document and the choice of an arrow.
- `Steps`, `Walker`, `Trail`, `Clocks`: the rows of closed squares, one visit as a
  loop of turns under one claim, what a visit adds to the trail, and what a clock
  that runs backwards does to it.
- `Entry`, `Lease`, `RunHistory`, `RunTheorems`: what a letter may write; the run
  row under several walkers, the event consumer and an operator at once, with
  the conditional statements of `db/queries/enrollment.py`; the invariant every
  event keeps; and the theorems over whole schedules.
- `Words`, `Statements`: what a visit writes over any walk, told by the words of its
  squares and the arrows it took; and what every other statement leaves on the row,
  key by key and column by column.
- `Retries`, `RepeatTheorems`: what the attempt counter counts and when a failure
  parks a run; when a repeat outlives a visit, and when it is taken twice.
- `Repins`: the trail of a run whose document changes under it.
- `Consumer`, `ConsumerTheorems`, `ConsumerOutcomes`: one letter against one open
  run, goals then squares then doors, each statement on its own with other writers
  between them; which statements match, and when the letter is lost, taken once or
  taken twice.
- `Counterexamples`: lawful schedules on a lawful plan on which a promise fails.
- `Plans`, `Purposes`, `EntryMeaning`, `WindowSafety`, `Versions`, `VersionHistory`:
  the publish validator with its breadth-first search, and what its laws are for;
  the comparison of two entries; the calling hours as validator plus walker; the
  publish and migrate transactions, and the history of the plan they move.
- `Ladder`, `LadderSquares`, `LadderLaws`, `LadderRefinement`, `LadderLives`: the
  funnel compiler, what each compiled square carries, the laws its output obeys, the
  proof that walking the output is walking the funnel, and so how long a run can
  live on it.
- `Definitions`: the document cache as a least-recently-used view of a table.
- `Playbook`, `PlaybookSpoken`: picking a row, filling its lines, resolving blocks,
  and what is then said.

**Identity** (`app/crm/identity`). `Claims`, `Resolve` and `ResolveTheorems`: the probe,
decide, apply merge of customers by shared handles, over the table of migration
049. `Facts`, `FactsOnRecord` and `FactsTheorems`: the append-only claim history, what
is recorded in it, and the columns that cache its winners.

**The day report** (`app/crm/outreach/analytics.py`). `Tallies`, `Report`,
`ReportMeaning`, `ReportLaws`, `ReportCallLaws`, `CallSummary`: dictionaries of
counters updated in loops, which runs each number counts, and what they add up to.

**The in-flight gauge** (`dragontts/app`). `Inflight`: the middleware's closures as
steps of interleaved requests, and the shutdown wait.

Loops are methods with invariants, proved equal to specification functions; the
laws are lemmas about those functions. Stored rows, the cache and the gauge are
classes whose fields the methods update.

## Where the code and its description part

In each case the model follows the code.

- A visit's write is said to miss whenever an event-side writer touched the run,
  because each moves `wake_at` (walker.py:108-115). A repeat moves it only when its
  debounce outlasts the stored alarm, so a shorter one, or one with no debounce, is
  overwritten by a visit in flight that writes its context
  (`RepeatSurvivesAVisitIff`) and its redelivery is taken again
  (`ALostRepeatIsTakenTwice`).
- Only consecutive failures are said to park a run (db/queries/enrollment.py:241-242).
  The counter counts claims, and a visit deferred by a letter keeps its claim, so a
  first failure can park a run (`AFailureParksIffTheClaimsAreSpent`, `AFirstFailureParks`).
- A goal-cancel carries the closing row so that a converted run keeps its final
  square (entry.py:219-226); its statement grants that the row may be lost in a rare
  race (db/queries/enrollment.py:506-508). `GoalCancelClosesIffItsReadIsCurrent`
  says exactly when.
- A letter a square answered is said never to be a repeat too (entry.py:115-117), and
  a reply to a square the token is not on to change nothing (entry.py:258-261). Each
  statement meets the row as it is by then, but the repeat is refused by the row as
  it was read: `AnAnswerIsARepeatTooIff` and `AnAnswerIsLostIff` are the two ways a
  walker in between changes what the letter does, and one that moves the run between
  two replies lets it answer twice (`OneMoveDecides`).
- A closed square is filed under the version its row carries when it is written, so a
  migrate publish under a visit in flight can record a square beside a document
  without its arrow (`ARepinMidVisitMisfilesIff`).
- The calling hours rest on no answer spelling `timeout`: publish does not forbid a
  letter that does (`ATimeoutAnswerDialsAtAnyHour`).
- The reserved period is measured from today's opening only
  (`ReservedPeriodIsHonouredIffItEndsByMidnight`).
- A migrate publish is said to refuse an entry that means something different
  (plans.py:266-279). Neither the words shared by all doors nor the first square an
  object entry starts on are part of the comparison (`ComparisonIsExactIff`).
- A stapled customer's freed handles are said to attach to the survivor
  (resolve.py:20-23). Only those in the payload do (`LosersHandleLivesOnIff`), and one
  that does not makes a second customer of the same person the next time it comes
  alone (`AStrandedHandleMakesANewCustomer`).
- Ties between claims are said to break to the newest (facts.py:70). Between two of
  one class at one instant the first appended wins (`WinnerIsTheFirstOfTheBest`).

## Model

| member | source | states |
|---|---|---|
| `Window.InsideIsOpen` | app/crm/outreach/window.py:29-57 | The branch `opens_at` takes (clock reading against `opens`/`closes`, plain or spanning midnight) says yes exactly when some day's hours, as instants, hold `at`. |
| `Window.OpensAtIsTheNextOpenInstant` | app/crm/outreach/window.py:29-57 | On a fixed offset `opens_at` is the least open instant not before `at`, and less than a day away. |
| `Window.OpensAtIsIdempotent` | app/crm/outreach/window.py:29-57 | Asking again at the answer changes nothing. |
| `Window.WindowedAlarmFallsInTheHours` | app/crm/outreach/window.py:63-90 | A windowed wait's alarm is the first open instant at or after the duration it asked for, reserved minutes included. |
| `Window.ListeningForLifeOutlivesTheRun` | app/crm/outreach/window.py:60-90 | A claim at the alarm of a listening wait with no minutes finds a run older than its maximum age, so that visit times it out. |
| `Window.ReservedPeriodIsHonouredIffItEndsByMidnight` | app/crm/outreach/window.py:93-106 | The reserved-period test is right at every instant if and only if the window opens at midnight or the reserved minutes end by midnight; otherwise some instant is in the period and is not recognised. |
| `Board.Outgoing` | app/crm/outreach/schemas.py:607-614 | The adjacency table built by the loop lists, for each source, its arrows in document order, and holds no other key. |
| `Plans.LawfulArrowsAreTakenByLabel` | app/crm/outreach/walker.py:519-537 | On lawful arrows the choice does not depend on their order: a branching square is left by the arrow its answer names (the timer's when nobody answered), else by its `else` arrow, else not at all; any other by its only arrow. |
| `Walker.Verdict` | app/crm/outreach/walker.py:252-306 | The goal re-check's verdict is the first askable tier in judging order whose letter exists, and none exactly when no askable tier has one. |
| `Walker.KeyedTiersWin` | app/crm/outreach/schemas.py:599-605 | A keyed tier that holds is always preferred to an unkeyed one, whatever their order in the document. |
| `Board.TiersKeepTheirOrder` | app/crm/outreach/schemas.py:599-605 | Among the keyed tiers, and among the others, document order is kept. |
| `Walker.JudgeGoals` | app/crm/outreach/walker.py:252-306 | The tier loop, with its skips for missing keys, returns exactly that verdict's exit reason. |
| `Walker.WalkTheBoard` | app/crm/outreach/walker.py:308-499 | At most ten turns under one claim, then the runaway park, as the recursive walk defines it. |
| `Walker.NothingActsOnAFinishedRun` | app/crm/outreach/walker.py:103-306 | On an archived or paused plan, past the age ceiling or with a goal met, a visit only rests or ends the run, and what it does is the same whatever the squares' words would have done: none of them is asked. |
| `Trail.TurningKeepsTheTrail` | app/crm/outreach/walker.py:320-495 | One turn of the loop keeps the visit's buffer a gapless walk over the document's arrows from the square the run was claimed on; if the turn writes, what it writes ends where the buffer leads. |
| `Clocks.AWalkIsGaplessIffTheClockHeld` | app/crm/outreach/steps.py:152-209 | On a clock that may run backwards a row's exit is clamped to its entry. The rows of a whole walk are then gapless if and only if the clock did not fall over any square but the last, and they lead up to the instant the run is stored to stand since if and only if it did not fall over that one either. |
| `Words.EveryVisitTellsItsWords` | app/crm/outreach/walker.py:308-499 | The board's part of a visit, told square by square without the loop: each square acted on the context the one before it left, its word's patch was written and its answer spent, its arrow was the one its answer names, and its row says where, how and after what; what is written is what the last square left, with the alarm its wait asks for; and when nothing is written, it is for the reason given. |
| `Words.EveryVisitOverlaysItsPatches` | app/crm/outreach/walker.py:398-415 | Name by name, the context a walk writes is the run's, overlaid by what each word wrote in walking order, with every answer spent by the square it resolved. |
| `Words.TheLastWordStands` | app/crm/outreach/walker.py:398-415 | A name no square spends holds what the last word to write it wrote. |
| `Words.ATurnTellsItsWord` | app/crm/outreach/walker.py:398-415 | One turn whose word wrote a patch hands on, or writes, every value of it but the outcome and the square's own spent answer, and every other value as it was. |
| `Words.AnAnswerTakesItsArrow` | app/crm/outreach/walker.py:519-537 | A branching square whose word answers is left along the one arrow that answer labels. |
| `Words.TheArrowIsTheAnswers` | app/crm/outreach/walker.py:519-537 | Whatever a square holds and its word writes, it is left along the arrow of the answer it is left with, the timer's when there is none, else the else arrow, else nowhere. |
| `Words.AlarmsRing` | app/crm/outreach/window.py:63-90 | A wait's alarm is when it asked, or the first open instant from then on; what it asks is its own minutes with the reserved ones, the run's life and a minute, or no time at all. |
| `Words.ClosingsClose` | app/crm/outreach/steps.py:212-250 | A run ended without a walk closes its square now, for that reason, naming the letter; there is no row exactly when there is no document, no arrival or no such square. |
| `Words.EveryVisitHasItsReason` | app/crm/outreach/walker.py:234-306 | Too old, a visit times the run out; else the first tier that can be asked and holds ends it for its reason; else the board is walked. |
| `Words.EveryClaimHasItsReason` | app/crm/outreach/walker.py:103-212 | An archived plan ejects, a paused one rests, a missing version parks; a defect parks with its reason, and a failure is retried until the third claim, then parks. |
| `Trail.LeavingKeepsTheTrail` | app/crm/outreach/walker.py:408-495 | Closing a square extends the visit's gapless, arrow-following buffer by one row that leads to the next square. |
| `Trail.EveryVisitContinuesTheTrail` | app/crm/outreach/walker.py:103-499 | Whatever a visit writes (advance, hold, completion, goal, timeout, ejection), its rows continue the run's trail from the square and the instant the claim found it at. |
| `Trail.ClosingFits` | app/crm/outreach/steps.py:212-250 | The row an exit without a walk writes closes the square the run was read on and leads nowhere. |
| `Trail.EveryVisitSpendsItsAnswers` | app/crm/outreach/walker.py:402-415 | Every visit that leaves the run open writes it back with no answer in its context. |
| `Entry.LettersPlantNoAnswers` | app/crm/outreach/entry.py:489-511 | No payload or declared variable can write a reply key, through enrolment, a reply's facts or a repeat. |
| `Entry.ReplyAnswersItsOwnSquare` | app/crm/outreach/entry.py:363-379 | The patch of a heard letter holds exactly one answer: the hearing square's. |
| `Statements.FactsAreTheLetters` | app/crm/outreach/entry.py:489-511 | What a letter says under a name is what the catalog declared, else what its payload says, when it is short enough and the name is not the walker's. |
| `Statements.TheWalkersNamesAreClosed` | app/crm/outreach/entry.py:489-511 | Every name the walker keeps on a run is closed to producers. |
| `Statements.ProducersNamesAreOpen` | app/crm/outreach/entry.py:489-511 | ... and no other name is. |
| `Statements.WhatAnEnrolmentWrites` | app/crm/outreach/enrol.py:85-94 | A run begins on its door's square with the letter's facts and marks, waiting for that square's alarm, or due at once where the square acts. |
| `Statements.WhatAReplyWrites` | app/crm/outreach/db/queries/enrollment.py:372-418 | A reply is heard by an open run on its square and by no other: the answer, the letter's mark and, a call report aside, the latest square are written and nothing else; the run is due now, forgiven if it was parked. |
| `Statements.WhatARefreshWrites` | app/crm/outreach/db/queries/enrollment.py:421-460 | A refresh writes the letter's facts over an open run's own on the square it names, marks the letter, and wakes the run. |
| `Statements.WhatARepeatWrites` | app/crm/outreach/db/queries/enrollment.py:547-631 | A repeat is taken exactly under its guards; it marks its letter, writes its facts as the policy has them, and never pulls the alarm forward: the alarm is the later of the stored one and the debounce from now. |
| `Statements.WhatAGoalWrites` | app/crm/outreach/db/queries/enrollment.py:463-544 | A goal ends an open run for its reason, whoever holds it, with the goal on record. |
| `Statements.WhatAClaimWrites` | app/crm/outreach/db/queries/enrollment.py:203-229 | A claim leases the run for five minutes, counts itself, and sees the row so. |
| `Statements.WhatARevivalWrites` | app/crm/outreach/db/queries/enrollment.py:942-958 | A revival wakes a parked run with its counter cleared, and leaves any other. |
| `Statements.WhatAVisitWrites` | app/crm/outreach/db/queries/enrollment.py:232-369 | Column by column, what each kind of move leaves on the row that still carries its lease, with its squares; nothing on any other. |
| `RunHistory.EnrolmentFits` | app/crm/outreach/enrol.py:85-94 | A run as it is enrolled satisfies the protocol's invariant. |
| `RunHistory.LandedKeepsTrail` | app/crm/outreach/walker.py:215-231 | A visit's one conditional write keeps the trail whole, whatever it decided and whether or not it lands. |
| `RunHistory.GoalCancelKeepsTrail` | app/crm/outreach/entry.py:188-245 | So does the event side's goal-cancel, made from a row read earlier. |
| `RunHistory.InPlaceWriteKeepsTrail` | app/crm/outreach/db/queries/enrollment.py:372-460 | So does every write that leaves the token where it is: a reply, a refresh, a repeat, a revival. |
| `RunHistory.StepKeepsTrail` | app/crm/outreach/walker.py:103-212 | Every event of the protocol keeps the trail invariant, provided a visit walked arrows of the plan's. |
| `RunHistory.ReplyKeepsAnswers` | app/crm/outreach/db/queries/enrollment.py:372-418 | After a reply, too, an open run and every run in a walker's hands holds no answer but its own square's. |
| `RunHistory.RefreshKeepsAnswers` | app/crm/outreach/db/queries/enrollment.py:421-460 | So after a refresh of the facts in place. |
| `RunHistory.RepeatKeepsAnswers` | app/crm/outreach/db/queries/enrollment.py:547-631 | So after a repeat's patch. |
| `RunHistory.LandingKeepsAnswers` | app/crm/outreach/walker.py:402-415 | So after a visit, whether or not its write lands. |
| `RunHistory.StepKeepsInv` | app/crm/outreach/walker.py:103-212 | Every event of the protocol keeps the invariant: claims, visits, crashes, replies, refreshes, goal-cancels, repeats, revivals. |
| `RunHistory.ScheduleKeepsInv` | app/crm/outreach/walker.py:103-212 | ... and so does any schedule of them. |
| `RunTheorems.ReachableStatesFit` | app/crm/outreach/walker.py:103-212 | Every state reachable from an enrolment, by any interleaving of walkers and event-side writers, satisfies the invariant. |
| `RunTheorems.TimelineIsTheWholePath` | app/crm/outreach/steps.py:253-300 | In every reachable state the timeline is the run's whole path: from the door's square, each line ending where and when the next begins along an arrow of its document, the open square last; an exited run's ends with the closing row or, if that row was lost, one short of it. |
| `RunTheorems.ExitedRunsNeverChange` | app/crm/outreach/walker.py:215-231 | After an exit no later event of any kind changes the row or the trail. |
| `RunTheorems.SpentLeasesStaySpent` | app/crm/outreach/walker.py:81-100 | A replaced `wake_at` never comes back, so an old lease never matches again. |
| `RunTheorems.LeaseHoldsIffNobodyRearmed` | app/crm/outreach/walker.py:103-115 | The row still carries a lease if and only if no event since stored another `wake_at`. |
| `RunTheorems.VisitLandsIffNobodyRearmed` | app/crm/outreach/walker.py:222-231 | A visit's write lands, with its closed squares and a new stamp, if and only if nothing re-armed the run since its claim; otherwise row and trail are exactly what the others left. |
| `RunTheorems.NoMoveNoSquares` | app/crm/outreach/walker.py:160-212 | A parked, retried or deferred visit writes none of the squares it had closed. |
| `RunTheorems.EveryTakenWriteRearmsButAShortRepeat` | app/crm/outreach/db/queries/enrollment.py:547-631 | Every write that takes effect on an armed run stores a new `wake_at`, except a repeat whose debounce does not outlast the stored alarm. |
| `RunTheorems.GoalCancelClosesIffItsReadIsCurrent` | app/crm/outreach/entry.py:215-245 | A goal-cancel always ends the run, and closes its last square if and only if the row that was read still stands on that square since that instant. |
| `RunTheorems.StaleAnswersNeverResolveARevisit` | app/crm/outreach/walker.py:402-415 | In every reachable state the only answer an open run holds is its own square's, and every visit writes it back without one. |
| `Retries.AttemptsCountClaims` | app/crm/outreach/db/queries/enrollment.py:203-229 | Over any schedule the attempt counter is the number of claims since the run was last forgiven (an advance that landed, a letter that un-parked it, a revival), however each claim ended. |
| `Retries.AFailureParksIffTheClaimsAreSpent` | app/crm/outreach/walker.py:189-212 | A failing visit parks its run if and only if this is at least the third such claim; otherwise it is retried after the delay, its counter standing. |
| `Retries.ADeferredVisitSpendsAnAttempt` | app/crm/outreach/walker.py:222-231 | A letter taken mid-visit defers the visit whatever it decided, and the claim still counts. |
| `RepeatTheorems.RepeatSurvivesAVisitIff` | app/crm/outreach/db/queries/enrollment.py:547-631 | A repeat is taken while a visit is in flight, and then the visit writes, whatever it decided: the letter's mark is still on the row if and only if its debounce outlasts the lease or the visit writes no context (it rests, parks, is retried, or ends the run without a walk). |
| `RepeatTheorems.AShortRepeatLeavesNoTrace` | app/crm/outreach/walker.py:108-115 | When the visit moves the run, the row is what it would have been without the letter if and only if the debounce does not outlast the lease. |
| `RepeatTheorems.ALostRepeatIsTakenTwice` | app/crm/outreach/repeat.py:143-178 | ... and then a redelivery of the same letter is taken again: the mark that should have refused it went with the repeat. |
| `RepeatTheorems.RepeatsAreTakenOnce` | app/crm/outreach/repeat.py:143-178 | Left alone, a repeat's mark refuses every redelivery. |
| `RepeatTheorems.TheFoundingLetterIsNeverARepeat` | app/crm/outreach/db/queries/enrollment.py:577-584 | Over any schedule, a run's own founding letter, delivered again at any point of its life, is never taken as its repeat. |
| `RepeatTheorems.VisitsKeepTheMarks` | app/crm/outreach/walker.py:402-415 | Whatever context a visit writes carries the marks of the run it claimed: words, holds and leaving touch neither the founding letter's nor the repeats'. |
| `Repins.TrailsSurviveRepins` | app/crm/outreach/db/queries/enrollment.py:31-80 | With re-pins among the events, at any instant, the trail stays one gapless path from the door to where the run stands, and each row's arrow is one of the document its visit walked. |
| `Repins.RecordedVersionsAreTrue` | app/crm/outreach/db/queries/step.py:34-56 | While no re-pin falls on a run a walker holds, each row's arrow is an arrow of the version recorded beside it. |
| `Repins.EveryRunIsFiled` | app/crm/outreach/db/queries/step.py:34-56 | Both from the door on, for every run and history, with nothing else assumed. |
| `Repins.ARepinMidVisitMisfilesIff` | app/crm/outreach/db/queries/step.py:34-56 | A re-pin between a visit's claim and its write files the visit's rows under the new version: the record is true if and only if the new document has their arrows too. |
| `Repins.ARepinKeepsAnAnswerSpentIff` | app/crm/outreach/db/queries/enrollment.py:31-44 | After a re-pin the answer a run holds is still one its square will spend if and only if the run holds none or its square branches in the new document. |
| `Consumer.CancelInTurn` | app/crm/outreach/entry.py:188-245 | The tier loop sends one goal-cancel for each tier that applies, in judging order, until one of them matches the row it finds; other writers act between any two. |
| `Consumer.WakeOnReply` | app/crm/outreach/entry.py:248-360 | The loop sends one reply for each square that answers, in document order, and then the refresh of a square that hears nothing; other writers act between any two. |
| `ConsumerTheorems.APassIsASchedule` | app/crm/outreach/db/accessors/enrollment.py:263-290 | A pass of the consumer, each statement on its own and any lawful events between them, is a schedule of the protocol; so what is proved of every schedule holds of it, the invariant first. |
| `ConsumerTheorems.EveryStatementIsCalledFor` | app/crm/outreach/entry.py:188-458 | Which statements a pass sends: a cancel for each tier that applies; a reply for each square that would answer, and a refresh of the square the run was read on when that hears nothing and the letter is no report, unless it was addressed elsewhere; a repeat unless the run was read on a square that would answer it. |
| `ConsumerTheorems.AnAnswerIsTakenIff` | app/crm/outreach/entry.py:289-333 | Of the squares a letter answers, each takes it if and only if the run stands on it, open, as its own statement arrives. |
| `ConsumerTheorems.AnswersFollowMoves` | app/crm/outreach/entry.py:289-333 | The letter is taken by at most one square more than the token moves while it is asked. |
| `ConsumerTheorems.OnlyVisitsMoveTheToken` | app/crm/outreach/walker.py:215-231 | Only a visit that lands under its lease moves the token, so each further answer costs one. |
| `ConsumerTheorems.AStillRunHearsOnce` | app/crm/outreach/entry.py:258-261 | While the run stands still only its own square takes the letter, and takes it once. |
| `ConsumerTheorems.OneMoveDecides` | app/crm/outreach/entry.py:289-333 | If the token moves once during the pass, each of the two squares takes the letter exactly if document order asks it while the run is there: so twice, once or not at all. |
| `ConsumerOutcomes.AGoalEndsTheRunAndWakesNothing` | app/crm/outreach/entry.py:113-118 | A letter's goal ends the run if and only if some tier that applies is met and finds the run open; then nothing else of the letter is sent, and otherwise it ends nothing. |
| `ConsumerOutcomes.AnAnswerIsLostIff` | app/crm/outreach/entry.py:424-458 | A letter that the square it was read on answers leaves nothing, neither an answer nor a repeat, if and only if no square that answers it is asked while the run stands on it, open. |
| `ConsumerOutcomes.AnAnswerIsARepeatTooIff` | app/crm/outreach/entry.py:424-458 | A letter is both answer and repeat if and only if some square that answers it is asked while the run stands there, the square the run was read on does not answer it, and the repeat's guards let it in when its turn comes. |
| `ConsumerOutcomes.ATrueLookIsTakenOnce` | app/crm/outreach/entry.py:424-458 | While the run stays where it was read the letter is not both, and an answer there is taken, once. |
| `ConsumerOutcomes.AReplyStoresItsAnswer` | app/crm/outreach/db/queries/enrollment.py:372-418 | A reply that matches stores its answer, wakes the run now and un-parks it. |
| `ConsumerOutcomes.AnUndisturbedLetter` | app/crm/outreach/entry.py:100-185 | With nobody else writing, a look that is still true and no goal met, all that a letter does is fixed beforehand: its own square's answer alone; or, from a square that hears nothing, the refresh; and then, unless it answered, the repeat, on the same square, which a parked run takes only because the refresh un-parked it. |
| `Counterexamples.ARepeatIsLost` | app/crm/outreach/db/queries/enrollment.py:609-611 | On a lawful plan, a lawful schedule: a repeat is taken mid-visit, the visit advances and the mark is gone, and the redelivered letter is taken again. |
| `Counterexamples.ALetterAnswersTwice` | app/crm/outreach/entry.py:289-333 | On the same plan one letter is answered on one square, the walker it woke moves the run, and it is answered on the next square too. |
| `Counterexamples.AnAnswerIsARepeatToo` | app/crm/outreach/entry.py:424-458 | Read on one square and moved to the next before the first statement, the run takes one letter as an answer and then as a repeat that pushes its alarm back. |
| `Counterexamples.AnAnswerIsLost` | app/crm/outreach/entry.py:424-458 | Read on the square that answers and moved on before it is asked, the run takes nothing of the letter. |
| `Counterexamples.AClosingRowIsLost` | app/crm/outreach/entry.py:215-245 | A lawful schedule: read, moved on by its walker, then ended by a goal; the square it ended on is never closed. |
| `Counterexamples.AFirstFailureParks` | app/crm/outreach/walker.py:189-212 | A lawful schedule: two visits deferred by letters and then one failure, the run's first, which parks it. |
| `Counterexamples.AStepIsMisfiled` | app/crm/outreach/db/queries/step.py:34-56 | Two lawful documents and a migrate publish between a visit's claim and its write: the square it left is recorded under a version with no arrow out of it. |
| `Plans.CallReachedWithoutWaiting` | app/crm/outreach/plans.py:244-263 | The breadth-first search terminates on every graph, returns a call reachable through squares that do not wait when there is one, and nothing exactly when there is none. |
| `Plans.CheckHours` | app/crm/outreach/plans.py:215-241 | A windowed square draws no problem if and only if none of its letter arrows reaches a call without waiting. |
| `Plans.ValidateDefinition` | app/crm/outreach/plans.py:43-212 | No problem is reported if and only if the document obeys every law modelled: squares, doors, goals, arrows, labels, hours and, under migrate, the runs in flight. |
| `Plans.ValidateMigration` | app/crm/outreach/plans.py:298-333 | No problem if and only if every occupied square exists in the target and, when any is occupied, the doors are the same. |
| `Purposes.ALawfulWaitIsWaitedOn` | app/crm/outreach/plans.py:43-120 | On a lawful document the token rests on every wait it reaches, except one that only asks for hours that are open. |
| `Purposes.ARestartDoorAlwaysActs` | app/crm/outreach/plans.py:120-212 | By a lawful door that re-arms, a new letter for a waiting run is always taken, and its alarm is then at least the debounce away. |
| `Purposes.ASlidingDoorHasAnAlarm` | app/crm/outreach/plans.py:120-212 | A lawful door that slides an alarm lets a run in onto a wait, which has one. |
| `Purposes.OneDoorALetter` | app/crm/outreach/plans.py:120-212 | A letter finds one door of a plan. |
| `Purposes.SameDoorsAdmitTheSame` | app/crm/outreach/plans.py:266-295 | Lawful documents have the same doors exactly when each letter finds the same door in both. |
| `Purposes.AnExitNamesItsGoal` | app/crm/outreach/plans.py:120-212 | On lawful goals a visit ends a run for a goal's reason exactly when that tier was the first to hold. |
| `EntryMeaning.EntryChanged` | app/crm/outreach/plans.py:266-295 | The comparison the code makes: the doors, spelled out with defaults, whatever their order. |
| `EntryMeaning.SquaresGoUnread` | app/crm/outreach/schemas.py:579-585 | Where the doors' squares are not what is compared (two objects over different first squares, or an object beside a list), two entries that differ in nothing else are answered wrong. |
| `EntryMeaning.AMovedFirstSquareGoesUnread` | app/crm/outreach/plans.py:284-295 | One object entry over two documents whose first squares differ admits onto different squares and compares as unchanged. |
| `EntryMeaning.SharedWordsGoUnread` | app/crm/outreach/plans.py:284-295 | Where the squares are compared, two documents whose shared admission words differ can admit differently and still compare as unchanged. |
| `EntryMeaning.MovedWordsReadAsChanged` | app/crm/outreach/schemas.py:561-578 | Where the shared words agree but are not the defaults, a word moved onto its door admits the same and compares as changed. |
| `EntryMeaning.ComparisonIsExactIff` | app/crm/outreach/plans.py:266-295 | For each spelling of the two entries, the comparison answers whether the entry means something else, for all entries so spelled, if and only if no shared word but its default is said and the squares are compared (two lists; two objects over one first square; an object that names its first square beside a list), or the two objects differ in every case. |
| `WindowSafety.NoCallIsPlacedOutsideItsWindow` | app/crm/outreach/walker.py:334-375 | On a document that passes the hours law, with no answer spelling the timer's word, a visit that leaves a windowed square and reaches a call before another wait left by the timer, at an instant inside that window. |
| `WindowSafety.ATimeoutAnswerDialsAtAnyHour` | app/crm/outreach/walker.py:334-375 | The converse: on any board, a listening windowed square that holds the answer `timeout` and whose timer arrow leads to a call walks straight onto it and places it, at whatever hour the visit comes. |
| `WindowSafety.ALetterSayingTimeoutDialsAtNight` | app/crm/outreach/walker.py:519-537 | A board that obeys every law, a letter answering `timeout`, and a call at midnight. |
| `Versions.PlanStore.OccupiedNodes` | app/crm/outreach/db/queries/enrollment.py:47-113 | The squares listed are exactly those open runs stand on, of one version or of the plan. |
| `Versions.PlanStore.Publish` | app/crm/outreach/plans.py:377-451 | The publish atom: refused exactly when the draft is not publishable over the occupied squares, else one new version, every open run re-pinned under migrate and none under pin. |
| `Versions.PlanStore.MigrateForward` | app/crm/outreach/versions.py:58-107 | Moves every open run of one version, or none: exactly when the versions differ, both exist and the stranding laws hold. |
| `Versions.VisitsStrandNobody` | app/crm/outreach/walker.py:320-332 | A visit on a lawful document leaves the run on a square of that document. |
| `Versions.NoRunIsEverStranded` | app/crm/outreach/versions.py:58-107 | Over any sequence of publishes, migrations, enrolments and uninterrupted visits, every open run's square exists in the document its pin names, and no visit parks for a missing square or an arrow into nowhere. |
| `VersionHistory.WhatAPublishDoes` | app/crm/outreach/plans.py:377-451 | A publish adds one version and changes no other; under migrate every open run executes the draft and is otherwise as it was; under pin, and of ended runs, none is touched. |
| `VersionHistory.WhatAMigrationDoes` | app/crm/outreach/versions.py:58-107 | A migration moves the open runs of one version onto the other, and nothing else. |
| `VersionHistory.WhatAnEnrolmentDoes` | app/crm/outreach/enrol.py:85-94 | An enrolment adds one run, on its door's square and its version, and touches no other. |
| `VersionHistory.TheRecordStands` | app/crm/outreach/db/queries/enrollment.py:31-80 | Over any history no published document changes, and an ended run keeps the version it ended under. |
| `Versions.ARepinMidVisitStrandsIffTheSquareIsGone` | app/crm/outreach/versions.py:65-69 | A re-pin between a visit's read and its write strands the run if and only if the square it advances onto is not in the new document. |
| `Ladder.SlugsAreSlugs` | app/crm/outreach/ladder.py:63-66 | A slug holds only lower-case letters, digits and single inner dashes. |
| `Ladder.SlugsAreStable` | app/crm/outreach/ladder.py:63-66 | A slug is its own slug. |
| `Ladder.NamesAreClear` | app/crm/outreach/ladder.py:108-119 | The name check passes exactly when every stage has a slug and no two share one. |
| `Ladder.BuildBoard` | app/crm/outreach/ladder.py:100-158 | The stage loop draws exactly the board the specification describes, or refuses exactly when two stages cannot be told apart. |
| `Ladder.ExpansionIsIdempotent` | app/crm/outreach/ladder.py:69-97 | Expanding an expanded document changes nothing, and a ladder is its own stored form exactly when its board is beside it. |
| `LadderLaws.IdsAreDistinct` | app/crm/outreach/ladder.py:120-156 | All square ids are distinct, across the three prefixes and any number of stages. |
| `LadderLaws.BoardArrows` | app/crm/outreach/ladder.py:120-156 | What leaves each of a stage's three squares on the whole board: later stages' letters, then the timer; one plain arrow; later stages' letters again. |
| `LadderLaws.LadderIsLawfulIffNoTopicIsTimeout` | app/crm/outreach/ladder.py:100-158 | The compiled document obeys every law of the board if and only if no stage after the first is named by the timer's word. |
| `LadderLaws.LadderSizes` | app/crm/outreach/ladder.py:100-158 | n stages compile to 3n - 1 squares and n*n + n - 1 arrows. |
| `LadderRefinement.EveryVisitAdvances` | app/crm/outreach/ladder.py:1-30 | Each step of the funnel machine raises its rank by at least the squares the visit closes, up to 3n - 1. |
| `LadderRefinement.ALifeIsShort` | app/crm/outreach/ladder.py:1-30 | A run closes at most 3n - 1 squares in its whole life, and any 3n - 1 signals end it. |
| `LadderRefinement.LetterVisit` | app/crm/outreach/ladder.py:120-156 | A later stage's letter, heard on either wait, moves the run to that stage and closes one square. |
| `LadderRefinement.SilenceOnAStage` | app/crm/outreach/ladder.py:120-156 | Silence on a stage acts and then listens, or, on the last stage, completes; two squares close. |
| `LadderRefinement.SilenceAfterTheAction` | app/crm/outreach/ladder.py:120-156 | Silence after the action completes the run. |
| `LadderRefinement.LadderVisitsFollowTheFunnel` | app/crm/outreach/walker.py:320-499 | Compiler correctness: on an expanded ladder a visit does exactly what the machine over (stage, idle or acted) does, so it never parks, and never as a runaway. |
| `LadderLives.OneVisitOfALife` | app/crm/outreach/walker.py:320-499 | An ordinary visit, bringing no answer or the name of a letter its square listens for, closes the squares the machine says and leaves the run where the machine goes. |
| `LadderLives.LivesAreShort` | app/crm/outreach/ladder.py:1-30 | From any place, the rest of a run's life closes no more squares and takes no more visits than the board has ahead of that place. |
| `LadderLives.ALifeFromADoor` | app/crm/outreach/ladder.py:1-30 | A run entered at stage i is visited, and closes squares, at most 3(n - i) - 1 times, whatever it hears. |
| `LadderSquares.SlugsAreTheWords` | app/crm/outreach/ladder.py:63-66 | The slug of a topic is the words after its last dot, lower-cased, one dash between any two. |
| `LadderSquares.EverySquareIsTheLadders` | app/crm/outreach/ladder.py:100-158 | In the board of any ladder, each stage's square waits its own idle time or the ladder's and listens for every later stage, its action is its own or the ladder's, it listens afterwards its own time or the ladder's, and its door starts on the square with that idle time as debounce. |
| `LadderSquares.EveryArrowIsTheLadders` | app/crm/outreach/ladder.py:100-158 | Each stage is left by a later stage's letter or, by silence, onto its action, the action onto listening, and that by a later letter; the last stage has only its action. |
| `LadderSquares.EveryVisitSetsTheLaddersClock` | app/crm/outreach/walker.py:430-470 | A visit to a run on a ladder writes the next square of the funnel, due that square's own time after the instant it left. |
| `Definitions.DefinitionCache.Hit` | app/crm/outreach/definitions.py:38-42 | A hit answers the table's document and becomes the most recent; a miss changes nothing. |
| `Definitions.DefinitionCache.Fill` | app/crm/outreach/definitions.py:43-50 | A read after the await answers the table; only a found document is stored, a key already stored keeps its place, and the least recent go past the bound. |
| `Definitions.DefinitionCache.DefinitionFor` | app/crm/outreach/definitions.py:31-50 | Exactly the table's answer, and the cache is always the 512 documents used most recently, in order of last use. |
| `Definitions.InsertsInvalidateNothing` | app/crm/outreach/definitions.py:6-13 | Inserting new immutable versions never makes a cached document wrong. |
| `Definitions.Serve` | app/crm/outreach/definitions.py:31-50 | Over any sequence of reads and inserts, the answers are those of direct lookup. |
| `Definitions.ByLastUseIsDistinct` | app/crm/outreach/definitions.py:27-28 | The reference order: every key ever used, once, by its last use. |
| `Definitions.ByLastUseIsByLastUse` | app/crm/outreach/definitions.py:27-28 | Of two keys in that order, the later one has been used since the earlier one last was. |
| `Playbook.SpellingRoundTrips` | app/crm/outreach/playbook.py:54-69 | Splitting a line into characters and holes, and spelling it again, gives the line. |
| `Playbook.EveryHoleIsFound` | app/crm/outreach/playbook.py:54-69 | Every `{name}` written anywhere in a line is found. |
| `Playbook.Rendered` | app/crm/outreach/playbook.py:345-374 | A transform never empties a value that said something, and one that raises leaves the value as it arrived. |
| `Playbook.FillLine` | app/crm/outreach/playbook.py:318-381 | A line is filled hole by hole, or parks naming its first hole without a value. |
| `Playbook.PickedRowHolds` | app/crm/outreach/playbook.py:309-315 | Where the last row is a default, the row picked is the first whose conditions all hold. |
| `Playbook.JudgeBlocks` | app/crm/outreach/playbook.py:218-248 | No problem exactly when every block has rows, its last and only its last is a default, and every line named exists. |
| `Playbook.Resolve` | app/crm/outreach/playbook.py:384-432 | The asked-for blocks in order, stopping at the first line that cannot be said. |
| `Playbook.LawfulPlaybooksResolve` | app/crm/outreach/playbook.py:384-432 | A lawful playbook never breaks: it renders every block asked for exactly when each picked row's lines can all be filled, and otherwise parks on a hole one of them spells and the run has no value for. |
| `PlaybookSpoken.WordsAreTheFacts` | app/crm/outreach/playbook.py:345-374 | A fact is spoken as its text through its transforms, the first one first; as it is when one raises or leaves nothing to say. |
| `PlaybookSpoken.LinesAreTold` | app/crm/outreach/playbook.py:318-381 | A line is spoken exactly when every hole of it has a value, and then it is the line with each hole's words in its place. |
| `PlaybookSpoken.EveryBlockIsTold` | app/crm/outreach/playbook.py:384-432 | For every block asked for, what is said is what the first row that holds says, one line or one step a line in order, and that row is noted. |
| `Resolve.PickSurvivor` | app/crm/identity/resolve.py:77-80 | The survivor is the owner seen first, the lower id on a tie. |
| `Resolve.OldestIsUnique` | app/crm/identity/resolve.py:77-80 | There is only one such owner, so racing staplers pick the same. |
| `Resolve.PlanHandleWrites` | app/crm/identity/resolve.py:54-74 | Attach when free, skip when equal, overwrite when the evidence may, keep otherwise. |
| `Resolve.Customers.Probe` | app/crm/identity/db/queries.py:27-39 | One partial unique index: the active owner of the value, if any. |
| `Resolve.Customers.GatherOwners` | app/crm/identity/resolve.py:134-147 | The probes in their fixed order collect exactly the active owners of any handle of the payload. |
| `Resolve.Customers.MergeLosers` | app/crm/identity/db/queries.py:81-90 | Every still-active loser, and nobody else, is pointed at the survivor. |
| `Resolve.Customers.ApplyHandles` | app/crm/identity/db/queries.py:60-78 | The planned columns are written and every value they replaced joins the row's history. |
| `Resolve.Customers.Resolve` | app/crm/identity/resolve.py:167-218 | One call in one transaction: refused exactly for no merchant, inferred evidence or no handle, otherwise the resolution; the indexes and the merge forest survive it. |
| `Resolve.StandsFor` | app/crm/identity/resolve.py:153-164 | Following merge links ends, at one active customer of the same merchant that is no younger. |
| `Resolve.OwnersAfter` | app/crm/identity/resolve.py:83-102 | Who owns each handle afterwards: the survivor what it wrote and kept, everyone not stapled what they had. |
| `Resolve.ResolvingKeepsHandlesUnique` | app/crm/identity/resolve.py:211-218 | At most one active customer per merchant, column and value, through creates, merges and overwrites of any evidence. |
| `Resolve.ResolvingKeepsTheForest` | app/crm/identity/resolve.py:150-164 | Every merge link leads to an older row of the same merchant. |
| `ResolveTheorems.HistoriesFit` | app/crm/identity/resolve.py:211-218 | Both hold after any sequence of calls. |
| `ResolveTheorems.HistoriesFromNothingFit` | app/crm/identity/resolve.py:211-218 | So from an empty table, over any sequence of calls, with nothing assumed. |
| `ResolveTheorems.WhatResolvingWrites` | app/crm/identity/resolve.py:54-164 | The answer's row takes each handle it lacked, and replaces one only on declared or observed evidence; every value that gave way, and no other, is remembered; a merged row only points at the answer; no other row changes. |
| `ResolveTheorems.StaplesUniteTheOwners` | app/crm/identity/resolve.py:19-24 | A call unites exactly the owners: rows that stood for one of them now stand for the survivor, all others for whom they did. |
| `ResolveTheorems.TheAnswerIsActive` | app/crm/identity/resolve.py:211-218 | The id returned is an active customer of the merchant. |
| `ResolveTheorems.OnceTheSameAlwaysTheSame` | app/crm/identity/resolve.py:19-24 | Two rows found to be one person stay one person through any later calls. |
| `ResolveTheorems.ResolvingIsDeterministic` | app/crm/identity/resolve.py:8-9 | The same table and payload give the same answer and the same table. |
| `ResolveTheorems.OnlyTheAnswerOwns` | app/crm/identity/resolve.py:211-218 | After a call the answer is the only owner of any handle of the payload. |
| `ResolveTheorems.RepeatingFindsTheSameCustomer` | app/crm/identity/resolve.py:211-218 | Repeating a payload with any evidence finds the same customer and merges nobody; with the same evidence, or after an overwriting one, it writes nothing. |
| `ResolveTheorems.TheIndexesRefereeTheInsert` | app/crm/identity/resolve.py:195-205 | A stale insert is let in by the indexes if and only if probing the table it meets would still find nobody. |
| `ResolveTheorems.LosersHandleLivesOnIff` | app/crm/identity/resolve.py:19-24 | A merged customer's handle still finds somebody if and only if the payload carried it and the survivor's slot was free or could be overwritten. |
| `ResolveTheorems.AStrandedHandleMakesANewCustomer` | app/crm/identity/resolve.py:89-93 | A handle nobody owns makes a new customer of whoever brings it alone. |
| `ResolveTheorems.AStapleCanStrandAHandle` | app/crm/identity/resolve.py:19-24 | A concrete staple after which a handle of the merged row is nobody's. |
| `ResolveTheorems.StapleNeverMelt` | app/database/migrations/049_create_crm_customer.sql:71-107 | Whatever handle a row held, it still holds or remembers; rows of other merchants are untouched. |
| `ResolveTheorems.HistoriesNeverMelt` | app/database/migrations/049_create_crm_customer.sql:71-107 | ... over any sequence of calls. |
| `Facts.ClaimConfidence` | app/crm/identity/facts.py:59-66 | Always a probability, never above 0.5 for a guess, and an explicit value within those bounds is kept. |
| `Facts.PickWinner` | app/crm/identity/facts.py:69-71 | One pass for the first maximum by class and instant. |
| `Facts.AssertFact` | app/crm/identity/facts.py:134-143 | One fact: kept back when it repeats the latest claim, appended and judged, or failing on a bucket that is not a history. |
| `Facts.Customer.AssertFacts` | app/crm/identity/facts.py:112-148 | The transaction leaves the row with all of the payload asserted, or untouched. |
| `Facts.WinningAttributes` | app/crm/identity/facts.py:151-172 | The readable names whose winner is not a guess, each with that winner's value. |
| `FactsTheorems.WinnerIsTheFirstOfTheBest` | app/crm/identity/facts.py:69-71 | The winner beats every claim before it and is beaten by none after it: on a tie of class and instant the first appended wins. |
| `FactsTheorems.WinnersRankNeverFalls` | app/crm/identity/facts.py:69-71 | More claims never lower the winner's class. |
| `FactsTheorems.AssertingOnlyAppends` | app/crm/identity/facts.py:134-140 | Histories only grow, by appending. |
| `FactsTheorems.ShownClassNeverFalls` | app/crm/identity/facts.py:134-143 | ... so a name's winning class never falls, assertion by assertion. |
| `FactsTheorems.ColumnsNeverDrift` | app/crm/identity/facts.py:123-148 | At every point of a row's life each materialized column is exactly what a reader of its history is shown, never a guess, and no guess outgrows its cap. |
| `FactsTheorems.KeepingIsSafeIff` | app/crm/identity/attributes.py:44-96 | Another module's write under a key leaves the columns true if and only if the key is not a materialized name, or shows what it showed. |
| `FactsTheorems.RepeatingAssertsNothing` | app/crm/identity/facts.py:74-85 | The same payload, class and producer again, whenever and however sure, changes nothing. |
| `FactsOnRecord.CanAssertIff` | app/crm/identity/facts.py:112-148 | A payload is asserted, all of it, exactly when each fact's bucket is a history that repeats it or holds only claims. |
| `FactsOnRecord.EveryFactIsRecorded` | app/crm/identity/facts.py:74-148 | Afterwards the last entry of each fact's history carries its value, class and producer; the history is longer by exactly that claim, made now and as sure as it may be, if and only if its last entry said anything else; and a transaction that cannot record one fact records none. |
| `FactsOnRecord.OtherFactsStay` | app/crm/identity/facts.py:112-148 | A name the payload does not speak of is as it was. |
| `FactsOnRecord.ReadersAreShownTheBest` | app/crm/identity/facts.py:151-172 | Of every name but the handles' and the private ones a reader is shown the value of the best claim, unless that is a guess. |
| `FactsOnRecord.ABetterFactIsShown` | app/crm/identity/facts.py:69-148 | A fact of a higher class than all on record, or of the highest at a later instant, is what readers and its column show from then on. |
| `Report.FirstAnswered` | app/crm/outreach/analytics.py:366-367 | The earliest first-answered time over the run's templates. |
| `Report.LatestRow` | app/crm/outreach/analytics.py:524-533 | The row whose last answered call is the latest. |
| `Report.AddToBar` | app/crm/outreach/analytics.py:463-474 | One run joins the bar of its finished calls, its outcomes added. |
| `Report.BuildReport` | app/crm/outreach/analytics.py:298-456 | The loop's counters are the fold of the runs' lines, in both tables. |
| `Report.Bars` | app/crm/outreach/analytics.py:490-513 | The capping loop is the fold of the bars, in the dictionary's own order. |
| `ReportLaws.EveryCounterCounts` | app/crm/outreach/analytics.py:356-411 | Each counter of the customer table is an independent count of runs. |
| `ReportLaws.EveryChartCounts` | app/crm/outreach/analytics.py:365-371 | So is each entry of calls-per-customer and each bar. |
| `ReportMeaning.EveryNumberIsOfRuns` | app/crm/outreach/analytics.py:298-460 | Every number of the customer table, the flow chart and the two splits is the number of runs that are so, by the stored status, exit reason, end, square and rows: seven endings, stages and cells, open squares, and goals met by the event of the last answered call. |
| `ReportMeaning.EveryBarIsOfRuns` | app/crm/outreach/analytics.py:352-380 | Calls per customer, and the chart's bars, are numbers of runs by the calls their rows hold. |
| `ReportMeaning.CustomersAreTheirKeys` | app/crm/outreach/analytics.py:338-350 | Customers are the distinct enrolment keys, and runs are all the runs. |
| `ReportMeaning.TotalsAreTheRows` | app/crm/outreach/analytics.py:352-380 | Every counter of the call table is the sum of that counter over all rows. |
| `ReportMeaning.BarsBreakDownTheirRuns` | app/crm/outreach/analytics.py:463-474 | A bar's breakdown is the outcomes of exactly the runs that stand on it. |
| `ReportMeaning.EveryCardIsItsRows` | app/crm/outreach/analytics.py:370-390 | Each template's card is its own rows: its calls, the customers it reached, its calls per customer, its bars and their outcomes. |
| `ReportLaws.CustomerTableSumsToTheRuns` | app/crm/outreach/analytics.py:306-311 | The seven ending counters sum to the runs. |
| `ReportLaws.FlowChartIsAWhole` | app/crm/outreach/schemas.py:862-875 | The three stages sum to the runs and each stage's five endings sum to the stage. |
| `ReportLaws.TheCutsAgree` | app/crm/outreach/schemas.py:910-914 | After-we-spoke is the spoke column; before is the other two stages' sum. |
| `ReportLaws.DictionariesSumUp` | app/crm/outreach/analytics.py:313-322 | Where the open runs stand sums to the open runs, and the split by event sums to the goals met after we spoke. |
| `ReportCallLaws.PlanTotalsAreTheCards` | app/crm/outreach/schemas.py:987-995 | Every plan-wide call counter is the sum of the cards'. |
| `ReportCallLaws.RepeatsAreBeyondTheFirst` | app/crm/outreach/analytics.py:554-561 | The repeat counts are the calls beyond the first to each run, so never negative. |
| `ReportCallLaws.RepeatCountsAreTrue` | app/crm/outreach/analytics.py:554-561 | ... for the lines any plan's endings and facts come to, with nothing assumed. |
| `ReportCallLaws.NoCardHasNegativeRepeats` | app/crm/outreach/analytics.py:436-441 | No card's repeat counts are negative either. |
| `ReportCallLaws.BarsHoldEveryRun` | app/crm/outreach/analytics.py:463-474 | The chart's bars hold every run and every outcome. |
| `ReportCallLaws.BarsSumToTheirCalls` | app/crm/outreach/schemas.py:881-891 | When every finished call has an outcome, a bar's outcomes sum to its calls times its runs. |
| `ReportCallLaws.CappingKeepsTotals` | app/crm/outreach/analytics.py:490-513 | Capping keeps total runs and each outcome's total, in any order of folding. |
| `ReportCallLaws.NoBarAboveTheCap` | app/crm/outreach/analytics.py:490-513 | No bar stands above the cap. |
| `ReportCallLaws.BarsBelowTheCapStay` | app/crm/outreach/analytics.py:490-513 | Below the cap every bar is as it was. |
| `ReportCallLaws.TheTopBarSaysOrMore` | app/crm/outreach/analytics.py:490-513 | The cap's bar exists when any bar reaches it, and says "or more" exactly when a taller one was folded in. |
| `CallSummary.SummarizeCalls` | app/crm/outreach/analytics.py:140-193 | The loop is the fold of the rows. |
| `CallSummary.TotalsAreTheCards` | app/crm/outreach/analytics.py:140-193 | Every plan-wide number is the sum of the cards', outcomes sum to calls placed, and connected equals answered. |
| `CallSummary.EveryCardAddsUp` | app/crm/outreach/analytics.py:140-193 | Each card's outcomes sum to its calls. |
| `CallSummary.TotalsAreTheRows` | app/crm/outreach/analytics.py:140-193 | The plan-wide numbers are sums over the rows: calls, calls whose line was picked up, attempts, calls of each outcome. |
| `CallSummary.CardsAreTheirRows` | app/crm/outreach/analytics.py:140-193 | ... and each card's are those of its own template's rows. |
| `Inflight.Worker.AfterSend` | dragontts/app/main.py:323-331 | The continuation of one awaited send. |
| `Inflight.Worker.AfterApp` | dragontts/app/main.py:333-339 | The `finally` clause. |
| `Inflight.StepKeepsInv` | dragontts/app/main.py:304-339 | Every step of any request keeps the gauge equal to the requests begun and not finished. |
| `Inflight.TheGaugeIsHonest` | dragontts/app/main.py:284-339 | For any interleaving: the gauge counts the unfinished requests, each is counted out exactly once, and zero means every response has gone out whole or its application is gone. |
| `Inflight.TheGaugeCountsTheOutstanding` | dragontts/app/main.py:323-339 | From the events alone: a request has been counted out, once, exactly when its last chunk has gone out, its client has gone or its application is done; the gauge is the number begun of which none is true, the metric the number of those for speech, and the gauge is zero exactly when there is none. |
| `Inflight.FinishingIsHonest` | dragontts/app/drain.py:60-69 | A decrement always finds a positive gauge, so its floor at zero never bites. |
| `Inflight.WaitForDrain` | dragontts/app/drain.py:180-197 | The polling loop stops the first time the gauge is zero or the budget is spent; stopping before the deadline means every response is finished. |
| `Inflight.DrainedMeansOver` | dragontts/app/drain.py:180-197 | A wait that finds the gauge at zero, any number of naps after whatever came before, finds every request ever begun over; and one that does not, does not. |
| `Tallies.Joined` | app/crm/outreach/analytics.py:471-473 | The loop that adds one dictionary of counters into another adds them key by key. |

## Left out

Reduced or read in the model's own terms:

- Plans.ValidateDefinition: the wording of problems, template approvals, catalog laws (declared fields, operator fit), the playbook's laws and the per-word laws of send, call, action, condition and split squares are not among the laws judged.
- Plans.ValidateMigration: doors carry topic, start, debounce and restart only, and are compared with their starts resolved and the shared words folded in, where the code compares the raw entries; so it also refuses inputs the code accepts, such as a moved first square under an object entry. The raw comparison is `EntryMeaning`.
- EntryMeaning.ComparisonIsExactIff: conditions are one number and words' values are texts; doors are compared as a multiset, which is the sorted comparison for doors of distinct topics; an entry that no longer validates, and is then compared as it is, is not modelled.
- Versions.PlanStore.MigrateForward: doors are compared resolved, as in Plans.ValidateMigration, and the target's templates are not checked.
- Versions.PlanStore.Publish: doors are compared resolved, as in Plans.ValidateMigration; template approval and its lock, and the re-check that a ladder draft carries its board, are not part of the transaction; nor are merchants and plan statuses.
- Versions.NoRunIsEverStranded: a visit is one step with respect to a re-pin; the re-pin between a visit's read and its write is the subject of `Versions.ARepinMidVisitStrandsIffTheSquareIsGone` and of `Repins`.
- Window.OpensAtIsTheNextOpenInstant: the zone has a fixed offset; daylight-saving transitions are not modelled, nor the refusal of a naive time.
- Window.WindowedAlarmFallsInTheHours: durations are whole microseconds, and a duration of zero counts as missing, as it does in the code.
- RunTheorems.TimelineIsTheWholePath: one clock drives every writer and advances with every event; what skew does to the rows of one walk is `Clocks.AWalkIsGaplessIffTheClockHeld`. The document is one; `Repins.TrailsSurviveRepins` treats several.
- RunTheorems.VisitLandsIffNobodyRearmed: each stored `wake_at` carries a generation, so that two writes never store equal leases; equal instants from two writes are not modelled.
- RunTheorems.EveryTakenWriteRearmsButAShortRepeat: the re-pin and the retention sweep do not store `wake_at` and are not among the events; the re-pin is among those of `Repins`.
- RepeatTheorems.RepeatSurvivesAVisitIff: a square's word is taken to write neither `repeat_event_ids` nor `source_event_id`; which keys each word writes is not modelled.
- Repins.TrailsSurviveRepins: that a run stands on a square of its new version, and spends its answers there, is not part of this invariant; the first is `Versions.NoRunIsEverStranded`, the second `Repins.ARepinKeepsAnAnswerSpentIff`.
- Walker.JudgeGoals: whether a tier's letter exists is asked of an abstract world; the two reads behind it, the time they are measured from (`goal_since`) and their failures are not modelled.
- Walker.WalkTheBoard: a square's word is an abstract patch, park or failure; its context as walked is passed to it.
- ConsumerTheorems.APassIsASchedule: the document the consumer judges by is one and does not change during the pass; what a letter answers on a square (`match`, `key`, derived fields) and which goal tiers it meets are abstract; one letter meets one open run, so admission of new runs, cooldown and the choice of the pinned door are not part of it.
- Entry.LettersPlantNoAnswers: nested values are dropped before the model begins; facts kept under `facts.<square>` are one opaque value.
- Ladder.BuildBoard: the template words of an action, `match` on a keyed ladder and the document's other words are not carried; a slug lower-cases the Latin letters only.
- Ladder.ExpansionIsIdempotent: a ladder's shape errors are not modelled.
- Definitions.DefinitionCache.DefinitionFor: recency is exact when one read ends before the next begins; interleaved reads keep the answers and the bound (`Hit` and `Fill`), not the order.
- Playbook.JudgeBlocks: the field grammar of a row's conditions (playbook.py:235-240), the laws of transforms, of block names, of squares that ask for blocks and of a line's spelling are not judged.
- Playbook.Rendered: built-ins are an abstract partial function on texts; blank means spaces, tabs and line ends.
- Playbook.FillLine: the facts of a line render one after another, not concurrently; a value that itself spells a hole is spoken as it is.
- Resolve.Customers.Resolve: handles arrive normalized; parsing of phones and e-mail addresses, the identity registry and `last_seen_at` are not modelled, and calls are whole transactions (a racing insert is `ResolveTheorems.TheIndexesRefereeTheInsert`; a stale staple is not modelled). Erased customers are not part of this model.
- Facts.Customer.AssertFacts: a missing row, and classes outside the ladder, are not modelled; a failing transaction is the answer `false`; instants are whole numbers.
- Report.BuildReport: an unreadable outcomes cell reads as empty before the model begins; counts are natural numbers.
- Report.Bars: the final sorting of bars, cards and splits for display is not modelled.
- CallSummary.SummarizeCalls: averages, talk time, timed calls, cost and rounding are not modelled.
- Inflight.WaitForDrain: the loop is judged over the naps it could take; liveness of the requests is the caller's. The alert and the kill switch are not modelled.

Not modelled at all:

- Enrolment's admission rules, cooldown and keys; the refusal of a source event already used.
- The daily call ceiling: a visit that is deferred discards its ledger write.
- The parsing of `on_repeat` and the comparison inside `refresh_max`.
- Reply attribution by provider message ids; the catalog engine and typed conditions.
- Run operations (listing, resuming by an operator beyond the revival step, retention).
- Provider sends, connectors, webhook bays, voice and synthesis.
- SQL execution, pools, caches other than the document cache, HTTP routes, authentication, logging.
