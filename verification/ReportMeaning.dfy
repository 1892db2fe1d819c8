/** What the day report's numbers are, in the words of the rows they are read
    from: how a run stands, why and when it ended, and what its calls came to
    (outreach/analytics.py, `build_report`). */
module ReportMeaning {
  import opened Wrappers
  import opened Tallies
  import opened Report
  import opened ReportLaws

  // ---- One run, as it is stored ----

  function RowsOf(ending: RunEnding, facts: Facts): seq<Row> {
    if ending.id in facts then facts[ending.id] else []
  }

  /** Somebody answered one of its calls, ever. */
  predicate WasEverAnswered(rows: seq<Row>) {
    exists row | row in rows :: At(row.counts, Answered) >= 1
  }

  predicate WasEverPlaced(rows: seq<Row>) {
    exists row | row in rows :: At(row.counts, Placed) >= 1
  }

  /** Somebody answered before it ended. */
  predicate SpokeBeforeItsEnd(ending: RunEnding, rows: seq<Row>) {
    ending.exitedAt.Some?
    && exists row | row in rows && row.firstAnswered.Some? :: row.firstAnswered.value < ending.exitedAt.value
  }

  predicate EndedFor(ending: RunEnding, kind: Kind) {
    match kind
    case StillOpen => ending.status != "exited"
    case GoalMet => ending.status == "exited" && ending.exitReason == Some("goal_met")
    case Withdrawn => ending.status == "exited" && ending.exitReason == Some("withdrawn")
    case Ejected => ending.status == "exited" && ending.exitReason == Some("ejected")
    case OtherEnded =>
      ending.status == "exited" && ending.exitReason !in {Some("goal_met"), Some("withdrawn"), Some("ejected")}
  }

  /** The seven endings. */
  predicate EndsIn(ending: RunEnding, rows: seq<Row>, bucket: Bucket) {
    match bucket
    case OpenRuns => EndedFor(ending, StillOpen)
    case GoalMetBeforeReach => EndedFor(ending, GoalMet) && !SpokeBeforeItsEnd(ending, rows)
    case GoalMetAfterReach => EndedFor(ending, GoalMet) && SpokeBeforeItsEnd(ending, rows)
    case WithdrawnBeforeReach => EndedFor(ending, Withdrawn) && !SpokeBeforeItsEnd(ending, rows)
    case WithdrawnAfterReach => EndedFor(ending, Withdrawn) && SpokeBeforeItsEnd(ending, rows)
    case EjectedRuns => EndedFor(ending, Ejected)
    case OtherRuns => EndedFor(ending, OtherEnded)
  }

  /** An open run has been spoken to if anybody ever answered; an ended one if that
      was before its end. */
  predicate SpokenTo(ending: RunEnding, rows: seq<Row>) {
    if ending.status != "exited" then WasEverAnswered(rows) else SpokeBeforeItsEnd(ending, rows)
  }

  predicate IsAtStage(ending: RunEnding, rows: seq<Row>, stage: Stage) {
    match stage
    case Spoke => SpokenTo(ending, rows)
    case DialledNoAnswer => !SpokenTo(ending, rows) && WasEverPlaced(rows)
    case NeverDialled => !SpokenTo(ending, rows) && !WasEverPlaced(rows)
  }

  /** The last call of these that was answered; of several at one instant, the
      first. */
  predicate IsLastAnswered(rows: seq<Row>, k: nat) {
    && k < |rows| && rows[k].lastAnswered.Some?
    && forall j | 0 <= j < |rows| && j != k && rows[j].lastAnswered.Some? ::
         if j < k then rows[j].lastAnswered.value < rows[k].lastAnswered.value
         else rows[j].lastAnswered.value <= rows[k].lastAnswered.value
  }

  /** What that call was placed for, if anything. */
  ghost predicate WasPlacedFor(rows: seq<Row>, event: string) {
    if exists k: nat :: IsLastAnswered(rows, k) && rows[k].lastEvent !in {None, Some("")} then
      exists k: nat :: IsLastAnswered(rows, k) && rows[k].lastEvent == Some(event)
    else event == "(no event)"
  }

  predicate StandsOn(ending: RunEnding, square: string) {
    if ending.currentNode in {None, Some("")} then square == "(none)" else ending.currentNode == Some(square)
  }

  /** What a question about customers asks of one run. */
  ghost predicate Answers(ending: RunEnding, rows: seq<Row>, q: Query) {
    match q
    case In(bucket) => EndsIn(ending, rows, bucket)
    case Reaches(stage) => IsAtStage(ending, rows, stage)
    case Cell(stage, kind) => IsAtStage(ending, rows, stage) && EndedFor(ending, kind)
    case IsAt(square) => EndedFor(ending, StillOpen) && StandsOn(ending, square)
    case ConvertedAfter(event) => EndsIn(ending, rows, GoalMetAfterReach) && WasPlacedFor(rows, event)
    case WasAnswered => WasEverAnswered(rows)
    case WasDialled => WasEverPlaced(rows)
    case WasPlaced(calls) => SumOver(rows, PlacedBy) == calls
    case HasFinished(calls) => SumOver(rows, FinishedBy) == calls
  }

  function PlacedBy(row: Row): nat {
    At(row.counts, Placed)
  }

  function FinishedBy(row: Row): nat {
    row.placedFinished
  }

  function CountBy(counter: Counter): Row -> nat {
    (row: Row) => At(row.counts, counter)
  }

  // ---- A line says what its run is ----

  lemma {:induction false} SumsAreSums(rows: seq<Row>, counter: Counter)
    ensures Sum(rows, counter) == SumOver(rows, CountBy(counter))
  {
    if rows != [] {
      SumsAreSums(rows[..|rows| - 1], counter);
      SumOverOneMore(rows, CountBy(counter));
    }
  }

  lemma {:induction false} PlacedIsPlaced(rows: seq<Row>)
    ensures Sum(rows, Placed) == SumOver(rows, PlacedBy)
  {
    if rows != [] {
      PlacedIsPlaced(rows[..|rows| - 1]);
      SumOverOneMore(rows, PlacedBy);
    }
  }

  lemma {:induction false} FinishedIsFinished(rows: seq<Row>)
    ensures Finished(rows) == SumOver(rows, FinishedBy)
  {
    if rows != [] {
      FinishedIsFinished(rows[..|rows| - 1]);
      SumOverOneMore(rows, FinishedBy);
    }
  }

  lemma {:induction false} SumIsPositiveIff(rows: seq<Row>, counter: Counter)
    ensures Sum(rows, counter) >= 1 <==> exists row | row in rows :: At(row.counts, counter) >= 1
  {
    if rows != [] {
      var before, last := rows[..|rows| - 1], rows[|rows| - 1];
      SumIsPositiveIff(before, counter);
      assert rows == before + [last];
    }
  }

  lemma SpokeFirstIff(ending: RunEnding, rows: seq<Row>)
    ensures SpokeFirst(ending, rows) <==> SpokeBeforeItsEnd(ending, rows)
  {
    var first := FirstAnswered(rows);
    if SpokeBeforeItsEnd(ending, rows) {
      var row :| row in rows && row.firstAnswered.Some? && row.firstAnswered.value < ending.exitedAt.value;
      assert first.Some?;
    }
  }

  lemma KindsAreEndings(ending: RunEnding, kind: Kind)
    ensures KindOf(ending) == kind <==> EndedFor(ending, kind)
  {
  }

  lemma LastAnsweredGrows(rows: seq<Row>, k: nat)
    requires rows != [] && IsLastAnswered(rows[..|rows| - 1], k)
    ensures var last := rows[|rows| - 1];
            if last.lastAnswered.Some? && last.lastAnswered.value > rows[k].lastAnswered.value then
              IsLastAnswered(rows, |rows| - 1)
            else IsLastAnswered(rows, k)
  {
    var before := rows[..|rows| - 1];
    assert forall j | 0 <= j < |before| :: rows[j] == before[j];
  }

  lemma {:induction false} LatestIsLast(rows: seq<Row>)
    ensures LatestRow(rows).Some? ==> exists k: nat :: IsLastAnswered(rows, k) && LatestRow(rows) == Some(rows[k])
    ensures LatestRow(rows).None? ==> forall k: nat :: !IsLastAnswered(rows, k)
  {
    if rows != [] {
      var n := |rows| - 1;
      var before, last := rows[..n], rows[n];
      LatestIsLast(before);
      if LatestRow(before).Some? {
        var k: nat :| IsLastAnswered(before, k) && LatestRow(before) == Some(before[k]);
        LastAnsweredGrows(rows, k);
      } else if last.lastAnswered.Some? {
        assert forall j | 0 <= j < n :: before[j] in before;
        assert IsLastAnswered(rows, n);
      }
    }
  }

  lemma EventsAreTheLast(rows: seq<Row>, event: string)
    ensures LastAnsweredEvent(rows) == event <==> WasPlacedFor(rows, event)
  {
    LatestIsLast(rows);
    if LatestRow(rows).Some? {
      var k: nat :| IsLastAnswered(rows, k) && LatestRow(rows) == Some(rows[k]);
      forall j: nat | IsLastAnswered(rows, j) ensures j == k {
      }
    }
  }

  /** A line that says of its run what the stored rows say. */
  ghost predicate IsLineOf(line: Line, ending: RunEnding, rows: seq<Row>) {
    && (forall kind :: line.kind == kind <==> EndedFor(ending, kind))
    && (line.spokeFirst <==> SpokeBeforeItsEnd(ending, rows))
    && (line.answered >= 1 <==> WasEverAnswered(rows)) && (line.placed >= 1 <==> WasEverPlaced(rows))
    && line.placed == SumOver(rows, PlacedBy) && line.finished == SumOver(rows, FinishedBy)
    && (forall event :: line.event == event <==> WasPlacedFor(rows, event))
    && (forall square :: line.square == square <==> StandsOn(ending, square))
  }

  lemma EveryLineTells(ending: RunEnding, facts: Facts)
    ensures IsLineOf(LineOf(ending, facts), ending, RowsOf(ending, facts))
  {
    var rows := RowsOf(ending, facts);
    SpokeFirstIff(ending, rows);
    SumIsPositiveIff(rows, Answered);
    SumIsPositiveIff(rows, Placed);
    PlacedIsPlaced(rows);
    FinishedIsFinished(rows);
    forall kind ensures KindOf(ending) == kind <==> EndedFor(ending, kind) {
      KindsAreEndings(ending, kind);
    }
    forall event ensures LastAnsweredEvent(rows) == event <==> WasPlacedFor(rows, event) {
      EventsAreTheLast(rows, event);
    }
  }

  lemma MatchesIff(line: Line, ending: RunEnding, rows: seq<Row>, q: Query)
    requires IsLineOf(line, ending, rows)
    ensures Matches(line, q) <==> Answers(ending, rows, q)
  {
    assert line.kind == StillOpen <==> EndedFor(ending, StillOpen);
    match q
    case In(bucket) => BucketsTell(line, ending, rows, bucket);
    case ConvertedAfter(_) => BucketsTell(line, ending, rows, GoalMetAfterReach);
    case Cell(_, kind) => assert line.kind == kind <==> EndedFor(ending, kind);
    case _ =>
  }

  lemma BucketsTell(line: Line, ending: RunEnding, rows: seq<Row>, bucket: Bucket)
    requires forall kind :: line.kind == kind <==> EndedFor(ending, kind)
    requires line.spokeFirst <==> SpokeBeforeItsEnd(ending, rows)
    ensures BucketOf(line) == bucket <==> EndsIn(ending, rows, bucket)
  {
    assert EndedFor(ending, line.kind);
  }

  // ---- Counts ----

  /** The runs a question is true of. */
  ghost function RunsThat(endings: seq<RunEnding>, facts: Facts, q: Query): set<nat> {
    set i: nat | i < |endings| && Answers(endings[i], RowsOf(endings[i], facts), q)
  }

  ghost function Matching(lines: seq<Line>, q: Query): set<nat> {
    set i: nat | i < |lines| && Matches(lines[i], q)
  }

  lemma OneMoreMatching(lines: seq<Line>, q: Query)
    requires lines != []
    ensures var n := |lines| - 1;
            Matching(lines, q) == Matching(lines[..n], q) + (if Matches(lines[n], q) then {n} else {})
  {
    assert forall i | 0 <= i < |lines| - 1 :: lines[..|lines| - 1][i] == lines[i];
  }

  lemma {:induction false} CountsAreSizes(lines: seq<Line>, q: Query)
    ensures Count(lines, q) == |Matching(lines, q)|
  {
    if lines != [] {
      var n := |lines| - 1;
      CountsAreSizes(lines[..n], q);
      OneMoreMatching(lines, q);
    }
  }

  lemma CountsCount(endings: seq<RunEnding>, facts: Facts, q: Query)
    ensures Count(Lines(endings, facts), q) == |RunsThat(endings, facts, q)|
  {
    var lines := Lines(endings, facts);
    CountsAreSizes(lines, q);
    forall i: nat | i < |endings|
      ensures Matches(lines[i], q) <==> Answers(endings[i], RowsOf(endings[i], facts), q)
    {
      EveryLineTells(endings[i], facts);
      MatchesIff(lines[i], endings[i], RowsOf(endings[i], facts), q);
    }
    assert Matching(lines, q) == RunsThat(endings, facts, q);
  }

  /** Every number of the customer table, the flow chart and the two splits is the
      number of runs that are so: that ended so, by status, reason and whether
      somebody answered before the end; that are at that stage; that stand on that
      square; whose goal was met after a call placed for that event. */
  lemma EveryNumberIsOfRuns(endings: seq<RunEnding>, facts: Facts, q: Query)
    requires !IsAboutCalls(q)
    ensures CounterFor(CustomersOf(Lines(endings, facts)), q) == |RunsThat(endings, facts, q)|
  {
    EveryCounterCounts(Lines(endings, facts), q);
    CountsCount(endings, facts, q);
  }

  /** ... and so are calls per customer, and the chart's bars. */
  lemma EveryBarIsOfRuns(endings: seq<RunEnding>, facts: Facts, calls: nat)
    ensures var report := CallsOf(Lines(endings, facts));
            && At(report.perCustomer, calls) == |RunsThat(endings, facts, WasPlaced(calls))|
            && Found(report.histogram, calls, NO_BAR).runs == |RunsThat(endings, facts, HasFinished(calls))|
  {
    EveryChartCounts(Lines(endings, facts), calls);
    CountsCount(endings, facts, WasPlaced(calls));
    CountsCount(endings, facts, HasFinished(calls));
  }

  lemma FewerLines(endings: seq<RunEnding>, facts: Facts)
    requires endings != []
    ensures var n := |endings| - 1;
            && CustomersOf(Lines(endings, facts))
               == CustomerAdded(CustomersOf(Lines(endings[..n], facts)), LineOf(endings[n], facts))
            && CallsOf(Lines(endings, facts))
               == CallsOfLineAdded(CallsOf(Lines(endings[..n], facts)), LineOf(endings[n], facts))
  {
    assert Lines(endings, facts)[..|endings| - 1] == Lines(endings[..|endings| - 1], facts);
  }

  /** Customers are counted once, however many runs they have. */
  lemma {:induction false} CustomersAreTheirKeys(endings: seq<RunEnding>, facts: Facts)
    ensures CustomersOf(Lines(endings, facts)).keys == KeysOf(endings)
    ensures CustomersOf(Lines(endings, facts)).runs == |endings|
  {
    if endings != [] {
      var n := |endings| - 1;
      CustomersAreTheirKeys(endings[..n], facts);
      FewerLines(endings, facts);
      OneMoreKey(endings);
      OneMoreCustomer(CustomersOf(Lines(endings[..n], facts)), endings[n], facts);
    }
  }

  function KeysOf(endings: seq<RunEnding>): set<string> {
    set ending | ending in endings :: ending.enrollmentKey
  }

  lemma OneMoreKey(endings: seq<RunEnding>)
    requires endings != []
    ensures KeysOf(endings) == KeysOf(endings[..|endings| - 1]) + {endings[|endings| - 1].enrollmentKey}
  {
    assert endings == endings[..|endings| - 1] + [endings[|endings| - 1]];
  }

  lemma OneMoreCustomer(c: Customers, ending: RunEnding, facts: Facts)
    ensures var after := CustomerAdded(c, LineOf(ending, facts));
            after.keys == c.keys + {ending.enrollmentKey} && after.runs == c.runs + 1
  {
  }

  // ---- Calls ----

  /** Every row of every run, in order. */
  function AllRows(endings: seq<RunEnding>, facts: Facts): seq<Row> {
    if endings == [] then []
    else AllRows(endings[..|endings| - 1], facts) + RowsOf(endings[|endings| - 1], facts)
  }

  lemma {:induction false} CallsAddedSum(calls: map<Counter, nat>, rows: seq<Row>, counter: Counter)
    ensures At(CallsAdded(calls, rows), counter) == At(calls, counter) + SumOver(rows, CountBy(counter))
  {
    if rows != [] {
      CallsAddedSum(calls, rows[..|rows| - 1], counter);
      SumOverOneMore(rows, CountBy(counter));
    }
  }

  /** Every counter of the call table is the sum of the rows' own. */
  lemma {:induction false} TotalsAreTheRows(endings: seq<RunEnding>, facts: Facts, counter: Counter)
    ensures At(CallsOf(Lines(endings, facts)).totals, counter) == SumOver(AllRows(endings, facts), CountBy(counter))
  {
    if endings != [] {
      var n := |endings| - 1;
      var before, rows := endings[..n], RowsOf(endings[n], facts);
      TotalsAreTheRows(before, facts, counter);
      FewerLines(endings, facts);
      CallsAddedSum(CallsOf(Lines(before, facts)).totals, rows, counter);
      SumOverBoth(AllRows(before, facts), rows, CountBy(counter));
    }
  }

  /** How many leads of one outcome a row holds. */
  function OutcomeBy(outcome: string): Row -> nat {
    (row: Row) => At(row.outcomes, outcome)
  }

  lemma {:induction false} OutcomesSum(rows: seq<Row>, outcome: string)
    ensures At(Outcomes(rows), outcome) == SumOver(rows, OutcomeBy(outcome))
  {
    if rows != [] {
      OutcomesSum(rows[..|rows| - 1], outcome);
      SumOverOneMore(rows, OutcomeBy(outcome));
    }
  }

  /** The rows of the runs with so many finished calls. */
  function RowsAtBar(endings: seq<RunEnding>, facts: Facts, calls: nat): seq<Row> {
    if endings == [] then []
    else
      var rows := RowsOf(endings[|endings| - 1], facts);
      RowsAtBar(endings[..|endings| - 1], facts, calls) + (if SumOver(rows, FinishedBy) == calls then rows else [])
  }

  /** A bar's breakdown is the outcomes of exactly the runs that stand on it. */
  lemma {:induction false} BarsBreakDownTheirRuns(endings: seq<RunEnding>, facts: Facts, calls: nat, outcome: string)
    ensures At(Found(CallsOf(Lines(endings, facts)).histogram, calls, NO_BAR).outcomes, outcome)
            == SumOver(RowsAtBar(endings, facts, calls), OutcomeBy(outcome))
  {
    if endings != [] {
      var n := |endings| - 1;
      var before, rows := endings[..n], RowsOf(endings[n], facts);
      BarsBreakDownTheirRuns(before, facts, calls, outcome);
      FewerLines(endings, facts);
      FinishedIsFinished(rows);
      OutcomesSum(rows, outcome);
      SumOverBoth(RowsAtBar(before, facts, calls), if SumOver(rows, FinishedBy) == calls then rows else [],
                  OutcomeBy(outcome));
      BarGains(CallsOf(Lines(before, facts)).histogram, Finished(rows), Outcomes(rows), calls, outcome);
    }
  }

  lemma BarGains(histogram: map<nat, Bar>, at: nat, outcomes: map<string, nat>, calls: nat, outcome: string)
    ensures At(Found(BarAdded(histogram, at, outcomes), calls, NO_BAR).outcomes, outcome)
            == At(Found(histogram, calls, NO_BAR).outcomes, outcome) + if at == calls then At(outcomes, outcome) else 0
  {
  }

  // ---- Cards ----

  /** The rows of one template, over all runs. */
  function RowsOfCard(rows: seq<Row>, template: string): seq<Row> {
    if rows == [] then []
    else
      var last := rows[|rows| - 1];
      RowsOfCard(rows[..|rows| - 1], template) + (if last.template == template then [last] else [])
  }

  function AnsweredBy(row: Row): nat {
    if At(row.counts, Answered) >= 1 then 1 else 0
  }

  function PlacedExactly(calls: nat): Row -> nat {
    (row: Row) => if At(row.counts, Placed) == calls then 1 else 0
  }

  function FinishedExactly(calls: nat): Row -> nat {
    (row: Row) => if row.placedFinished == calls then 1 else 0
  }

  function OutcomeAmong(calls: nat, outcome: string): Row -> nat {
    (row: Row) => if row.placedFinished == calls then At(row.outcomes, outcome) else 0
  }

  /** A card of these rows: each counter their sum, and each customer a row. */
  ghost predicate IsCardOf(card: Card, rows: seq<Row>) {
    && (forall counter :: At(card.calls, counter) == SumOver(rows, CountBy(counter)))
    && card.reached == SumOver(rows, AnsweredBy)
    && (forall calls :: At(card.perCustomer, calls) == SumOver(rows, PlacedExactly(calls)))
    && AreBarsOf(card.histogram, rows)
  }

  ghost predicate AreBarsOf(histogram: map<nat, Bar>, rows: seq<Row>) {
    && (forall calls :: Found(histogram, calls, NO_BAR).runs == SumOver(rows, FinishedExactly(calls)))
    && forall calls, outcome ::
         At(Found(histogram, calls, NO_BAR).outcomes, outcome) == SumOver(rows, OutcomeAmong(calls, outcome))
  }

  lemma OneMoreRowOnItsBars(histogram: map<nat, Bar>, rows: seq<Row>, row: Row)
    requires AreBarsOf(histogram, rows)
    ensures AreBarsOf(BarAdded(histogram, row.placedFinished, row.outcomes), rows + [row])
  {
    var more, after := rows + [row], BarAdded(histogram, row.placedFinished, row.outcomes);
    assert more[..|rows|] == rows && more[|rows|] == row;
    forall calls ensures Found(after, calls, NO_BAR).runs == SumOver(more, FinishedExactly(calls)) {
      SumOverOneMore(more, FinishedExactly(calls));
    }
    forall calls, outcome
      ensures At(Found(after, calls, NO_BAR).outcomes, outcome) == SumOver(more, OutcomeAmong(calls, outcome))
    {
      SumOverOneMore(more, OutcomeAmong(calls, outcome));
      BarGains(histogram, row.placedFinished, row.outcomes, calls, outcome);
    }
  }

  lemma OneMoreRowOnItsCard(card: Card, rows: seq<Row>, row: Row)
    requires IsCardOf(card, rows)
    ensures IsCardOf(CardAdded(card, row), rows + [row])
  {
    OneMoreRowOnItsBars(card.histogram, rows, row);
    OneMoreRowInItsCounts(card, rows, row);
  }

  lemma OneMoreRowInItsCounts(card: Card, rows: seq<Row>, row: Row)
    requires IsCardOf(card, rows)
    ensures var after, more := CardAdded(card, row), rows + [row];
            && (forall counter :: At(after.calls, counter) == SumOver(more, CountBy(counter)))
            && after.reached == SumOver(more, AnsweredBy)
            && forall calls :: At(after.perCustomer, calls) == SumOver(more, PlacedExactly(calls))
  {
    var more := rows + [row];
    assert more[..|rows|] == rows && more[|rows|] == row;
    forall counter ensures At(CardAdded(card, row).calls, counter) == SumOver(more, CountBy(counter)) {
      SumOverOneMore(more, CountBy(counter));
    }
    SumOverOneMore(more, AnsweredBy);
    forall calls ensures At(CardAdded(card, row).perCustomer, calls) == SumOver(more, PlacedExactly(calls)) {
      SumOverOneMore(more, PlacedExactly(calls));
    }
  }

  lemma OneMoreRowOfCard(before: seq<Row>, rows: seq<Row>, template: string)
    requires rows != []
    ensures var row := rows[|rows| - 1];
            var fewer := RowsOfCard(before + rows[..|rows| - 1], template);
            RowsOfCard(before + rows, template) == if row.template == template then fewer + [row] else fewer
  {
    assert (before + rows)[..|before + rows| - 1] == before + rows[..|rows| - 1];
  }

  lemma OneMoreRowAmongCards(cards: map<string, Card>, rows: seq<Row>, template: string)
    requires rows != []
    ensures var row := rows[|rows| - 1];
            var card := Found(CardsAdded(cards, rows[..|rows| - 1]), template, NO_CARD);
            Found(CardsAdded(cards, rows), template, NO_CARD)
            == if row.template == template then CardAdded(card, row) else card
  {
  }

  lemma {:induction false} CardsAddedAreTheirRows(
    cards: map<string, Card>, before: seq<Row>, rows: seq<Row>, template: string)
    requires IsCardOf(Found(cards, template, NO_CARD), RowsOfCard(before, template))
    ensures IsCardOf(Found(CardsAdded(cards, rows), template, NO_CARD), RowsOfCard(before + rows, template))
  {
    if rows == [] {
      assert before + rows == before;
    } else {
      var fewer, row := rows[..|rows| - 1], rows[|rows| - 1];
      CardsAddedAreTheirRows(cards, before, fewer, template);
      OneMoreRowOfCard(before, rows, template);
      OneMoreRowAmongCards(cards, rows, template);
      if row.template == template {
        var card := Found(CardsAdded(cards, fewer), template, NO_CARD);
        OneMoreRowOnItsCard(card, RowsOfCard(before + fewer, template), row);
      }
    }
  }

  /** Each template's card is its own rows, of whichever runs: its calls, the
      customers it reached, its calls per customer and its bars. */
  lemma {:induction false} EveryCardIsItsRows(endings: seq<RunEnding>, facts: Facts, template: string)
    ensures IsCardOf(Found(CallsOf(Lines(endings, facts)).cards, template, NO_CARD),
                     RowsOfCard(AllRows(endings, facts), template))
  {
    if endings != [] {
      var n := |endings| - 1;
      EveryCardIsItsRows(endings[..n], facts, template);
      FewerLines(endings, facts);
      CardsAddedAreTheirRows(CallsOf(Lines(endings[..n], facts)).cards, AllRows(endings[..n], facts),
                             RowsOf(endings[n], facts), template);
    }
  }
}
