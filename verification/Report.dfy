/** The day report's fold (outreach/analytics.py, `build_report`): counters over
    a plan's runs and the calls made for them. */
module Report {
  import opened Wrappers
  import opened Tallies

  // ---- What the fold reads ----

  /** How one run stands. */
  datatype RunEnding = RunEnding(
    id: string, enrollmentKey: string, status: string, exitReason: Option<string>, exitedAt: Option<int>,
    currentNode: Option<string>)

  datatype Counter = Leads | Placed | Answered | NoAnswer | Busy | InProgress

  /** What the lead store says one template did for one run. */
  datatype Row = Row(
    template: string, counts: map<Counter, nat>, placedFinished: nat, outcomes: map<string, nat>,
    firstAnswered: Option<int>, lastAnswered: Option<int>, lastEvent: Option<string>)

  type Facts = map<string, seq<Row>>

  // ---- One run ----

  datatype Stage = NeverDialled | DialledNoAnswer | Spoke

  datatype Kind = GoalMet | Withdrawn | Ejected | OtherEnded | StillOpen

  /** The seven ending counters of the customer table. */
  datatype Bucket =
    | GoalMetBeforeReach | GoalMetAfterReach | WithdrawnBeforeReach | WithdrawnAfterReach
    | EjectedRuns | OtherRuns | OpenRuns

  const NO_EVENT := "(no event)"

  /** A run as the fold sees it: how it stands, its calls, and their numbers. */
  datatype Line = Line(
    customer: string, kind: Kind, spokeFirst: bool, square: string, event: string,
    placed: nat, answered: nat, finished: nat,
    outcomes: map<string, nat>, rows: seq<Row>)

  function Sum(rows: seq<Row>, counter: Counter): nat {
    if rows == [] then 0
    else Sum(rows[..|rows| - 1], counter) + At(rows[|rows| - 1].counts, counter)
  }

  function Finished(rows: seq<Row>): nat {
    if rows == [] then 0 else Finished(rows[..|rows| - 1]) + rows[|rows| - 1].placedFinished
  }

  function Outcomes(rows: seq<Row>): map<string, nat> {
    if rows == [] then map[] else Plus(Outcomes(rows[..|rows| - 1]), rows[|rows| - 1].outcomes)
  }

  /** The run's first answered call, over every template. */
  function FirstAnswered(rows: seq<Row>): (first: Option<int>)
    ensures first.None? <==> forall row | row in rows :: row.firstAnswered.None?
    ensures first.Some? ==>
              && (exists row | row in rows :: row.firstAnswered == first)
              && forall row | row in rows && row.firstAnswered.Some? :: first.value <= row.firstAnswered.value
  {
    if rows == [] then None
    else
      var before, last := FirstAnswered(rows[..|rows| - 1]), rows[|rows| - 1];
      assert rows == rows[..|rows| - 1] + [last];
      if last.firstAnswered.Some? && (before.None? || last.firstAnswered.value < before.value)
      then last.firstAnswered else before
  }

  /** The row whose last answered call is the latest; the first of equals. */
  function LatestRow(rows: seq<Row>): (latest: Option<Row>)
    ensures latest.None? <==> forall row | row in rows :: row.lastAnswered.None?
    ensures latest.Some? ==>
              && latest.value in rows && latest.value.lastAnswered.Some?
              && forall row | row in rows && row.lastAnswered.Some? ::
                   row.lastAnswered.value <= latest.value.lastAnswered.value
  {
    if rows == [] then None
    else
      var before, last := LatestRow(rows[..|rows| - 1]), rows[|rows| - 1];
      assert rows == rows[..|rows| - 1] + [last];
      if last.lastAnswered.Some? && (before.None? || last.lastAnswered.value > before.value.lastAnswered.value)
      then Some(last) else before
  }

  function LastAnsweredEvent(rows: seq<Row>): string {
    var latest := LatestRow(rows);
    if latest.Some? && latest.value.lastEvent.GetOr("") != "" then latest.value.lastEvent.value else NO_EVENT
  }

  function KindOf(ending: RunEnding): Kind {
    if ending.status != "exited" then StillOpen
    else if ending.exitReason == Some("goal_met") then GoalMet
    else if ending.exitReason == Some("withdrawn") then Withdrawn
    else if ending.exitReason == Some("ejected") then Ejected
    else OtherEnded
  }

  /** Did the first answered call precede the run's end? */
  predicate SpokeFirst(ending: RunEnding, rows: seq<Row>) {
    var first := FirstAnswered(rows);
    first.Some? && ending.exitedAt.Some? && first.value < ending.exitedAt.value
  }

  function LineOf(ending: RunEnding, facts: Facts): Line {
    var rows := if ending.id in facts then facts[ending.id] else [];
    Line(ending.enrollmentKey, KindOf(ending), SpokeFirst(ending, rows),
         if ending.currentNode.GetOr("") == "" then "(none)" else ending.currentNode.value,
         LastAnsweredEvent(rows), Sum(rows, Placed), Sum(rows, Answered), Finished(rows), Outcomes(rows), rows)
  }

  function Lines(endings: seq<RunEnding>, facts: Facts): seq<Line> {
    seq(|endings|, i requires 0 <= i < |endings| => LineOf(endings[i], facts))
  }

  /** An open run has been spoken to when anybody answered; an ended one when
      that was before its end. */
  function StageOf(line: Line): Stage {
    var spoke := if line.kind.StillOpen? then line.answered >= 1 else line.spokeFirst;
    if spoke then Spoke else if line.placed >= 1 then DialledNoAnswer else NeverDialled
  }

  function BucketOf(line: Line): Bucket {
    match line.kind
    case StillOpen => OpenRuns
    case GoalMet => if line.spokeFirst then GoalMetAfterReach else GoalMetBeforeReach
    case Withdrawn => if line.spokeFirst then WithdrawnAfterReach else WithdrawnBeforeReach
    case Ejected => EjectedRuns
    case OtherEnded => OtherRuns
  }

  // ---- The counters ----

  /** A bar of the calls-per-customer chart while it is folded. */
  datatype Bar = Bar(runs: nat, outcomes: map<string, nat>)

  datatype Reach = Reach(runs: nat, endings: map<Kind, nat>)

  /** One template's card. */
  datatype Card = Card(
    calls: map<Counter, nat>, reached: nat, perCustomer: map<nat, nat>, histogram: map<nat, Bar>)

  /** The customer table. */
  datatype Customers = Customers(
    runs: nat, keys: set<string>, endings: map<Bucket, nat>, reached: nat, byReach: map<Stage, Reach>,
    openBySquare: map<string, nat>, afterByEvent: map<string, nat>)

  /** The call table, the two charts and the cards. */
  datatype Calls = Calls(
    totals: map<Counter, nat>, perCustomer: map<nat, nat>, histogram: map<nat, Bar>, cards: map<string, Card>)

  const NO_REACH := Reach(0, map[])
  const NO_CARD := Card(map[], 0, map[], map[])
  const NO_BAR := Bar(0, map[])
  const NO_CUSTOMERS := Customers(0, {}, map[], 0, map[], map[], map[])
  const NO_CALLS := Calls(map[], map[], map[], map[])

  function Found<K, V>(m: map<K, V>, key: K, default: V): V {
    if key in m then m[key] else default
  }

  function BarAdded(histogram: map<nat, Bar>, calls: nat, outcomes: map<string, nat>): map<nat, Bar> {
    var bar := Found(histogram, calls, NO_BAR);
    histogram[calls := Bar(bar.runs + 1, Plus(bar.outcomes, outcomes))]
  }

  function CardAdded(card: Card, row: Row): Card {
    Card(Plus(card.calls, row.counts),
         card.reached + (if At(row.counts, Answered) >= 1 then 1 else 0),
         Bumped(card.perCustomer, At(row.counts, Placed), 1),
         BarAdded(card.histogram, row.placedFinished, row.outcomes))
  }

  function CardsAdded(cards: map<string, Card>, rows: seq<Row>): map<string, Card> {
    if rows == [] then cards
    else
      var before, row := CardsAdded(cards, rows[..|rows| - 1]), rows[|rows| - 1];
      before[row.template := CardAdded(Found(before, row.template, NO_CARD), row)]
  }

  function CallsAdded(calls: map<Counter, nat>, rows: seq<Row>): map<Counter, nat> {
    if rows == [] then calls else Plus(CallsAdded(calls, rows[..|rows| - 1]), rows[|rows| - 1].counts)
  }

  function ReachAdded(byReach: map<Stage, Reach>, line: Line): map<Stage, Reach> {
    var reach := Found(byReach, StageOf(line), NO_REACH);
    byReach[StageOf(line) := Reach(reach.runs + 1, Bumped(reach.endings, line.kind, 1))]
  }

  function CustomerAdded(c: Customers, line: Line): Customers {
    Customers(
      c.runs + 1,
      c.keys + {line.customer},
      Bumped(c.endings, BucketOf(line), 1),
      c.reached + (if line.answered >= 1 then 1 else 0),
      ReachAdded(c.byReach, line),
      if line.kind.StillOpen? then Bumped(c.openBySquare, line.square, 1) else c.openBySquare,
      if BucketOf(line).GoalMetAfterReach? then Bumped(c.afterByEvent, line.event, 1) else c.afterByEvent)
  }

  function CallsOfLineAdded(c: Calls, line: Line): Calls {
    Calls(
      CallsAdded(c.totals, line.rows),
      Bumped(c.perCustomer, line.placed, 1),
      BarAdded(c.histogram, line.finished, line.outcomes),
      CardsAdded(c.cards, line.rows))
  }

  function CustomersOf(lines: seq<Line>): Customers {
    if lines == [] then NO_CUSTOMERS
    else CustomerAdded(CustomersOf(lines[..|lines| - 1]), lines[|lines| - 1])
  }

  function CallsOf(lines: seq<Line>): Calls {
    if lines == [] then NO_CALLS
    else CallsOfLineAdded(CallsOf(lines[..|lines| - 1]), lines[|lines| - 1])
  }

  // ---- The loops ----

  /** `_add_to_bar`. */
  method AddToBar(histogram: map<nat, Bar>, rows: seq<Row>) returns (after: map<nat, Bar>)
    ensures after == BarAdded(histogram, Finished(rows), Outcomes(rows))
  {
    var calls := 0;
    for i := 0 to |rows|
      invariant calls == Finished(rows[..i])
    {
      assert rows[..i + 1][..i] == rows[..i];
      calls := calls + rows[i].placedFinished;
    }
    assert rows[..|rows|] == rows;
    var bar := Found(histogram, calls, NO_BAR);
    var outcomes := JoinOutcomes(bar.outcomes, rows);
    return histogram[calls := Bar(bar.runs + 1, outcomes)];
  }

  method JoinOutcomes(have: map<string, nat>, rows: seq<Row>) returns (outcomes: map<string, nat>)
    ensures outcomes == Plus(have, Outcomes(rows))
  {
    outcomes := have;
    NothingMore(have);
    for i := 0 to |rows|
      invariant outcomes == Plus(have, Outcomes(rows[..i]))
    {
      assert rows[..i + 1][..i] == rows[..i];
      PlusAssociates(have, Outcomes(rows[..i]), rows[i].outcomes);
      outcomes := Joined(outcomes, rows[i].outcomes);
    }
    assert rows[..|rows|] == rows;
  }

  lemma OneRow(row: Row)
    ensures Finished([row]) == row.placedFinished && Outcomes([row]) == row.outcomes
  {
    assert [row][..0] == [];
    assert Plus(map[], row.outcomes) == row.outcomes;
  }

  lemma NothingMore(outcomes: map<string, nat>)
    ensures Plus(outcomes, map[]) == outcomes
  {
  }

  /** The inner loop: one card per template that rang. */
  method AddToCards(cards: map<string, Card>, rows: seq<Row>) returns (after: map<string, Card>)
    ensures after == CardsAdded(cards, rows)
  {
    after := cards;
    for i := 0 to |rows|
      invariant after == CardsAdded(cards, rows[..i])
    {
      assert rows[..i + 1][..i] == rows[..i];
      var card := AddToCard(Found(after, rows[i].template, NO_CARD), rows[i]);
      after := after[rows[i].template := card];
    }
    assert rows[..|rows|] == rows;
  }

  method AddToCard(card: Card, row: Row) returns (after: Card)
    ensures after == CardAdded(card, row)
  {
    var histogram := AddToBar(card.histogram, [row]);
    OneRow(row);
    var calls := Joined(card.calls, row.counts);
    var reached := card.reached;
    if At(row.counts, Answered) >= 1 {
      reached := reached + 1;
    }
    return Card(calls, reached, Bumped(card.perCustomer, At(row.counts, Placed), 1), histogram);
  }

  method AddToCalls(calls: map<Counter, nat>, rows: seq<Row>) returns (after: map<Counter, nat>)
    ensures after == CallsAdded(calls, rows)
  {
    after := calls;
    for i := 0 to |rows|
      invariant after == CallsAdded(calls, rows[..i])
    {
      assert rows[..i + 1][..i] == rows[..i];
      after := Joined(after, rows[i].counts);
    }
    assert rows[..|rows|] == rows;
  }

  method AddToReach(byReach: map<Stage, Reach>, line: Line) returns (after: map<Stage, Reach>)
    ensures after == ReachAdded(byReach, line)
  {
    var spoke := if line.kind == StillOpen then line.answered >= 1 else line.spokeFirst;
    var stage := if spoke then Spoke else if line.placed >= 1 then DialledNoAnswer else NeverDialled;
    var reach := Found(byReach, stage, NO_REACH);
    return byReach[stage := Reach(reach.runs + 1, Bumped(reach.endings, line.kind, 1))];
  }

  /** The branches, in their order. */
  method JudgeEnding(line: Line) returns (bucket: Bucket)
    ensures bucket == BucketOf(line)
  {
    if line.kind == StillOpen {
      return OpenRuns;
    }
    if line.kind == GoalMet {
      return if line.spokeFirst then GoalMetAfterReach else GoalMetBeforeReach;
    } else if line.kind == Withdrawn {
      return if line.spokeFirst then WithdrawnAfterReach else WithdrawnBeforeReach;
    } else if line.kind == Ejected {
      return EjectedRuns;
    }
    return OtherRuns;
  }

  /** One run's place in the customer table. */
  method AddCustomer(c: Customers, line: Line) returns (after: Customers)
    ensures after == CustomerAdded(c, line)
  {
    var bucket := JudgeEnding(line);
    var byReach := AddToReach(c.byReach, line);
    var endings, openBySquare, afterByEvent, reached := c.endings, c.openBySquare, c.afterByEvent, c.reached;
    endings := Bumped(endings, bucket, 1);
    if line.kind == StillOpen {
      openBySquare := Bumped(openBySquare, line.square, 1);
    }
    if bucket == GoalMetAfterReach {
      afterByEvent := Bumped(afterByEvent, line.event, 1);
    }
    if line.answered >= 1 {
      reached := reached + 1;
    }
    return Customers(c.runs + 1, c.keys + {line.customer}, endings, reached, byReach, openBySquare, afterByEvent);
  }

  method AddCalls(c: Calls, line: Line) returns (after: Calls)
    requires line.finished == Finished(line.rows) && line.outcomes == Outcomes(line.rows)
    ensures after == CallsOfLineAdded(c, line)
  {
    var histogram := AddToBar(c.histogram, line.rows);
    var totals := AddToCalls(c.totals, line.rows);
    var cards := AddToCards(c.cards, line.rows);
    return Calls(totals, Bumped(c.perCustomer, line.placed, 1), histogram, cards);
  }

  lemma OneMoreLine(lines: seq<Line>, i: nat)
    requires i < |lines|
    ensures CustomersOf(lines[..i + 1]) == CustomerAdded(CustomersOf(lines[..i]), lines[i])
    ensures CallsOf(lines[..i + 1]) == CallsOfLineAdded(CallsOf(lines[..i]), lines[i])
  {
    assert lines[..i + 1][..i] == lines[..i];
  }

  /** `build_report`'s one loop. */
  method BuildReport(endings: seq<RunEnding>, facts: Facts) returns (customers: Customers, calls: Calls)
    ensures customers == CustomersOf(Lines(endings, facts))
    ensures calls == CallsOf(Lines(endings, facts))
  {
    customers, calls := NO_CUSTOMERS, NO_CALLS;
    ghost var lines := Lines(endings, facts);
    for i := 0 to |endings|
      invariant customers == CustomersOf(lines[..i]) && calls == CallsOf(lines[..i])
    {
      var line := LineOf(endings[i], facts);
      customers := AddCustomer(customers, line);
      calls := AddCalls(calls, line);
      OneMoreLine(lines, i);
    }
    assert lines[..|endings|] == lines;
  }

  // ---- The chart's cap ----

  datatype TopBar = TopBar(runs: nat, outcomes: map<string, nat>, orMore: bool)

  const NO_TOP_BAR := TopBar(0, map[], false)

  predicate IsAbove(calls: nat, maxCalls: Option<nat>) {
    maxCalls.Some? && calls > maxCalls.value
  }

  /** A bar joins its own place, or, above the cap, the cap's. */
  function BarFolded(capped: map<nat, TopBar>, calls: nat, bar: Bar, maxCalls: Option<nat>): map<nat, TopBar> {
    var above := IsAbove(calls, maxCalls);
    var at := if above then maxCalls.value else calls;
    capped[at := TopBarOf(capped, at, bar, above)]
  }

  function TopBarOf(capped: map<nat, TopBar>, at: nat, bar: Bar, above: bool): TopBar {
    var have := Found(capped, at, NO_TOP_BAR);
    TopBar(have.runs + bar.runs, Plus(have.outcomes, bar.outcomes), have.orMore || above)
  }

  function Capped(histogram: map<nat, Bar>, keys: seq<nat>, maxCalls: Option<nat>): map<nat, TopBar>
    requires forall key | key in keys :: key in histogram
  {
    if keys == [] then map[]
    else
      var last := keys[|keys| - 1];
      BarFolded(Capped(histogram, keys[..|keys| - 1], maxCalls), last, histogram[last], maxCalls)
  }

  /** `_bars`, over the histogram's keys in the dictionary's own order. */
  method Bars(histogram: map<nat, Bar>, keys: seq<nat>, maxCalls: Option<nat>) returns (capped: map<nat, TopBar>)
    requires forall key | key in keys :: key in histogram
    ensures capped == Capped(histogram, keys, maxCalls)
  {
    capped := map[];
    for i := 0 to |keys|
      invariant capped == Capped(histogram, keys[..i], maxCalls)
    {
      assert keys[..i + 1][..i] == keys[..i];
      var calls, bar := keys[i], histogram[keys[i]];
      var above := maxCalls.Some? && calls > maxCalls.value;
      var at := if above then maxCalls.value else calls;
      var have := Found(capped, at, NO_TOP_BAR);
      var outcomes := Joined(have.outcomes, bar.outcomes);
      capped := capped[at := TopBar(have.runs + bar.runs, outcomes, have.orMore || above)];
    }
    assert keys[..|keys|] == keys;
  }
}
