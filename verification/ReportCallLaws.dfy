/** What the day report's calls add up to: cards to the plan, bars to the runs,
    and the capped chart to the uncapped one. */
module ReportCallLaws {
  import opened Wrappers
  import opened Tallies
  import opened Report

  // ---- The cards ----

  function CallsOn(counter: Counter): Card -> nat {
    (card: Card) => At(card.calls, counter)
  }

  lemma {:induction false} CardsGainTheRows(cards: map<string, Card>, rows: seq<Row>, counter: Counter)
    ensures TotalBy(CardsAdded(cards, rows), CallsOn(counter)) == TotalBy(cards, CallsOn(counter)) + Sum(rows, counter)
  {
    if rows != [] {
      var before, row := CardsAdded(cards, rows[..|rows| - 1]), rows[|rows| - 1];
      CardsGainTheRows(cards, rows[..|rows| - 1], counter);
      var card := Found(before, row.template, NO_CARD);
      TotalBySet(before, CallsOn(counter), row.template, CardAdded(card, row));
    }
  }

  lemma {:induction false} TotalsGainTheRows(totals: map<Counter, nat>, rows: seq<Row>, counter: Counter)
    ensures At(CallsAdded(totals, rows), counter) == At(totals, counter) + Sum(rows, counter)
  {
    if rows != [] {
      TotalsGainTheRows(totals, rows[..|rows| - 1], counter);
    }
  }

  /** The plan-wide calls are the sum of the cards', counter by counter. */
  lemma {:induction false} PlanTotalsAreTheCards(lines: seq<Line>, counter: Counter)
    ensures At(CallsOf(lines).totals, counter) == TotalBy(CallsOf(lines).cards, CallsOn(counter))
  {
    if lines != [] {
      var before, line := CallsOf(lines[..|lines| - 1]), lines[|lines| - 1];
      PlanTotalsAreTheCards(lines[..|lines| - 1], counter);
      TotalsGainTheRows(before.totals, line.rows, counter);
      CardsGainTheRows(before.cards, line.rows, counter);
    }
  }

  // ---- Repeats ----

  /** A line's numbers are its rows'. */
  predicate IsTrue(line: Line) {
    line.placed == Sum(line.rows, Placed) && line.answered == Sum(line.rows, Answered)
    && line.finished == Finished(line.rows) && line.outcomes == Outcomes(line.rows)
  }

  lemma EveryLineIsTrue(endings: seq<RunEnding>, facts: Facts)
    ensures forall line | line in Lines(endings, facts) :: IsTrue(line)
  {
  }

  /** The runs that were dialled: `sum(n for count, n in ... if count >= 1)`. */
  ghost function Dialled(perCustomer: map<nat, nat>): nat {
    Total(perCustomer - {0})
  }

  /** Calls beyond the first, run by run. */
  function BeyondTheFirst(lines: seq<Line>, counter: Counter): nat {
    if lines == [] then 0
    else
      var calls := Sum(lines[|lines| - 1].rows, counter);
      BeyondTheFirst(lines[..|lines| - 1], counter) + if calls >= 1 then calls - 1 else 0
  }

  lemma NobodyDialled()
    ensures Dialled(map[]) == 0
  {
    var none: map<nat, nat> := map[];
    assert none - {0} == none;
  }

  lemma DialledGrows(perCustomer: map<nat, nat>, calls: nat)
    ensures Dialled(Bumped(perCustomer, calls, 1)) == Dialled(perCustomer) + if calls >= 1 then 1 else 0
  {
    if calls == 0 {
      assert Bumped(perCustomer, calls, 1) - {0} == perCustomer - {0};
    } else {
      assert Bumped(perCustomer, calls, 1) - {0} == Bumped(perCustomer - {0}, calls, 1);
      TotalBumped(perCustomer - {0}, calls, 1);
    }
  }

  /** The repeat counts are what they are called: the placed calls beyond the
      first to each run, the answered calls beyond the first. So neither is ever
      negative. */
  lemma {:induction false} RepeatsAreBeyondTheFirst(lines: seq<Line>)
    requires forall line | line in lines :: IsTrue(line)
    ensures var calls := CallsOf(lines);
            && At(calls.totals, Placed) - Dialled(calls.perCustomer) == BeyondTheFirst(lines, Placed)
            && At(calls.totals, Answered) - CustomersOf(lines).reached == BeyondTheFirst(lines, Answered)
  {
    if lines != [] {
      var line := lines[|lines| - 1];
      assert line in lines && IsTrue(line);
      RepeatsAreBeyondTheFirst(lines[..|lines| - 1]);
      var before := CallsOf(lines[..|lines| - 1]);
      TotalsGainTheRows(before.totals, line.rows, Placed);
      TotalsGainTheRows(before.totals, line.rows, Answered);
      DialledGrows(before.perCustomer, line.placed);
    } else {
      NobodyDialled();
    }
  }

  /** ... of the lines any plan's endings and facts come to. */
  lemma RepeatCountsAreTrue(endings: seq<RunEnding>, facts: Facts)
    ensures var calls := CallsOf(Lines(endings, facts));
            && At(calls.totals, Placed) - Dialled(calls.perCustomer) == BeyondTheFirst(Lines(endings, facts), Placed)
            && At(calls.totals, Answered) - CustomersOf(Lines(endings, facts)).reached
               == BeyondTheFirst(Lines(endings, facts), Answered)
  {
    EveryLineIsTrue(endings, facts);
    RepeatsAreBeyondTheFirst(Lines(endings, facts));
  }

  /** On every card the repeats are counts as well. */
  ghost predicate CardFits(card: Card) {
    Dialled(card.perCustomer) <= At(card.calls, Placed) && card.reached <= At(card.calls, Answered)
  }

  lemma CardStaysFit(card: Card, row: Row)
    requires CardFits(card)
    ensures CardFits(CardAdded(card, row))
  {
    DialledGrows(card.perCustomer, At(row.counts, Placed));
  }

  lemma ANewCardFits()
    ensures CardFits(NO_CARD)
  {
    NobodyDialled();
  }

  lemma {:induction false} CardsStayFit(cards: map<string, Card>, rows: seq<Row>)
    requires forall name | name in cards :: CardFits(cards[name])
    ensures forall name | name in CardsAdded(cards, rows) :: CardFits(CardsAdded(cards, rows)[name])
  {
    if rows != [] {
      var before, row := CardsAdded(cards, rows[..|rows| - 1]), rows[|rows| - 1];
      CardsStayFit(cards, rows[..|rows| - 1]);
      ANewCardFits();
      CardStaysFit(Found(before, row.template, NO_CARD), row);
    }
  }

  lemma {:induction false} NoCardHasNegativeRepeats(lines: seq<Line>)
    ensures forall name | name in CallsOf(lines).cards :: CardFits(CallsOf(lines).cards[name])
  {
    if lines != [] {
      NoCardHasNegativeRepeats(lines[..|lines| - 1]);
      CardsStayFit(CallsOf(lines[..|lines| - 1]).cards, lines[|lines| - 1].rows);
    }
  }

  // ---- The chart ----

  function RunsOn(): Bar -> nat {
    (bar: Bar) => bar.runs
  }

  function OutcomeOn(outcome: string): Bar -> nat {
    (bar: Bar) => At(bar.outcomes, outcome)
  }

  /** How often the runs' calls ended this way. */
  function Ended(lines: seq<Line>, outcome: string): nat {
    if lines == [] then 0
    else Ended(lines[..|lines| - 1], outcome) + At(lines[|lines| - 1].outcomes, outcome)
  }

  lemma OneMoreOnABar(histogram: map<nat, Bar>, calls: nat, outcomes: map<string, nat>, outcome: string)
    ensures TotalBy(BarAdded(histogram, calls, outcomes), RunsOn()) == TotalBy(histogram, RunsOn()) + 1
    ensures TotalBy(BarAdded(histogram, calls, outcomes), OutcomeOn(outcome))
            == TotalBy(histogram, OutcomeOn(outcome)) + At(outcomes, outcome)
  {
    var bar := Found(histogram, calls, NO_BAR);
    var grown := Bar(bar.runs + 1, Plus(bar.outcomes, outcomes));
    TotalBySet(histogram, RunsOn(), calls, grown);
    TotalBySet(histogram, OutcomeOn(outcome), calls, grown);
  }

  /** No run and no outcome is missing from the chart. */
  lemma {:induction false} BarsHoldEveryRun(lines: seq<Line>, outcome: string)
    ensures TotalBy(CallsOf(lines).histogram, RunsOn()) == |lines|
    ensures TotalBy(CallsOf(lines).histogram, OutcomeOn(outcome)) == Ended(lines, outcome)
  {
    if lines != [] {
      var line, before := lines[|lines| - 1], CallsOf(lines[..|lines| - 1]).histogram;
      BarsHoldEveryRun(lines[..|lines| - 1], outcome);
      OneMoreOnABar(before, line.finished, line.outcomes, outcome);
    }
  }

  /** Every finished call has an outcome. */
  ghost predicate OutcomesAreComplete(line: Line) {
    Total(line.outcomes) == line.finished
  }

  ghost predicate BarFits(calls: nat, bar: Bar) {
    Total(bar.outcomes) == calls * bar.runs
  }

  lemma BarStaysFit(bar: Bar, line: Line)
    requires BarFits(line.finished, bar) && OutcomesAreComplete(line)
    ensures BarFits(line.finished, Bar(bar.runs + 1, Plus(bar.outcomes, line.outcomes)))
  {
    TotalPlus(bar.outcomes, line.outcomes);
  }

  /** Then a bar's outcomes sum to its calls times its runs. */
  lemma {:induction false} BarsSumToTheirCalls(lines: seq<Line>)
    requires forall line | line in lines :: OutcomesAreComplete(line)
    ensures forall calls | calls in CallsOf(lines).histogram :: BarFits(calls, CallsOf(lines).histogram[calls])
  {
    if lines != [] {
      var line, before := lines[|lines| - 1], CallsOf(lines[..|lines| - 1]).histogram;
      assert line in lines;
      BarsSumToTheirCalls(lines[..|lines| - 1]);
      BarStaysFit(Found(before, line.finished, NO_BAR), line);
    }
  }

  // ---- The cap ----

  function TopRunsOn(): TopBar -> nat {
    (bar: TopBar) => bar.runs
  }

  function TopOutcomeOn(outcome: string): TopBar -> nat {
    (bar: TopBar) => At(bar.outcomes, outcome)
  }

  /** The bars named by `keys`. */
  function Part(histogram: map<nat, Bar>, keys: seq<nat>): map<nat, Bar> {
    map key | key in histogram && key in keys :: histogram[key]
  }

  predicate AreKeys(histogram: map<nat, Bar>, keys: seq<nat>) {
    (forall key | key in keys :: key in histogram) && forall i, j | 0 <= i < j < |keys| :: keys[i] != keys[j]
  }

  lemma PartGrows(histogram: map<nat, Bar>, keys: seq<nat>)
    requires AreKeys(histogram, keys) && keys != []
    ensures var front, last := keys[..|keys| - 1], keys[|keys| - 1];
            && AreKeys(histogram, front) && last !in Part(histogram, front)
            && Part(histogram, keys) == Part(histogram, front)[last := histogram[last]]
  {
    var front, last := keys[..|keys| - 1], keys[|keys| - 1];
    assert keys == front + [last];
  }

  lemma JoiningKeepsRuns(capped: map<nat, TopBar>, at: nat, bar: Bar, above: bool)
    ensures TotalBy(capped[at := TopBarOf(capped, at, bar, above)], TopRunsOn())
            == TotalBy(capped, TopRunsOn()) + bar.runs
  {
    TotalBySet(capped, TopRunsOn(), at, TopBarOf(capped, at, bar, above));
  }

  lemma JoiningKeepsOutcomes(capped: map<nat, TopBar>, at: nat, bar: Bar, above: bool, outcome: string)
    ensures TotalBy(capped[at := TopBarOf(capped, at, bar, above)], TopOutcomeOn(outcome))
            == TotalBy(capped, TopOutcomeOn(outcome)) + At(bar.outcomes, outcome)
  {
    TotalBySet(capped, TopOutcomeOn(outcome), at, TopBarOf(capped, at, bar, above));
  }

  lemma FoldingKeepsTotals(capped: map<nat, TopBar>, calls: nat, bar: Bar, maxCalls: Option<nat>, outcome: string)
    ensures var after := BarFolded(capped, calls, bar, maxCalls);
            && TotalBy(after, TopRunsOn()) == TotalBy(capped, TopRunsOn()) + bar.runs
            && TotalBy(after, TopOutcomeOn(outcome))
               == TotalBy(capped, TopOutcomeOn(outcome)) + At(bar.outcomes, outcome)
  {
    var above := IsAbove(calls, maxCalls);
    var at := if above then maxCalls.value else calls;
    JoiningKeepsRuns(capped, at, bar, above);
    JoiningKeepsOutcomes(capped, at, bar, above, outcome);
  }

  /** Capping the chart drops no run and no call, whatever order the bars are
      folded in. */
  lemma {:induction false} CappingKeepsTotals(
    histogram: map<nat, Bar>, keys: seq<nat>, maxCalls: Option<nat>, outcome: string)
    requires AreKeys(histogram, keys)
    ensures var capped := Capped(histogram, keys, maxCalls);
            && TotalBy(capped, TopRunsOn()) == TotalBy(Part(histogram, keys), RunsOn())
            && TotalBy(capped, TopOutcomeOn(outcome)) == TotalBy(Part(histogram, keys), OutcomeOn(outcome))
  {
    if keys == [] {
      assert Part(histogram, keys) == map[];
    } else {
      var front, last := keys[..|keys| - 1], keys[|keys| - 1];
      PartGrows(histogram, keys);
      CappingKeepsTotals(histogram, front, maxCalls, outcome);
      FoldingKeepsTotals(Capped(histogram, front, maxCalls), last, histogram[last], maxCalls, outcome);
      TotalBySet(Part(histogram, front), RunsOn(), last, histogram[last]);
      TotalBySet(Part(histogram, front), OutcomeOn(outcome), last, histogram[last]);
    }
  }

  /** The chart stops at the cap. */
  lemma {:induction false} NoBarAboveTheCap(histogram: map<nat, Bar>, keys: seq<nat>, maxCalls: Option<nat>)
    requires AreKeys(histogram, keys)
    ensures forall at | at in Capped(histogram, keys, maxCalls) :: !IsAbove(at, maxCalls)
  {
    if keys != [] {
      PartGrows(histogram, keys);
      NoBarAboveTheCap(histogram, keys[..|keys| - 1], maxCalls);
    }
  }

  /** Below the cap every bar is as it was. */
  lemma {:induction false} BarsBelowTheCapStay(
    histogram: map<nat, Bar>, keys: seq<nat>, maxCalls: Option<nat>, at: nat)
    requires AreKeys(histogram, keys) && maxCalls != Some(at) && !IsAbove(at, maxCalls)
    ensures var capped := Capped(histogram, keys, maxCalls);
            && (at in capped <==> at in keys)
            && (at in keys ==> capped[at] == TopBar(histogram[at].runs, Plus(map[], histogram[at].outcomes), false))
  {
    if keys != [] {
      var front, last := keys[..|keys| - 1], keys[|keys| - 1];
      PartGrows(histogram, keys);
      assert keys == front + [last];
      BarsBelowTheCapStay(histogram, front, maxCalls, at);
    }
  }

  predicate SomeAtLeast(keys: seq<nat>, least: nat) {
    exists i | 0 <= i < |keys| :: keys[i] >= least
  }

  lemma SomeAtLeastGrows(keys: seq<nat>, least: nat)
    requires keys != []
    ensures SomeAtLeast(keys, least) <==> SomeAtLeast(keys[..|keys| - 1], least) || keys[|keys| - 1] >= least
  {
    var front := keys[..|keys| - 1];
    if SomeAtLeast(front, least) {
      var i :| 0 <= i < |front| && front[i] >= least;
      assert keys[i] >= least;
    }
    if SomeAtLeast(keys, least) && keys[|keys| - 1] < least {
      var i :| 0 <= i < |keys| && keys[i] >= least;
      assert front[i] >= least;
    }
  }

  /** The cap's own bar is there when any bar reached it, and says "or more"
      exactly when a taller one was folded into it. */
  lemma {:induction false} TheTopBarSaysOrMore(histogram: map<nat, Bar>, keys: seq<nat>, cap: nat)
    requires AreKeys(histogram, keys)
    ensures var capped := Capped(histogram, keys, Some(cap));
            && (cap in capped <==> SomeAtLeast(keys, cap))
            && (Found(capped, cap, NO_TOP_BAR).orMore <==> SomeAtLeast(keys, cap + 1))
  {
    if keys != [] {
      PartGrows(histogram, keys);
      TheTopBarSaysOrMore(histogram, keys[..|keys| - 1], cap);
      SomeAtLeastGrows(keys, cap);
      SomeAtLeastGrows(keys, cap + 1);
    }
  }
}
