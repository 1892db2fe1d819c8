/** The calls summary (outreach/analytics.py, `summarize_calls`): the lead
    store's rows per template and outcome, folded into totals and cards. */
module CallSummary {
  import opened Tallies

  datatype StatRow = StatRow(template: string, outcome: string, calls: nat, spoke: bool, attempts: nat)

  datatype Card = Card(placed: nat, connected: nat, byOutcome: map<string, nat>, attempts: nat)

  datatype Summary = Summary(
    placed: nat, connected: nat, answered: nat, attempts: nat, byOutcome: map<string, nat>, cards: map<string, Card>)

  const NO_CARD := Card(0, 0, map[], 0)

  function SpokenCalls(row: StatRow): nat {
    if row.spoke then row.calls else 0
  }

  function CardOf(cards: map<string, Card>, template: string): Card {
    if template in cards then cards[template] else NO_CARD
  }

  function RowOnCard(card: Card, row: StatRow): Card {
    Card(card.placed + row.calls, card.connected + SpokenCalls(row), Bumped(card.byOutcome, row.outcome, row.calls),
         card.attempts + row.attempts)
  }

  function RowAdded(s: Summary, row: StatRow): Summary {
    Summary(
      s.placed + row.calls, s.connected + SpokenCalls(row), s.answered + SpokenCalls(row), s.attempts + row.attempts,
      Bumped(s.byOutcome, row.outcome, row.calls),
      s.cards[row.template := RowOnCard(CardOf(s.cards, row.template), row)])
  }

  function SummaryOf(rows: seq<StatRow>): Summary {
    if rows == [] then Summary(0, 0, 0, 0, map[], map[])
    else RowAdded(SummaryOf(rows[..|rows| - 1]), rows[|rows| - 1])
  }

  /** `summarize_calls`' loop. */
  method SummarizeCalls(rows: seq<StatRow>) returns (summary: Summary)
    ensures summary == SummaryOf(rows)
  {
    var byOutcome: map<string, nat>, cards: map<string, Card> := map[], map[];
    var placed: nat, connected: nat, answered: nat, attempts: nat := 0, 0, 0, 0;
    for i := 0 to |rows|
      invariant Summary(placed, connected, answered, attempts, byOutcome, cards) == SummaryOf(rows[..i])
    {
      assert rows[..i + 1][..i] == rows[..i];
      var row := rows[i];
      byOutcome := Bumped(byOutcome, row.outcome, row.calls);
      var card := AddToCard(CardOf(cards, row.template), row);
      cards := cards[row.template := card];
      placed, attempts := placed + row.calls, attempts + row.attempts;
      if row.spoke {
        connected, answered := connected + row.calls, answered + row.calls;
      }
    }
    assert rows[..|rows|] == rows;
    return Summary(placed, connected, answered, attempts, byOutcome, cards);
  }

  method AddToCard(card: Card, row: StatRow) returns (after: Card)
    ensures after == RowOnCard(card, row)
  {
    after := card.(placed := card.placed + row.calls, byOutcome := Bumped(card.byOutcome, row.outcome, row.calls));
    if row.spoke {
      after := after.(connected := after.connected + row.calls);
    }
    after := after.(attempts := after.attempts + row.attempts);
  }

  // ---- Totals are the cards ----

  function PlacedOn(): Card -> nat {
    (card: Card) => card.placed
  }

  function ConnectedOn(): Card -> nat {
    (card: Card) => card.connected
  }

  function AttemptsOn(): Card -> nat {
    (card: Card) => card.attempts
  }

  function OutcomeOn(outcome: string): Card -> nat {
    (card: Card) => At(card.byOutcome, outcome)
  }

  lemma OneMoreRowOnACard(cards: map<string, Card>, row: StatRow, outcome: string)
    ensures var after := cards[row.template := RowOnCard(CardOf(cards, row.template), row)];
            && TotalBy(after, PlacedOn()) == TotalBy(cards, PlacedOn()) + row.calls
            && TotalBy(after, ConnectedOn()) == TotalBy(cards, ConnectedOn()) + SpokenCalls(row)
            && TotalBy(after, AttemptsOn()) == TotalBy(cards, AttemptsOn()) + row.attempts
            && TotalBy(after, OutcomeOn(outcome))
               == TotalBy(cards, OutcomeOn(outcome)) + if row.outcome == outcome then row.calls else 0
  {
    var card := RowOnCard(CardOf(cards, row.template), row);
    TotalBySet(cards, PlacedOn(), row.template, card);
    TotalBySet(cards, ConnectedOn(), row.template, card);
    TotalBySet(cards, AttemptsOn(), row.template, card);
    TotalBySet(cards, OutcomeOn(outcome), row.template, card);
  }

  /** Every plan-wide number is the sum of the cards', the outcomes sum to the
      calls placed, and the two names for a picked-up line never differ. */
  lemma {:induction false} TotalsAreTheCards(rows: seq<StatRow>, outcome: string)
    ensures var s := SummaryOf(rows);
            && s.placed == TotalBy(s.cards, PlacedOn()) == Total(s.byOutcome)
            && s.connected == s.answered == TotalBy(s.cards, ConnectedOn()) <= s.placed
            && s.attempts == TotalBy(s.cards, AttemptsOn())
            && At(s.byOutcome, outcome) == TotalBy(s.cards, OutcomeOn(outcome))
  {
    if rows != [] {
      var before, row := SummaryOf(rows[..|rows| - 1]), rows[|rows| - 1];
      TotalsAreTheCards(rows[..|rows| - 1], outcome);
      OneMoreRowOnACard(before.cards, row, outcome);
      TotalBumped(before.byOutcome, row.outcome, row.calls);
    }
  }

  /** Each card's outcomes sum to its calls too. */
  lemma {:induction false} EveryCardAddsUp(rows: seq<StatRow>)
    ensures forall name | name in SummaryOf(rows).cards ::
              var card := SummaryOf(rows).cards[name];
              Total(card.byOutcome) == card.placed && card.connected <= card.placed
  {
    if rows != [] {
      var before, row := SummaryOf(rows[..|rows| - 1]), rows[|rows| - 1];
      EveryCardAddsUp(rows[..|rows| - 1]);
      TotalBumped(CardOf(before.cards, row.template).byOutcome, row.outcome, row.calls);
    }
  }

  // ---- Totals are the rows ----

  function CallsBy(row: StatRow): nat {
    row.calls
  }

  /** A row's calls, where the line was picked up. */
  function PickedUpBy(row: StatRow): nat {
    if row.spoke then row.calls else 0
  }

  function AttemptsBy(row: StatRow): nat {
    row.attempts
  }

  function CallsEnding(outcome: string): StatRow -> nat {
    (row: StatRow) => if row.outcome == outcome then row.calls else 0
  }

  function OfTemplate(rows: seq<StatRow>, template: string): seq<StatRow> {
    if rows == [] then []
    else
      var last := rows[|rows| - 1];
      OfTemplate(rows[..|rows| - 1], template) + (if last.template == template then [last] else [])
  }

  ghost predicate IsCardOf(card: Card, rows: seq<StatRow>) {
    && card.placed == SumOver(rows, CallsBy) && card.connected == SumOver(rows, PickedUpBy)
    && card.attempts == SumOver(rows, AttemptsBy)
    && forall outcome :: At(card.byOutcome, outcome) == SumOver(rows, CallsEnding(outcome))
  }

  lemma OneMoreRowOfACard(card: Card, rows: seq<StatRow>, row: StatRow)
    requires IsCardOf(card, rows)
    ensures IsCardOf(RowOnCard(card, row), rows + [row])
  {
    var more := rows + [row];
    assert more[..|rows|] == rows && more[|rows|] == row;
    SumOverOneMore(more, CallsBy);
    SumOverOneMore(more, PickedUpBy);
    SumOverOneMore(more, AttemptsBy);
    forall outcome ensures At(RowOnCard(card, row).byOutcome, outcome) == SumOver(more, CallsEnding(outcome)) {
      SumOverOneMore(more, CallsEnding(outcome));
    }
  }

  /** The plan-wide numbers are the sums of the rows: the calls, the calls whose line
      was picked up, the attempts, the calls of each outcome. */
  lemma {:induction false} TotalsAreTheRows(rows: seq<StatRow>)
    ensures var s := SummaryOf(rows);
            && IsCardOf(Card(s.placed, s.connected, s.byOutcome, s.attempts), rows)
            && s.answered == SumOver(rows, PickedUpBy)
  {
    if rows != [] {
      var before, row := rows[..|rows| - 1], rows[|rows| - 1];
      TotalsAreTheRows(before);
      var s := SummaryOf(before);
      OneMoreRowOfACard(Card(s.placed, s.connected, s.byOutcome, s.attempts), before, row);
      assert before + [row] == rows;
    }
  }

  /** ... and each card's are those of its own template's rows. */
  lemma {:induction false} CardsAreTheirRows(rows: seq<StatRow>, template: string)
    ensures IsCardOf(CardOf(SummaryOf(rows).cards, template), OfTemplate(rows, template))
  {
    if rows != [] {
      var before, row := rows[..|rows| - 1], rows[|rows| - 1];
      CardsAreTheirRows(before, template);
      if row.template == template {
        OneMoreRowOfACard(CardOf(SummaryOf(before).cards, template), OfTemplate(before, template), row);
      } else {
        assert OfTemplate(rows, template) == OfTemplate(before, template);
      }
    }
  }
}
