/** What the day report's numbers add up to, for every list of runs. */
module ReportLaws {
  import opened Tallies
  import opened Report

  // ---- Counting runs, without a counter ----

  datatype Query =
    | In(bucket: Bucket) | Reaches(stage: Stage) | Cell(stage: Stage, kind: Kind) | IsAt(square: string)
    | ConvertedAfter(event: string) | WasAnswered | WasDialled | WasPlaced(calls: nat) | HasFinished(calls: nat)

  predicate Matches(line: Line, q: Query) {
    match q
    case In(bucket) => BucketOf(line) == bucket
    case Reaches(stage) => StageOf(line) == stage
    case Cell(stage, kind) => StageOf(line) == stage && line.kind == kind
    case IsAt(square) => line.kind.StillOpen? && line.square == square
    case ConvertedAfter(event) => BucketOf(line).GoalMetAfterReach? && line.event == event
    case WasAnswered => line.answered >= 1
    case WasDialled => line.placed >= 1
    case WasPlaced(calls) => line.placed == calls
    case HasFinished(calls) => line.finished == calls
  }

  function Count(lines: seq<Line>, q: Query): nat {
    if lines == [] then 0
    else Count(lines[..|lines| - 1], q) + if Matches(lines[|lines| - 1], q) then 1 else 0
  }

  /** The report's own counter for a question about customers. */
  function CounterFor(c: Customers, q: Query): nat {
    match q
    case In(bucket) => At(c.endings, bucket)
    case Reaches(stage) => Found(c.byReach, stage, NO_REACH).runs
    case Cell(stage, kind) => At(Found(c.byReach, stage, NO_REACH).endings, kind)
    case IsAt(square) => At(c.openBySquare, square)
    case ConvertedAfter(event) => At(c.afterByEvent, event)
    case WasAnswered => c.reached
    case _ => 0
  }

  /** ... and about calls. */
  predicate IsAboutCalls(q: Query) {
    q.WasDialled? || q.WasPlaced? || q.HasFinished?
  }

  lemma OneMoreRunCounts(c: Customers, line: Line, q: Query)
    requires !IsAboutCalls(q)
    ensures CounterFor(CustomerAdded(c, line), q) == CounterFor(c, q) + if Matches(line, q) then 1 else 0
  {
  }

  /** Every counter is a count of runs: of the runs in that bucket, at that stage,
      in that cell, on that square, ... */
  lemma {:induction false} EveryCounterCounts(lines: seq<Line>, q: Query)
    requires !IsAboutCalls(q)
    ensures CounterFor(CustomersOf(lines), q) == Count(lines, q)
  {
    if lines != [] {
      EveryCounterCounts(lines[..|lines| - 1], q);
      OneMoreRunCounts(CustomersOf(lines[..|lines| - 1]), lines[|lines| - 1], q);
    }
  }

  /** Calls per customer, and the chart's bars, count runs too. */
  lemma {:induction false} EveryChartCounts(lines: seq<Line>, calls: nat)
    ensures At(CallsOf(lines).perCustomer, calls) == Count(lines, WasPlaced(calls))
    ensures Found(CallsOf(lines).histogram, calls, NO_BAR).runs == Count(lines, HasFinished(calls))
  {
    if lines != [] {
      EveryChartCounts(lines[..|lines| - 1], calls);
    }
  }

  // ---- Partitions ----

  /** The seven endings partition the runs. */
  lemma {:induction false} EndingsPartitionTheRuns(lines: seq<Line>)
    ensures |lines|
            == Count(lines, In(GoalMetBeforeReach)) + Count(lines, In(GoalMetAfterReach))
             + Count(lines, In(WithdrawnBeforeReach)) + Count(lines, In(WithdrawnAfterReach))
             + Count(lines, In(EjectedRuns)) + Count(lines, In(OtherRuns)) + Count(lines, In(OpenRuns))
  {
    if lines != [] {
      EndingsPartitionTheRuns(lines[..|lines| - 1]);
    }
  }

  /** So do the three stages. */
  lemma {:induction false} StagesPartitionTheRuns(lines: seq<Line>)
    ensures |lines|
            == Count(lines, Reaches(NeverDialled)) + Count(lines, Reaches(DialledNoAnswer))
             + Count(lines, Reaches(Spoke))
  {
    if lines != [] {
      StagesPartitionTheRuns(lines[..|lines| - 1]);
    }
  }

  /** The five kinds partition each stage. */
  lemma {:induction false} KindsPartitionAStage(lines: seq<Line>, stage: Stage)
    ensures Count(lines, Reaches(stage))
            == Count(lines, Cell(stage, GoalMet)) + Count(lines, Cell(stage, Withdrawn))
             + Count(lines, Cell(stage, Ejected)) + Count(lines, Cell(stage, OtherEnded))
             + Count(lines, Cell(stage, StillOpen))
  {
    if lines != [] {
      KindsPartitionAStage(lines[..|lines| - 1], stage);
    }
  }

  /** The two cuts agree: "after we spoke" is the spoke column ... */
  lemma {:induction false} AfterIsSpoke(lines: seq<Line>)
    ensures Count(lines, In(GoalMetAfterReach)) == Count(lines, Cell(Spoke, GoalMet))
    ensures Count(lines, In(WithdrawnAfterReach)) == Count(lines, Cell(Spoke, Withdrawn))
  {
    if lines != [] {
      AfterIsSpoke(lines[..|lines| - 1]);
    }
  }

  /** ... and "before" is the other two. */
  lemma {:induction false} BeforeIsNotSpoke(lines: seq<Line>)
    ensures Count(lines, In(GoalMetBeforeReach))
            == Count(lines, Cell(NeverDialled, GoalMet)) + Count(lines, Cell(DialledNoAnswer, GoalMet))
    ensures Count(lines, In(WithdrawnBeforeReach))
            == Count(lines, Cell(NeverDialled, Withdrawn)) + Count(lines, Cell(DialledNoAnswer, Withdrawn))
  {
    if lines != [] {
      BeforeIsNotSpoke(lines[..|lines| - 1]);
    }
  }

  // ---- The customer table ----

  lemma {:induction false} RunsAreCounted(lines: seq<Line>)
    ensures CustomersOf(lines).runs == |lines|
    ensures |CustomersOf(lines).keys| <= |lines|
  {
    if lines != [] {
      RunsAreCounted(lines[..|lines| - 1]);
    }
  }

  /** It always sums to its runs. */
  lemma CustomerTableSumsToTheRuns(lines: seq<Line>)
    ensures var c := CustomersOf(lines);
            && c.runs == |lines|
            && c.runs == At(c.endings, GoalMetBeforeReach) + At(c.endings, GoalMetAfterReach)
                       + At(c.endings, WithdrawnBeforeReach) + At(c.endings, WithdrawnAfterReach)
                       + At(c.endings, EjectedRuns) + At(c.endings, OtherRuns) + At(c.endings, OpenRuns)
  {
    RunsAreCounted(lines);
    EndingsPartitionTheRuns(lines);
    EveryCounterCounts(lines, In(GoalMetBeforeReach));
    EveryCounterCounts(lines, In(GoalMetAfterReach));
    EveryCounterCounts(lines, In(WithdrawnBeforeReach));
    EveryCounterCounts(lines, In(WithdrawnAfterReach));
    EveryCounterCounts(lines, In(EjectedRuns));
    EveryCounterCounts(lines, In(OtherRuns));
    EveryCounterCounts(lines, In(OpenRuns));
  }

  function StageRuns(c: Customers, stage: Stage): nat {
    Found(c.byReach, stage, NO_REACH).runs
  }

  function CellRuns(c: Customers, stage: Stage, kind: Kind): nat {
    At(Found(c.byReach, stage, NO_REACH).endings, kind)
  }

  /** The flow chart is a true whole: entered, stage, ending. */
  lemma FlowChartIsAWhole(lines: seq<Line>, stage: Stage)
    ensures var c := CustomersOf(lines);
            && |lines| == StageRuns(c, NeverDialled) + StageRuns(c, DialledNoAnswer) + StageRuns(c, Spoke)
            && StageRuns(c, stage) == CellRuns(c, stage, GoalMet) + CellRuns(c, stage, Withdrawn)
                                    + CellRuns(c, stage, Ejected) + CellRuns(c, stage, OtherEnded)
                                    + CellRuns(c, stage, StillOpen)
  {
    StagesPartitionTheRuns(lines);
    KindsPartitionAStage(lines, stage);
    forall s ensures StageRuns(CustomersOf(lines), s) == Count(lines, Reaches(s)) {
      EveryCounterCounts(lines, Reaches(s));
    }
    forall kind ensures CellRuns(CustomersOf(lines), stage, kind) == Count(lines, Cell(stage, kind)) {
      EveryCounterCounts(lines, Cell(stage, kind));
    }
  }

  /** The two cuts of the same runs agree. */
  lemma TheCutsAgree(lines: seq<Line>)
    ensures var c := CustomersOf(lines);
            && At(c.endings, GoalMetAfterReach) == CellRuns(c, Spoke, GoalMet)
            && At(c.endings, WithdrawnAfterReach) == CellRuns(c, Spoke, Withdrawn)
            && At(c.endings, GoalMetBeforeReach)
               == CellRuns(c, NeverDialled, GoalMet) + CellRuns(c, DialledNoAnswer, GoalMet)
  {
    AfterIsSpoke(lines);
    BeforeIsNotSpoke(lines);
    EveryCounterCounts(lines, In(GoalMetAfterReach));
    EveryCounterCounts(lines, In(WithdrawnAfterReach));
    EveryCounterCounts(lines, In(GoalMetBeforeReach));
    EveryCounterCounts(lines, Cell(Spoke, GoalMet));
    EveryCounterCounts(lines, Cell(Spoke, Withdrawn));
    EveryCounterCounts(lines, Cell(NeverDialled, GoalMet));
    EveryCounterCounts(lines, Cell(DialledNoAnswer, GoalMet));
  }

  lemma OneMoreRunSums(c: Customers, line: Line)
    ensures var after := CustomerAdded(c, line);
            && Total(after.openBySquare) == Total(c.openBySquare) + (if line.kind.StillOpen? then 1 else 0)
            && Total(after.afterByEvent)
               == Total(c.afterByEvent) + (if BucketOf(line).GoalMetAfterReach? then 1 else 0)
  {
    TotalBumped(c.openBySquare, line.square, 1);
    TotalBumped(c.afterByEvent, line.event, 1);
  }

  /** Where the open runs stand sums to the open runs, and the split of the goals
      met after we spoke sums to those. */
  lemma {:induction false} DictionariesSumUp(lines: seq<Line>)
    ensures var c := CustomersOf(lines);
            && Total(c.openBySquare) == At(c.endings, OpenRuns)
            && Total(c.afterByEvent) == At(c.endings, GoalMetAfterReach)
  {
    if lines != [] {
      var before, line := CustomersOf(lines[..|lines| - 1]), lines[|lines| - 1];
      DictionariesSumUp(lines[..|lines| - 1]);
      OneMoreRunSums(before, line);
      OneMoreRunCounts(before, line, In(OpenRuns));
      OneMoreRunCounts(before, line, In(GoalMetAfterReach));
    }
  }
}
