/** What a compiled ladder carries, in the words the ladder was written in: its
    names, clocks, actions, arrows and doors (outreach/ladder.py, `_board`). */
module LadderSquares {
  import opened Wrappers
  import opened Board
  import opened Steps
  import opened Walker
  import opened Ladder
  import opened LadderLaws
  import opened LadderRefinement

  // ---- Names ----

  predicate IsWordChar(c: char) {
    'a' <= c <= 'z' || 'A' <= c <= 'Z' || '0' <= c <= '9'
  }

  predicate IsWordly(name: string) {
    forall c | c in name :: IsWordChar(c)
  }

  predicate IsGap(name: string) {
    forall c | c in name :: !IsWordChar(c)
  }

  function LowerCase(c: char): char {
    if 'A' <= c <= 'Z' then "abcdefghijklmnopqrstuvwxyz"[c as int - 'A' as int] else c
  }

  function Lowered(name: string): string {
    seq(|name|, i requires 0 <= i < |name| => LowerCase(name[i]))
  }

  lemma LoweringIsLowerCase(c: char)
    ensures Lower(c) == LowerCase(c) && (IsSlugChar(Lower(c)) <==> IsWordChar(c))
  {
    if 'A' <= c <= 'Z' {
      var letters := "abcdefghijklmnopqrstuvwxyz";
      assert forall i | 0 <= i < 26 :: letters[i] as int == 'a' as int + i;
    }
  }

  /** A topic is named by what follows its last dot. */
  lemma {:induction false} NamesFollowTheLastDot(path: string, name: string)
    requires '.' !in name
    ensures AfterLastDot(path + "." + name) == name
  {
    var topic := path + "." + name;
    if name == "" {
      assert topic[|topic| - 1] == '.';
    } else {
      assert topic[|topic| - 1] == name[|name| - 1] && name[|name| - 1] in name;
      assert topic[..|topic| - 1] == path + "." + name[..|name| - 1];
      NamesFollowTheLastDot(path, name[..|name| - 1]);
    }
  }

  lemma {:induction false} DottlessIsItsOwnName(name: string)
    requires '.' !in name
    ensures AfterLastDot(name) == name
  {
    if name != "" {
      assert name[|name| - 1] in name;
      DottlessIsItsOwnName(name[..|name| - 1]);
      assert name == name[..|name| - 1] + [name[|name| - 1]];
    }
  }

  lemma {:induction false} WordsAreLowered(word: string, rest: string, inRun: bool)
    requires IsWordly(word) && word != ""
    ensures Dashed(word + rest, inRun) == Lowered(word) + Dashed(rest, false)
  {
    assert (word + rest)[0] == word[0] && (word + rest)[1..] == word[1..] + rest && word[0] in word;
    LoweringIsLowerCase(word[0]);
    assert Lowered(word) == [LowerCase(word[0])] + Lowered(word[1..]);
    if |word| > 1 {
      WordsAreLowered(word[1..], rest, false);
    } else {
      assert word[1..] + rest == rest;
    }
  }

  lemma {:induction false} GapsAreOneDash(gap: string, rest: string, inRun: bool)
    requires IsGap(gap) && gap != ""
    ensures Dashed(gap + rest, inRun) == (if inRun then "" else "-") + Dashed(rest, true)
  {
    assert (gap + rest)[0] == gap[0] && (gap + rest)[1..] == gap[1..] + rest && gap[0] in gap;
    LoweringIsLowerCase(gap[0]);
    if |gap| > 1 {
      GapsAreOneDash(gap[1..], rest, true);
    } else {
      assert gap[1..] + rest == rest;
    }
  }

  /** Words are kept, lower-cased, and each gap between two of them is one dash;
      gaps in front and behind are dropped. So the slug of any name is its words. */
  function Joined(words: seq<string>): string
    requires words != []
  {
    if |words| == 1 then Lowered(words[0]) else Lowered(words[0]) + "-" + Joined(words[1..])
  }

  /** `words` with a gap before each and one at the end. */
  function Spelling(gaps: seq<string>, words: seq<string>, last: string): string
    requires |gaps| == |words|
  {
    if words == [] then last else gaps[0] + words[0] + Spelling(gaps[1..], words[1..], last)
  }

  ghost predicate IsSpelling(gaps: seq<string>, words: seq<string>, last: string) {
    && |gaps| == |words| > 0 && IsGap(last)
    && (forall i | 0 <= i < |words| :: words[i] != "" && IsWordly(words[i]) && IsGap(gaps[i]))
    && forall i | 1 <= i < |gaps| :: gaps[i] != ""
  }

  /** What the dashing makes of a spelling that begins with a word. */
  lemma {:induction false} DashedAfterAWord(gaps: seq<string>, words: seq<string>, last: string, inRun: bool)
    requires IsSpelling(gaps, words, last) && gaps[0] == ""
    ensures Dashed(Spelling(gaps, words, last), inRun) == Joined(words) + (if last == "" then "" else "-")
    decreases |words|
  {
    var rest := Spelling(gaps[1..], words[1..], last);
    assert Spelling(gaps, words, last) == words[0] + rest;
    WordsAreLowered(words[0], rest, inRun);
    if |words| == 1 {
      assert rest == last && last + "" == last;
      if last != "" {
        GapsAreOneDash(last, "", false);
      }
    } else {
      var others := gaps[1..][0 := ""];
      TheFirstGapIsInFront(gaps[1..], words[1..], last);
      GapsAreOneDash(gaps[1], Spelling(others, words[1..], last), false);
      DashedAfterAWord(others, words[1..], last, true);
    }
  }

  lemma {:induction false} JoinedHasNoEdges(words: seq<string>)
    requires words != [] && forall i | 0 <= i < |words| :: words[i] != "" && IsWordly(words[i])
    ensures Joined(words) != "" && Joined(words)[0] != '-' && Joined(words)[|Joined(words)| - 1] != '-'
  {
    assert words[0][0] in words[0] && words[0][|words[0]| - 1] in words[0];
    LoweringIsLowerCase(words[0][0]);
    LoweringIsLowerCase(words[0][|words[0]| - 1]);
    if |words| > 1 {
      JoinedHasNoEdges(words[1..]);
    }
  }

  lemma TrimmingLeaves(text: string, before: string, after: string)
    requires text != "" && text[0] != '-' && text[|text| - 1] != '-' && before in {"", "-"} && after in {"", "-"}
    ensures WithoutTrailingDashes(WithoutLeadingDashes(before + text + after)) == text
  {
    var all := before + text + after;
    if before == "-" {
      assert all[0] == '-' && all[1..] == text + after;
    } else {
      assert all == text + after;
    }
    assert WithoutLeadingDashes(all) == text + after by {
      assert (text + after)[0] == text[0];
    }
    if after == "-" {
      assert (text + after)[|text|] == '-' && (text + after)[..|text|] == text;
    } else {
      assert text + after == text;
    }
  }

  lemma TheFirstGapIsInFront(gaps: seq<string>, words: seq<string>, last: string)
    requires |gaps| == |words| > 0
    ensures Spelling(gaps, words, last) == gaps[0] + Spelling(gaps[0 := ""], words, last)
  {
    assert gaps[0 := ""][1..] == gaps[1..];
    var rest := Spelling(gaps[1..], words[1..], last);
    assert Spelling(gaps[0 := ""], words, last) == words[0] + rest;
    assert gaps[0] + words[0] + rest == gaps[0] + (words[0] + rest);
  }

  lemma NamesAreDashed(gaps: seq<string>, words: seq<string>, last: string)
    requires IsSpelling(gaps, words, last)
    ensures Dashed(Spelling(gaps, words, last), false)
            == (if gaps[0] == "" then "" else "-") + Joined(words) + (if last == "" then "" else "-")
  {
    var bare := gaps[0 := ""];
    TheFirstGapIsInFront(gaps, words, last);
    if gaps[0] == "" {
      assert bare == gaps;
      DashedAfterAWord(gaps, words, last, false);
    } else {
      GapsAreOneDash(gaps[0], Spelling(bare, words, last), false);
      DashedAfterAWord(bare, words, last, true);
    }
  }

  /** The slug of a topic is the words after its last dot, lower-cased, one dash
      between any two. */
  lemma SlugsAreTheWords(path: string, gaps: seq<string>, words: seq<string>, last: string)
    requires IsSpelling(gaps, words, last) && '.' !in Spelling(gaps, words, last)
    ensures SlugOf(path + "." + Spelling(gaps, words, last)) == Joined(words)
    ensures SlugOf(Spelling(gaps, words, last)) == Joined(words)
  {
    NamesFollowTheLastDot(path, Spelling(gaps, words, last));
    DottlessIsItsOwnName(Spelling(gaps, words, last));
    NamesAreDashed(gaps, words, last);
    JoinedHasNoEdges(words);
    TrimmingLeaves(Joined(words), if gaps[0] == "" then "" else "-", if last == "" then "" else "-");
  }

  // ---- Squares ----

  /** A stage's own clock for silence, or the ladder's. */
  function IdleOf(stages: Stages, topic: string): int {
    if topic in stages.overrides && stages.overrides[topic].idle.Some? then stages.overrides[topic].idle.value
    else stages.idle
  }

  /** Its own clock for listening after the action, or the ladder's. */
  function ListeningOf(stages: Stages, topic: string): int {
    if topic in stages.overrides && stages.overrides[topic].afterAction.Some? then
      stages.overrides[topic].afterAction.value
    else stages.afterAction
  }

  /** Its own action, or the ladder's. */
  function ActionOf(stages: Stages, topic: string): StageAction {
    if topic in stages.overrides && stages.overrides[topic].onIdle.Some? then stages.overrides[topic].onIdle.value
    else stages.onIdle
  }

  function At(topic: string): string {
    "at-" + SlugOf(topic)
  }

  function Act(topic: string): string {
    "act-" + SlugOf(topic)
  }

  function After(topic: string): string {
    "after-" + SlugOf(topic)
  }

  /** In the board of any ladder the expander honours: a stage's square waits its
      own idle time, or the ladder's, listening for every later stage; its action
      is its own, or the ladder's; after it, it listens its own time, or the
      ladder's; and its door starts a run on the square, sliding by that idle time,
      with the ladder's word on repeats. */
  lemma EverySquareIsTheLadders(stages: Stages, i: nat)
    requires IsShaped(stages) && SlugsAreDistinct(stages.order) && i < |stages.order|
    ensures var board := BoardOf(stages);
            var topic := stages.order[i];
            var later := stages.order[i + 1..];
            && NodeNamed(board.nodes, At(topic))
               == Some(Node(At(topic), Wait, Some(IdleOf(stages, topic)), later, None, Some(topic)))
            && NodeNamed(board.nodes, Act(topic))
               == Some(Node(Act(topic), ActionOf(stages, topic).kind, None, [], None, Some(topic)))
            && (later != [] ==>
                  NodeNamed(board.nodes, After(topic))
                  == Some(Node(After(topic), Wait, Some(ListeningOf(stages, topic)), later, None, Some(topic))))
            && |board.doors| == |stages.order|
            && board.doors[i] == Door(topic, At(topic), IdleOf(stages, topic), stages.restartOnRepeat)
  {
    LaddersAreFunnels(stages);
    var f := StagesOf(stages);
    StageNodesAreNamed(f, i);
    assert Topics(f) == stages.order;
  }

  /** To the square of every later stage, on its letter. */
  function OnLetters(stages: Stages, j: nat): seq<Arrow>
    requires j <= |stages.order|
    decreases |stages.order| - j
  {
    if j == |stages.order| then []
    else [Arrow(At(stages.order[j]), Some(stages.order[j]))] + OnLetters(stages, j + 1)
  }

  lemma {:induction false} LaterArrowsAreOnLetters(stages: Stages, j: nat)
    requires j <= |stages.order|
    ensures LaterArrows(StagesOf(stages), j) == OnLetters(stages, j)
    decreases |stages.order| - j
  {
    if j < |stages.order| {
      LaterArrowsAreOnLetters(stages, j + 1);
      FirstLaterArrow(StagesOf(stages), j);
    }
  }

  /** A stage is left by a later stage's letter, or, by silence, onto its action;
      the action onto listening; that by a later letter. The last stage has only
      its action to lead to, and nothing after. */
  lemma EveryArrowIsTheLadders(stages: Stages, i: nat)
    requires IsShaped(stages) && SlugsAreDistinct(stages.order) && i < |stages.order|
    ensures var edges := BoardOf(stages).edges;
            var topic := stages.order[i];
            if i + 1 == |stages.order| then
              ArrowsFrom(edges, At(topic)) == [Arrow(Act(topic), None)] && ArrowsFrom(edges, Act(topic)) == []
            else
              && ArrowsFrom(edges, At(topic)) == OnLetters(stages, i + 1) + [Arrow(Act(topic), Some(TIMEOUT))]
              && ArrowsFrom(edges, Act(topic)) == [Arrow(After(topic), None)]
              && ArrowsFrom(edges, After(topic)) == OnLetters(stages, i + 1)
  {
    LaddersAreFunnels(stages);
    BoardArrows(StagesOf(stages), i);
    LaterArrowsAreOnLetters(stages, i + 1);
  }

  // ---- Clocks ----

  /** The square, and the clock, a visit leaves a run with. */
  function SquareAndClock(stages: Stages, place: Place): (string, int)
    requires IsPlace(|stages.order|, place) && !place.Done?
  {
    var topic := stages.order[place.stage];
    if place.Idle? then (At(topic), IdleOf(stages, topic)) else (After(topic), ListeningOf(stages, topic))
  }

  /** So a visit to a run on the ladder writes the next square of the funnel, and
      the wake it stores is the instant it left plus that square's own time. */
  lemma EveryVisitSetsTheLaddersClock(
    stages: Stages, goals: seq<Goal>, maxAge: int, run: Run, world: World, place: Place, signal: Signal)
    requires IsShaped(stages) && SlugsAreDistinct(stages.order)
    requires TIMEOUT !in stages.order && ELSE !in stages.order
    requires IsPlace(|stages.order|, place) && CanHear(|stages.order|, place, signal) && !place.Done?
    requires run.node == SquareAndClock(stages, place).0 && run.arrivedAt.Some?
    requires Get(run.context, ReplyKey(run.node))
             == if signal.Silence? then None else Some(Text(stages.order[signal.stage]))
    requires Uneventful(LadderDoc(StagesOf(stages), goals, maxAge), run, world)
    ensures var next := Follow(|stages.order|, place, signal);
            var ending := Visit(LadderDoc(StagesOf(stages), goals, maxAge), run, world);
            IsPlace(|stages.order|, next)
            && WaitsThere(stages, next, world.leftAt(if place.Idle? && signal.Silence? then 1 else 0), ending)
  {
    PlacesAreTheLadders(stages, place);
    LadderVisitsFollowTheFunnel(stages, goals, maxAge, run, world, place, signal);
    EveryVisitAdvances(|stages.order|, place, signal);
    var next := Follow(|stages.order|, place, signal);
    if !next.Done? {
      PlacesAreTheLadders(stages, next);
    }
    FollowingWaitsThere(stages, place, signal, world, Visit(LadderDoc(StagesOf(stages), goals, maxAge), run, world));
  }

  lemma FollowingWaitsThere(stages: Stages, place: Place, signal: Signal, world: World, ending: Ending)
    requires IsPlace(|stages.order|, place) && CanHear(|stages.order|, place, signal) && !place.Done?
    requires Follows(StagesOf(stages), place, signal, world, ending)
    requires var next := Follow(|stages.order|, place, signal);
             !next.Done? ==>
               IsPlace(|stages.order|, next)
               && SquareAndClock(stages, next) == (SquareOf(StagesOf(stages), next), ClockOf(StagesOf(stages), next))
    ensures var next := Follow(|stages.order|, place, signal);
            IsPlace(|stages.order|, next)
            && WaitsThere(stages, next, world.leftAt(if place.Idle? && signal.Silence? then 1 else 0), ending)
  {
  }

  lemma PlacesAreTheLadders(stages: Stages, place: Place)
    requires IsPlace(|stages.order|, place) && !place.Done?
    ensures SquareAndClock(stages, place) == (SquareOf(StagesOf(stages), place), ClockOf(StagesOf(stages), place))
  {
  }

  /** Over, or on this place's square, with its clock running since `left`. */
  predicate WaitsThere(stages: Stages, next: Place, left: int, ending: Ending)
    requires IsPlace(|stages.order|, next)
  {
    && ending.Writes?
    && if next.Done? then ending.move.Exits? && ending.move.reason == "completed"
       else
         && ending.move.Moved? && ending.move.node == SquareAndClock(stages, next).0
         && ending.move.wake == left + SquareAndClock(stages, next).1
  }
}
