/** The words a square hands over (outreach/playbook.py): one row per block is
    picked, its lines are filled from the run's facts, and a hole nobody can
    fill parks the run by name. */
module Playbook {
  import opened Wrappers

  // ---- The playbook ----

  /** A condition; `test` stands for its operator and operand. */
  datatype Condition = Condition(field: string, test: nat)

  /** One line's name, or an ordered list of them. */
  datatype Say = One(line: string) | Many(lines: seq<string>)

  datatype BlockRow = BlockRow(when: seq<Condition>, say: Say)

  /** `transform`: the built-ins a fact passes through wherever it is read. */
  datatype Book = Book(
    lines: map<string, string>, blocks: map<string, seq<BlockRow>>, transform: map<string, seq<string>>)

  /** A run's fact as a line may read it: a text or a number is a scalar; null, a
      boolean and anything structured has no value to speak. */
  datatype Fact = Scalar(text: string) | NoValue

  /** What a resolution reads: which conditions hold, the facts, and what each
      built-in makes of a value (None when it raises, or is not a built-in). */
  datatype Reading = Reading(
    holds: Condition -> bool, facts: map<string, Fact>, apply: (string, string) -> Option<string>)

  function NamesSaid(say: Say): seq<string> {
    match say
    case One(line) => [line]
    case Many(lines) => lines
  }

  // ---- Holes ----

  predicate IsNameStart(c: char) {
    'A' <= c <= 'Z' || 'a' <= c <= 'z' || c == '_'
  }

  predicate IsNameChar(c: char) {
    IsNameStart(c) || '0' <= c <= '9'
  }

  predicate IsName(name: string) {
    name != "" && IsNameStart(name[0]) && forall c | c in name :: IsNameChar(c)
  }

  /** A line as the filler reads it: its characters, and its holes. */
  datatype Piece = Plain(c: char) | Hole(name: string)

  /** The longest run of name characters in front. */
  function NameLength(text: string): (n: nat)
    ensures n <= |text| && (forall i | 0 <= i < n :: IsNameChar(text[i]))
    ensures n < |text| ==> !IsNameChar(text[n])
  {
    if text == "" || !IsNameChar(text[0]) then 0 else 1 + NameLength(text[1..])
  }

  /** The name of the hole `text` begins with. */
  function FrontHole(text: string): (hole: Option<string>)
    ensures hole.Some? ==> IsName(hole.value) && "{" + hole.value + "}" <= text
  {
    if text == "" || text[0] != '{' then None
    else
      var n := NameLength(text[1..]);
      if n == 0 || !IsNameStart(text[1]) || n + 1 == |text| || text[n + 1] != '}' then None
      else
        assert text[..n + 2] == "{" + text[1..n + 1] + "}";
        Some(text[1..n + 1])
  }

  /** Left to right, never overlapping. */
  function Pieces(text: string): seq<Piece>
    decreases |text|
  {
    if text == "" then []
    else
      var hole := FrontHole(text);
      if hole.Some? then [Hole(hole.value)] + Pieces(text[|hole.value| + 2..])
      else [Plain(text[0])] + Pieces(text[1..])
  }

  function Spelled(piece: Piece): string {
    match piece
    case Plain(c) => [c]
    case Hole(name) => "{" + name + "}"
  }

  function Spell(pieces: seq<Piece>): string {
    if pieces == [] then "" else Spelled(pieces[0]) + Spell(pieces[1..])
  }

  lemma FrontHoleSplits(text: string)
    requires FrontHole(text).Some?
    ensures text == Spelled(Hole(FrontHole(text).value)) + text[|FrontHole(text).value| + 2..]
  {
  }

  lemma SpellOneMore(piece: Piece, pieces: seq<Piece>)
    ensures Spell([piece] + pieces) == Spelled(piece) + Spell(pieces)
  {
    assert ([piece] + pieces)[1..] == pieces;
  }

  /** Reading a line loses none of it. */
  lemma {:induction false} SpellingRoundTrips(text: string)
    ensures Spell(Pieces(text)) == text
    decreases |text|
  {
    if text != "" {
      var hole := FrontHole(text);
      if hole.Some? {
        var rest := text[|hole.value| + 2..];
        SpellingRoundTrips(rest);
        SpellOneMore(Hole(hole.value), Pieces(rest));
        FrontHoleSplits(text);
      } else {
        SpellingRoundTrips(text[1..]);
        SpellOneMore(Plain(text[0]), Pieces(text[1..]));
      }
    }
  }

  /** `{name}` is written at `i`. */
  predicate HoleAt(text: string, i: nat, name: string) {
    IsName(name) && i + |name| + 2 <= |text| && text[i..i + |name| + 2] == "{" + name + "}"
  }

  lemma NameLengthIs(text: string, name: string)
    requires |name| < |text| && text[..|name|] == name && text[|name|] == '}'
    requires forall c | c in name :: IsNameChar(c)
    ensures NameLength(text) == |name|
  {
    if name != "" {
      assert text[0] == name[0];
      assert text[1..][..|name| - 1] == name[1..];
      NameLengthIs(text[1..], name[1..]);
    } else {
      assert !IsNameChar('}');
    }
  }

  lemma FrontHoleIs(text: string, name: string)
    requires HoleAt(text, 0, name)
    ensures FrontHole(text) == Some(name)
  {
    var whole := "{" + name + "}";
    assert text[0..0 + |name| + 2] == whole;
    assert text[0] == whole[0] && text[1] == whole[1] == name[0] && text[|name| + 1] == whole[|name| + 1];
    assert text[1..|name| + 1] == whole[1..|name| + 1] == name;
    assert text[1..][..|name|] == name && text[1..][|name|] == '}';
    NameLengthIs(text[1..], name);
  }

  /** No hole begins inside another. */
  lemma HolesDoNotOverlap(text: string, outer: string, i: nat, name: string)
    requires HoleAt(text, 0, outer) && HoleAt(text, i, name) && i > 0
    ensures i >= |outer| + 2
  {
    var whole := "{" + outer + "}";
    assert text[0..0 + |outer| + 2] == whole && text[i..i + |name| + 2][0] == text[i];
    assert forall k | 0 <= k < |whole| :: text[k] == whole[k];
    assert forall k | 1 <= k <= |outer| :: whole[k] == outer[k - 1] && outer[k - 1] in outer;
  }

  lemma HoleShifts(text: string, k: nat, i: nat, name: string)
    requires HoleAt(text, i, name) && k <= i
    ensures HoleAt(text[k..], i - k, name)
  {
    assert text[k..][i - k..i - k + |name| + 2] == text[i..i + |name| + 2];
  }

  /** Every hole a line spells is found. */
  lemma {:induction false} EveryHoleIsFound(text: string, i: nat, name: string)
    requires HoleAt(text, i, name)
    ensures Hole(name) in Pieces(text)
    decreases |text|
  {
    if i == 0 {
      FrontHoleIs(text, name);
    } else {
      var hole := FrontHole(text);
      var skip := if hole.Some? then |hole.value| + 2 else 1;
      if hole.Some? {
        assert text[0..|hole.value| + 2] == "{" + hole.value + "}";
        HolesDoNotOverlap(text, hole.value, i, name);
      }
      HoleShifts(text, skip, i, name);
      EveryHoleIsFound(text[skip..], i - skip, name);
      assert Pieces(text)[1..] == Pieces(text[skip..]);
    }
  }

  // ---- Filling a line ----

  predicate IsSpace(c: char) {
    c == ' ' || c == '\t' || c == '\n' || c == '\r'
  }

  predicate IsBlank(text: string) {
    forall c | c in text :: IsSpace(c)
  }

  /** The pipeline; one built-in that raises leaves the value as it arrived. */
  function Piped(apply: (string, string) -> Option<string>, functions: seq<string>, value: string): Option<string> {
    if functions == [] then Some(value)
    else
      var once := apply(functions[0], value);
      if once.None? then None else Piped(apply, functions[1..], once.value)
  }

  /** A transform never empties a value that said something. */
  function Rendered(apply: (string, string) -> Option<string>, functions: seq<string>, value: string): (words: string)
    ensures !IsBlank(value) ==> !IsBlank(words)
    ensures Piped(apply, functions, value).None? ==> words == value
  {
    var piped := Piped(apply, functions, value);
    if piped.None? || IsBlank(piped.value) then value else piped.value
  }

  predicate HasValue(reading: Reading, name: string) {
    name in reading.facts && reading.facts[name].Scalar?
  }

  function FunctionsFor(book: Book, name: string): seq<string> {
    if name in book.transform then book.transform[name] else []
  }

  function Words(book: Book, reading: Reading, name: string): string
    requires HasValue(reading, name)
  {
    Rendered(reading.apply, FunctionsFor(book, name), reading.facts[name].text)
  }

  /** The first hole nobody can fill. */
  function FirstMissing(pieces: seq<Piece>, reading: Reading): (missing: Option<string>)
    ensures missing.None? <==> forall piece | piece in pieces && piece.Hole? :: HasValue(reading, piece.name)
    ensures missing.Some? ==> Hole(missing.value) in pieces && !HasValue(reading, missing.value)
  {
    if pieces == [] then None
    else if pieces[0].Hole? && !HasValue(reading, pieces[0].name) then Some(pieces[0].name)
    else FirstMissing(pieces[1..], reading)
  }

  function Filled(pieces: seq<Piece>, book: Book, reading: Reading): string
    requires forall piece | piece in pieces && piece.Hole? :: HasValue(reading, piece.name)
  {
    if pieces == [] then ""
    else
      Answered(pieces[0], book, reading) + Filled(pieces[1..], book, reading)
  }

  function Answered(piece: Piece, book: Book, reading: Reading): string
    requires piece.Hole? ==> HasValue(reading, piece.name)
  {
    match piece
    case Plain(c) => [c]
    case Hole(name) => Words(book, reading, name)
  }

  /** A line filled, or the hole that parks the run. */
  datatype Fill = Spoken(text: string) | MissingHole(line: string, hole: string)

  function FillOf(book: Book, reading: Reading, line: string): Fill
    requires line in book.lines
  {
    var pieces := Pieces(book.lines[line]);
    var missing := FirstMissing(pieces, reading);
    if missing.Some? then MissingHole(line, missing.value) else Spoken(Filled(pieces, book, reading))
  }

  /** `_fill`: each fact rendered once, then every hole answered. */
  method FillLine(book: Book, reading: Reading, line: string) returns (fill: Fill)
    requires line in book.lines
    ensures fill == FillOf(book, reading, line)
  {
    var pieces := Pieces(book.lines[line]);
    var missing, spoken := RenderFacts(pieces, book, reading);
    if missing.Some? {
      return MissingHole(line, missing.value);
    }
    var text := Answer(pieces, book, reading, spoken);
    return Spoken(text);
  }

  method RenderFacts(pieces: seq<Piece>, book: Book, reading: Reading)
    returns (missing: Option<string>, spoken: map<string, string>)
    ensures missing == FirstMissing(pieces, reading)
    ensures missing.None? ==> IsSpoken(pieces, book, reading, spoken)
  {
    spoken := map[];
    for i := 0 to |pieces|
      invariant FirstMissing(pieces, reading) == FirstMissing(pieces[i..], reading)
      invariant AllRendered(book, reading, spoken)
      invariant forall k | 0 <= k < i && pieces[k].Hole? :: pieces[k].name in spoken
    {
      assert pieces[i..][1..] == pieces[i + 1..];
      if pieces[i].Hole? {
        var name := pieces[i].name;
        if name !in reading.facts || !reading.facts[name].Scalar? {
          return Some(name), spoken;
        }
        if name !in spoken {
          spoken := spoken[name := Words(book, reading, name)];
        }
      }
    }
    return None, spoken;
  }

  ghost predicate AllRendered(book: Book, reading: Reading, spoken: map<string, string>) {
    forall name | name in spoken :: HasValue(reading, name) && spoken[name] == Words(book, reading, name)
  }

  /** Every hole's fact has been rendered. */
  ghost predicate IsSpoken(pieces: seq<Piece>, book: Book, reading: Reading, spoken: map<string, string>) {
    && AllRendered(book, reading, spoken)
    && forall k | 0 <= k < |pieces| && pieces[k].Hole? :: pieces[k].name in spoken
  }

  method Answer(pieces: seq<Piece>, book: Book, reading: Reading, spoken: map<string, string>) returns (text: string)
    requires FirstMissing(pieces, reading).None? && IsSpoken(pieces, book, reading, spoken)
    ensures text == Filled(pieces, book, reading)
  {
    text := "";
    assert pieces[0..] == pieces;
    for i := 0 to |pieces|
      invariant text + Filled(pieces[i..], book, reading) == Filled(pieces, book, reading)
    {
      OnePieceMore(text, pieces, i, book, reading);
      text := text + match pieces[i] case Plain(c) => [c] case Hole(name) => spoken[name];
    }
  }

  lemma OnePieceMore(text: string, pieces: seq<Piece>, i: nat, book: Book, reading: Reading)
    requires i < |pieces| && forall piece | piece in pieces && piece.Hole? :: HasValue(reading, piece.name)
    ensures text + Filled(pieces[i..], book, reading)
            == text + Answered(pieces[i], book, reading) + Filled(pieces[i + 1..], book, reading)
  {
    assert pieces[i..][0] == pieces[i] && pieces[i..][1..] == pieces[i + 1..];
  }

  // ---- Picking a row ----

  predicate Matches(when: seq<Condition>, reading: Reading) {
    forall condition | condition in when :: reading.holds(condition)
  }

  /** The first row whose conditions all hold; the last one when none does. */
  function Picked(rows: seq<BlockRow>, reading: Reading): (row: BlockRow)
    requires rows != []
    ensures row in rows
  {
    if |rows| == 1 || Matches(rows[0].when, reading) then rows[0] else Picked(rows[1..], reading)
  }

  method Pick(rows: seq<BlockRow>, reading: Reading) returns (row: BlockRow)
    requires rows != []
    ensures row == Picked(rows, reading)
  {
    for i := 0 to |rows|
      invariant i < |rows| ==> Picked(rows[i..], reading) == Picked(rows, reading)
      invariant i == |rows| ==> Picked(rows, reading) == rows[|rows| - 1]
    {
      if Matches(rows[i].when, reading) {
        return rows[i];
      }
      assert i + 1 < |rows| ==> rows[i..][1..] == rows[i + 1..];
    }
    return rows[|rows| - 1];
  }

  /** A block whose last row is a default has a row that holds, whatever the run:
      the one picked holds, and no row before it does. */
  lemma {:induction false} PickedRowHolds(rows: seq<BlockRow>, reading: Reading) returns (i: nat)
    requires rows != [] && rows[|rows| - 1].when == []
    ensures i < |rows| && rows[i] == Picked(rows, reading) && Matches(rows[i].when, reading)
    ensures forall k | 0 <= k < i :: !Matches(rows[k].when, reading)
  {
    if |rows| == 1 || Matches(rows[0].when, reading) {
      i := 0;
    } else {
      var j := PickedRowHolds(rows[1..], reading);
      i := j + 1;
    }
  }

  // ---- The laws resolution rests on ----

  predicate RowIsLawful(book: Book, rows: seq<BlockRow>, i: nat)
    requires i < |rows|
  {
    && (rows[i].when == [] <==> i == |rows| - 1)
    && forall line | line in NamesSaid(rows[i].say) :: line in book.lines
  }

  predicate BlockIsLawful(book: Book, name: string)
    requires name in book.blocks
  {
    book.blocks[name] != [] && forall i | 0 <= i < |book.blocks[name]| :: RowIsLawful(book, book.blocks[name], i)
  }

  predicate BlocksAreLawful(book: Book) {
    forall name | name in book.blocks :: BlockIsLawful(book, name)
  }

  datatype Problem =
    | NoRows(block: string) | LastRowHasWhen(block: string) | EarlyDefault(block: string, row: nat)
    | NoSuchLine(block: string, row: nat, line: string)

  method JudgeBlock(book: Book, name: string) returns (problems: seq<Problem>)
    requires name in book.blocks
    ensures problems == [] <==> BlockIsLawful(book, name)
  {
    var rows := book.blocks[name];
    problems := [];
    if rows == [] {
      return [NoRows(name)];
    }
    if rows[|rows| - 1].when != [] {
      problems := problems + [LastRowHasWhen(name)];
    }
    for i := 0 to |rows| - 1
      invariant problems == [] <==>
                rows[|rows| - 1].when == [] && forall k | 0 <= k < i :: rows[k].when != []
    {
      if rows[i].when == [] {
        problems := problems + [EarlyDefault(name, i)];
      }
    }
    ghost var defaults := problems == [];
    for i := 0 to |rows|
      invariant problems == [] <==>
                defaults && forall k, line | 0 <= k < i && line in NamesSaid(rows[k].say) :: line in book.lines
    {
      var said := NamesSaid(rows[i].say);
      for j := 0 to |said|
        invariant problems == [] <==>
                  && defaults
                  && (forall k, line | 0 <= k < i && line in NamesSaid(rows[k].say) :: line in book.lines)
                  && forall l | 0 <= l < j :: said[l] in book.lines
      {
        if said[j] !in book.lines {
          problems := problems + [NoSuchLine(name, i, said[j])];
        }
      }
    }
    RowByRow(book, rows);
  }

  /** A block's law, read off row by row. */
  lemma RowByRow(book: Book, rows: seq<BlockRow>)
    requires rows != []
    ensures (forall i | 0 <= i < |rows| :: RowIsLawful(book, rows, i)) <==>
            && rows[|rows| - 1].when == [] && (forall k | 0 <= k < |rows| - 1 :: rows[k].when != [])
            && forall k, line | 0 <= k < |rows| && line in NamesSaid(rows[k].say) :: line in book.lines
  {
    if forall i | 0 <= i < |rows| :: RowIsLawful(book, rows, i) {
      forall k | 0 <= k < |rows|
        ensures (rows[k].when == [] <==> k == |rows| - 1)
        ensures forall line | line in NamesSaid(rows[k].say) :: line in book.lines
      {
        assert RowIsLawful(book, rows, k);
      }
    }
  }

  /** No problem is found exactly when every block is lawful. */
  method JudgeBlocks(book: Book) returns (problems: seq<Problem>)
    ensures problems == [] <==> BlocksAreLawful(book)
  {
    problems := [];
    var rest := book.blocks.Keys;
    while rest != {}
      invariant rest <= book.blocks.Keys
      invariant problems == [] <==> forall name | name in book.blocks && name !in rest :: BlockIsLawful(book, name)
    {
      var name :| name in rest;
      rest := rest - {name};
      var more := JudgeBlock(book, name);
      problems := problems + more;
    }
  }

  // ---- Resolving ----

  /** All the blocks asked for, and the rows chosen; or the first hole that has no
      value; or a line that does not exist. */
  datatype Resolution =
    | Resolved(rendered: map<string, string>, chosen: map<string, string>)
    | Parks(line: string, hole: string)
    | Breaks(line: string)

  datatype Lines = AllSpoken(texts: seq<string>) | Stopped(how: Resolution)

  function LinesOf(book: Book, reading: Reading, said: seq<string>): (lines: Lines)
    ensures lines.AllSpoken? ==> |lines.texts| == |said|
    ensures lines.Stopped? ==> !lines.how.Resolved?
  {
    if said == [] then AllSpoken([])
    else
      var before := LinesOf(book, reading, said[..|said| - 1]);
      if before.Stopped? then before
      else
        var line := said[|said| - 1];
        if line !in book.lines then Stopped(Breaks(line))
        else
          match FillOf(book, reading, line)
          case Spoken(text) => AllSpoken(before.texts + [text])
          case MissingHole(l, hole) => Stopped(Parks(l, hole))
  }

  function Joined(parts: seq<string>, glue: string): string {
    if parts == [] then "" else if |parts| == 1 then parts[0] else parts[0] + glue + Joined(parts[1..], glue)
  }

  function Steps(said: seq<string>, texts: seq<string>): seq<string>
    requires |said| == |texts|
  {
    seq(|said|, i requires 0 <= i < |said| == |texts| => "- " + said[i] + ": \"" + texts[i] + "\"")
  }

  /** One line is its text; a list is one step a line, in order. */
  function BlockText(say: Say, texts: seq<string>): string
    requires |texts| == |NamesSaid(say)|
  {
    match say
    case One(_) => texts[0]
    case Many(lines) => Joined(Steps(lines, texts), "\n")
  }

  function ChosenName(say: Say): string {
    match say
    case One(line) => line
    case Many(lines) => Joined(lines, ",")
  }

  function ResolveOne(book: Book, reading: Reading, so: Resolution, name: string): Resolution
    requires so.Resolved?
  {
    if name !in book.blocks || book.blocks[name] == [] then so
    else
      var say := Picked(book.blocks[name], reading).say;
      var lines := LinesOf(book, reading, NamesSaid(say));
      if lines.Stopped? then lines.how
      else
        Resolved(so.rendered[name := BlockText(say, lines.texts)], so.chosen[name := ChosenName(say)])
  }

  function ResolutionOf(book: Book, reading: Reading, wanted: seq<string>): Resolution {
    if wanted == [] then Resolved(map[], map[])
    else
      var before := ResolutionOf(book, reading, wanted[..|wanted| - 1]);
      if before.Resolved? then ResolveOne(book, reading, before, wanted[|wanted| - 1]) else before
  }

  method SayLines(book: Book, reading: Reading, said: seq<string>) returns (lines: Lines)
    ensures lines == LinesOf(book, reading, said)
  {
    var texts: seq<string> := [];
    for i := 0 to |said|
      invariant LinesOf(book, reading, said[..i]) == AllSpoken(texts)
    {
      assert said[..i + 1][..i] == said[..i];
      StopsStay(book, reading, said, i + 1);
      if said[i] !in book.lines {
        return Stopped(Breaks(said[i]));
      }
      var fill := FillLine(book, reading, said[i]);
      if fill.MissingHole? {
        return Stopped(Parks(fill.line, fill.hole));
      }
      texts := texts + [fill.text];
    }
    assert said[..|said|] == said;
    return AllSpoken(texts);
  }

  /** Once a line stops the resolution, later lines are never read. */
  lemma {:induction false} StopsStay(book: Book, reading: Reading, said: seq<string>, i: nat)
    requires i <= |said|
    ensures LinesOf(book, reading, said[..i]).Stopped? ==>
              LinesOf(book, reading, said) == LinesOf(book, reading, said[..i])
  {
    if i < |said| {
      assert said[..|said| - 1][..i] == said[..i];
      StopsStay(book, reading, said[..|said| - 1], i);
    } else {
      assert said[..i] == said;
    }
  }

  lemma {:induction false} EndsStay(book: Book, reading: Reading, wanted: seq<string>, i: nat)
    requires i <= |wanted|
    ensures !ResolutionOf(book, reading, wanted[..i]).Resolved? ==>
              ResolutionOf(book, reading, wanted) == ResolutionOf(book, reading, wanted[..i])
  {
    if i < |wanted| {
      assert wanted[..|wanted| - 1][..i] == wanted[..i];
      EndsStay(book, reading, wanted[..|wanted| - 1], i);
    } else {
      assert wanted[..i] == wanted;
    }
  }

  /** `resolve`. */
  method Resolve(book: Book, reading: Reading, wanted: seq<string>) returns (resolution: Resolution)
    ensures resolution == ResolutionOf(book, reading, wanted)
  {
    var rendered: map<string, string>, chosen: map<string, string> := map[], map[];
    for i := 0 to |wanted|
      invariant ResolutionOf(book, reading, wanted[..i]) == Resolved(rendered, chosen)
    {
      assert wanted[..i + 1][..i] == wanted[..i];
      EndsStay(book, reading, wanted, i + 1);
      var name := wanted[i];
      if name !in book.blocks || book.blocks[name] == [] {
        continue;
      }
      var row := Pick(book.blocks[name], reading);
      var lines := SayLines(book, reading, NamesSaid(row.say));
      if lines.Stopped? {
        return lines.how;
      }
      chosen := chosen[name := ChosenName(row.say)];
      rendered := rendered[name := BlockText(row.say, lines.texts)];
    }
    assert wanted[..|wanted|] == wanted;
    return Resolved(rendered, chosen);
  }

  // ---- A lawful playbook resolves ----

  /** Every hole of every line this block would say has a value. */
  predicate CanSpeak(book: Book, reading: Reading, name: string)
    requires name in book.blocks && BlockIsLawful(book, name)
  {
    forall line | line in NamesSaid(Picked(book.blocks[name], reading).say) ::
      line in book.lines && LineCanSpeak(book, reading, line)
  }

  predicate LineCanSpeak(book: Book, reading: Reading, line: string)
    requires line in book.lines
  {
    forall piece | piece in Pieces(book.lines[line]) && piece.Hole? :: HasValue(reading, piece.name)
  }

  lemma {:induction false} LinesSpeakIff(book: Book, reading: Reading, said: seq<string>)
    requires forall line | line in said :: line in book.lines
    ensures LinesOf(book, reading, said).AllSpoken? <==>
            forall line | line in said :: LineCanSpeak(book, reading, line)
    ensures LinesOf(book, reading, said).Stopped? ==>
              var how := LinesOf(book, reading, said).how;
              && how.Parks? && how.line in said
              && Hole(how.hole) in Pieces(book.lines[how.line]) && !HasValue(reading, how.hole)
  {
    if said != [] {
      var before, line := said[..|said| - 1], said[|said| - 1];
      assert said == before + [line];
      LinesSpeakIff(book, reading, before);
      assert FillOf(book, reading, line).Spoken? <==> LineCanSpeak(book, reading, line);
    }
  }

  /** The row picked from a lawful block names lines that exist. */
  lemma PickedLinesExist(book: Book, reading: Reading, name: string)
    requires name in book.blocks && BlockIsLawful(book, name)
    ensures forall line | line in NamesSaid(Picked(book.blocks[name], reading).say) :: line in book.lines
  {
    var rows := book.blocks[name];
    assert RowIsLawful(book, rows, |rows| - 1);
    var i := PickedRowHolds(rows, reading);
    assert RowIsLawful(book, rows, i);
  }

  /** What one lawful block comes to. */
  lemma OneBlockSpeaksIff(book: Book, reading: Reading, so: Resolution, name: string)
    requires name in book.blocks && BlockIsLawful(book, name) && so.Resolved?
    ensures var after := ResolveOne(book, reading, so, name);
            && !after.Breaks?
            && (after.Resolved? <==> CanSpeak(book, reading, name))
            && (after.Resolved? ==>
                  after.rendered.Keys == so.rendered.Keys + {name} && after.chosen.Keys == so.chosen.Keys + {name})
            && (after.Parks? ==> IsHonestPark(book, reading, after))
  {
    PickedLinesExist(book, reading, name);
    LinesSpeakIff(book, reading, NamesSaid(Picked(book.blocks[name], reading).say));
  }

  /** A park names a hole that some line spells and the run cannot fill. */
  predicate IsHonestPark(book: Book, reading: Reading, park: Resolution)
    requires park.Parks?
  {
    park.line in book.lines && Hole(park.hole) in Pieces(book.lines[park.line]) && !HasValue(reading, park.hole)
  }

  /** A playbook that passed the laws never breaks. Asked for blocks it declares,
      it renders every one of them, and notes its row, exactly when each has a row
      whose lines can be filled; otherwise it parks, naming a hole that a line of
      one of those rows spells and the run has no value for. */
  lemma {:induction false} LawfulPlaybooksResolve(book: Book, reading: Reading, wanted: seq<string>)
    requires BlocksAreLawful(book) && forall name | name in wanted :: name in book.blocks
    ensures var resolution := ResolutionOf(book, reading, wanted);
            && !resolution.Breaks?
            && (resolution.Resolved? <==> forall name | name in wanted :: CanSpeak(book, reading, name))
            && (resolution.Resolved? ==>
                  resolution.rendered.Keys == resolution.chosen.Keys == set name | name in wanted)
            && (resolution.Parks? ==> IsHonestPark(book, reading, resolution))
  {
    if wanted != [] {
      var before, name := wanted[..|wanted| - 1], wanted[|wanted| - 1];
      assert wanted == before + [name];
      LawfulPlaybooksResolve(book, reading, before);
      assert BlockIsLawful(book, name);
      if ResolutionOf(book, reading, before).Resolved? {
        OneBlockSpeaksIff(book, reading, ResolutionOf(book, reading, before), name);
      }
    }
  }
}
