/** What a playbook says: every hole of a line in its place, every line of a block
    in its order (outreach/playbook.py, `_fill` and `resolve`). */
module PlaybookSpoken {
  import opened Wrappers
  import opened Playbook

  // ---- A fact's words ----

  /** A value through its transforms, the first one first; nothing when one raises. */
  function Through(apply: (string, string) -> Option<string>, functions: seq<string>, value: string): Option<string> {
    if functions == [] then Some(value)
    else
      match Through(apply, functions[..|functions| - 1], value)
      case None => None
      case Some(words) => apply(functions[|functions| - 1], words)
  }

  lemma {:induction false} PipedOneMore(
    apply: (string, string) -> Option<string>, functions: seq<string>, last: string, value: string)
    ensures Piped(apply, functions + [last], value)
            == (match Piped(apply, functions, value) case None => None case Some(words) => apply(last, words))
  {
    if functions == [] {
      assert functions + [last] == [last] && [last][1..] == [];
    } else {
      assert (functions + [last])[1..] == functions[1..] + [last];
      var once := apply(functions[0], value);
      if once.Some? {
        PipedOneMore(apply, functions[1..], last, once.value);
      }
    }
  }

  lemma {:induction false} PipesRunInOrder(
    apply: (string, string) -> Option<string>, functions: seq<string>, value: string)
    ensures Piped(apply, functions, value) == Through(apply, functions, value)
  {
    if functions != [] {
      var before, last := functions[..|functions| - 1], functions[|functions| - 1];
      PipesRunInOrder(apply, before, value);
      PipedOneMore(apply, before, last, value);
      assert before + [last] == functions;
    }
  }

  /** The words a fact is spoken in: its text through its transforms; as it is,
      when one of them raises or leaves nothing to say. */
  function WordsFor(book: Book, reading: Reading, name: string): string
    requires HasValue(reading, name)
  {
    var text := reading.facts[name].text;
    var words := Through(reading.apply, if name in book.transform then book.transform[name] else [], text);
    if words.None? || forall c | c in words.value :: c in " \t\n\r" then text else words.value
  }

  lemma WordsAreTheFacts(book: Book, reading: Reading, name: string)
    requires HasValue(reading, name)
    ensures Words(book, reading, name) == WordsFor(book, reading, name)
  {
    var functions := FunctionsFor(book, name);
    PipesRunInOrder(reading.apply, functions, reading.facts[name].text);
    var words := Through(reading.apply, functions, reading.facts[name].text);
    if words.Some? {
      assert IsBlank(words.value) <==> forall c | c in words.value :: c in " \t\n\r";
    }
  }

  // ---- A line ----

  /** The first hole of a text, and where it is. */
  ghost predicate IsFirstHole(text: string, i: nat, name: string) {
    HoleAt(text, i, name) && forall j: nat, other | j < i :: !HoleAt(text, j, other)
  }

  ghost predicate HasHole(text: string) {
    exists i: nat, name :: IsFirstHole(text, i, name)
  }

  datatype Found = Found(at: nat, name: string)

  ghost function FirstHole(text: string): (found: Option<Found>)
    ensures found.Some? <==> HasHole(text)
    ensures found.Some? ==> IsFirstHole(text, found.value.at, found.value.name)
  {
    if HasHole(text) then
      var i: nat, name :| IsFirstHole(text, i, name);
      Some(Found(i, name))
    else None
  }

  ghost predicate CanTell(text: string, reading: Reading) {
    forall i: nat, name :: HoleAt(text, i, name) ==> HasValue(reading, name)
  }

  /** A hole's words; a run that cannot fill one is parked before it speaks. */
  function Word(book: Book, reading: Reading, name: string): string {
    if HasValue(reading, name) then WordsFor(book, reading, name) else ""
  }

  /** The text up to its first hole, that hole's words, and so on with the rest. */
  ghost function Told(text: string, book: Book, reading: Reading): string
    decreases |text|
  {
    match FirstHole(text)
    case None => text
    case Some(hole) =>
      text[..hole.at] + Word(book, reading, hole.name) + Told(text[hole.at + |hole.name| + 2..], book, reading)
  }

  lemma HoleShiftsBack(text: string, k: nat, i: nat, name: string)
    requires k <= |text| && HoleAt(text[k..], i, name)
    ensures HoleAt(text, k + i, name)
  {
    assert text[k..][i..i + |name| + 2] == text[k + i..k + i + |name| + 2];
  }

  /** A place holds one hole at most, and so a text one first hole. */
  lemma FirstHoleIsOne(text: string, i: nat, name: string)
    requires IsFirstHole(text, i, name)
    ensures FirstHole(text) == Some(Found(i, name))
  {
    var found := FirstHole(text).value;
    HoleShifts(text, i, i, name);
    HoleShifts(text, i, i, found.name);
    FrontHoleIs(text[i..], name);
    FrontHoleIs(text[i..], found.name);
  }

  /** Some hole is the first. */
  lemma {:induction false} AHoleMeansAFirst(text: string, i: nat, name: string)
    requires HoleAt(text, i, name)
    ensures HasHole(text)
  {
    if j: nat, other :| j < i && HoleAt(text, j, other) {
      AHoleMeansAFirst(text, j, other);
    } else {
      assert IsFirstHole(text, i, name);
    }
  }

  lemma FrontHolesAreHoles(text: string)
    requires FrontHole(text).Some?
    ensures HoleAt(text, 0, FrontHole(text).value)
  {
    var name := FrontHole(text).value;
    assert text[0..0 + |name| + 2] == "{" + name + "}";
  }

  /** Past a first character that is no hole, the first hole is the same one. */
  lemma SameFirstHole(text: string)
    requires text != "" && FrontHole(text).None?
    ensures match FirstHole(text)
            case None => FirstHole(text[1..]).None?
            case Some(hole) => hole.at > 0 && FirstHole(text[1..]) == Some(Found(hole.at - 1, hole.name))
  {
    if FirstHole(text).Some? {
      var hole := FirstHole(text).value;
      if hole.at == 0 {
        FrontHoleIs(text, hole.name);
      }
      FirstHoleShifts(text, hole.at, hole.name);
      FirstHoleIsOne(text[1..], hole.at - 1, hole.name);
    } else if FirstHole(text[1..]).Some? {
      var hole := FirstHole(text[1..]).value;
      HoleShiftsBack(text, 1, hole.at, hole.name);
      AHoleMeansAFirst(text, 1 + hole.at, hole.name);
    }
  }

  /** A text that does not begin with a hole: its first character, then the rest. */
  lemma ToldOneCharacter(text: string, book: Book, reading: Reading)
    requires text != "" && FrontHole(text).None?
    ensures Told(text, book, reading) == [text[0]] + Told(text[1..], book, reading)
  {
    SameFirstHole(text);
    if FirstHole(text).Some? {
      var hole := FirstHole(text).value;
      assert text[1..][hole.at - 1 + |hole.name| + 2..] == text[hole.at + |hole.name| + 2..];
      assert text[..hole.at] == [text[0]] + text[1..][..hole.at - 1];
    } else {
      assert text == [text[0]] + text[1..];
    }
  }

  lemma FirstHoleShifts(text: string, i: nat, name: string)
    requires IsFirstHole(text, i, name) && i > 0
    ensures IsFirstHole(text[1..], i - 1, name)
  {
    HoleShifts(text, 1, i, name);
    forall j: nat, other | j < i - 1 ensures !HoleAt(text[1..], j, other) {
      if HoleAt(text[1..], j, other) {
        HoleShiftsBack(text, 1, j, other);
      }
    }
  }

  /** One that does: that hole's words, then the rest. */
  lemma ToldAHole(text: string, book: Book, reading: Reading)
    requires FrontHole(text).Some?
    ensures var name := FrontHole(text).value;
            Told(text, book, reading) == Word(book, reading, name) + Told(text[|name| + 2..], book, reading)
  {
    var name := FrontHole(text).value;
    FrontHolesAreHoles(text);
    assert IsFirstHole(text, 0, name);
    FirstHoleIsOne(text, 0, name);
    assert text[..0] == "";
  }

  predicate AreFilled(pieces: seq<Piece>, reading: Reading) {
    forall piece | piece in pieces && piece.Hole? :: HasValue(reading, piece.name)
  }

  lemma FilledOneMore(piece: Piece, rest: seq<Piece>, book: Book, reading: Reading)
    requires AreFilled([piece] + rest, reading)
    ensures AreFilled(rest, reading) && (piece.Hole? ==> HasValue(reading, piece.name))
    ensures Filled([piece] + rest, book, reading)
            == (if piece.Hole? then WordsFor(book, reading, piece.name) else [piece.c]) + Filled(rest, book, reading)
  {
    assert ([piece] + rest)[0] == piece && ([piece] + rest)[1..] == rest;
    if piece.Hole? {
      assert piece in [piece] + rest;
      WordsAreTheFacts(book, reading, piece.name);
    }
    forall other | other in rest && other.Hole? ensures HasValue(reading, other.name) {
      assert other in [piece] + rest;
    }
  }

  lemma {:induction false} PiecesAreTold(text: string, book: Book, reading: Reading)
    requires AreFilled(Pieces(text), reading)
    ensures Filled(Pieces(text), book, reading) == Told(text, book, reading)
    decreases |text|
  {
    if text == "" {
      NothingHasNoHole();
    } else {
      var hole := FrontHole(text);
      if hole.Some? {
        var rest := text[|hole.value| + 2..];
        ToldAHole(text, book, reading);
        FilledOneMore(Hole(hole.value), Pieces(rest), book, reading);
        PiecesAreTold(rest, book, reading);
      } else {
        ToldOneCharacter(text, book, reading);
        FilledOneMore(Plain(text[0]), Pieces(text[1..]), book, reading);
        PiecesAreTold(text[1..], book, reading);
      }
    }
  }

  lemma NothingHasNoHole()
    ensures !HasHole("")
  {
  }

  /** A line is spoken exactly when every hole of it has a value; and then it is the
      line with each hole's words in its place. */
  lemma LinesAreTold(book: Book, reading: Reading, line: string)
    requires line in book.lines
    ensures FillOf(book, reading, line).Spoken? <==> CanTell(book.lines[line], reading)
    ensures CanTell(book.lines[line], reading) ==>
              FillOf(book, reading, line).text == Told(book.lines[line], book, reading)
  {
    var text := book.lines[line];
    if CanTell(text, reading) {
      forall piece | piece in Pieces(text) && piece.Hole? ensures HasValue(reading, piece.name) {
        var i := PiecesAreHoles(text, piece.name);
      }
      PiecesAreTold(text, book, reading);
    } else {
      var i: nat, name :| HoleAt(text, i, name) && !HasValue(reading, name);
      EveryHoleIsFound(text, i, name);
    }
  }

  /** Every piece that is a hole is spelled somewhere. */
  lemma {:induction false} PiecesAreHoles(text: string, name: string) returns (i: nat)
    requires Hole(name) in Pieces(text)
    ensures HoleAt(text, i, name)
    decreases |text|
  {
    var hole := FrontHole(text);
    var skip := if hole.Some? then |hole.value| + 2 else 1;
    if hole == Some(name) {
      FrontHolesAreHoles(text);
      i := 0;
    } else {
      assert Pieces(text)[1..] == Pieces(text[skip..]);
      assert Pieces(text)[0] != Hole(name);
      var j := PiecesAreHoles(text[skip..], name);
      HoleShiftsBack(text, skip, j, name);
      i := skip + j;
    }
  }

  // ---- A block ----

  /** One step of a list: the line's name, and what it says. */
  ghost function Step(book: Book, reading: Reading, line: string): string
    requires line in book.lines
  {
    "- " + line + ": \"" + Told(book.lines[line], book, reading) + "\""
  }

  ghost predicate CanTellAll(book: Book, reading: Reading, lines: seq<string>) {
    forall line | line in lines :: line in book.lines && CanTell(book.lines[line], reading)
  }

  /** A list is one step a line, in order. */
  ghost function ListTold(book: Book, reading: Reading, lines: seq<string>): string
    requires lines != [] && CanTellAll(book, reading, lines)
  {
    var last := Step(book, reading, lines[|lines| - 1]);
    if |lines| == 1 then last else ListTold(book, reading, lines[..|lines| - 1]) + "\n" + last
  }

  ghost function BlockTold(book: Book, reading: Reading, say: Say): string
    requires CanTellAll(book, reading, NamesSaid(say))
  {
    match say
    case One(line) => Told(book.lines[line], book, reading)
    case Many(lines) => if lines == [] then "" else ListTold(book, reading, lines)
  }

  lemma {:induction false} JoinedOneMore(parts: seq<string>, last: string, glue: string)
    ensures Playbook.Joined(parts + [last], glue)
            == if parts == [] then last else Playbook.Joined(parts, glue) + glue + last
  {
    if parts == [] {
      assert parts + [last] == [last];
    } else {
      assert (parts + [last])[1..] == parts[1..] + [last];
      JoinedOneMore(parts[1..], last, glue);
    }
  }

  lemma {:induction false} AllAreTold(book: Book, reading: Reading, lines: seq<string>)
    ensures LinesOf(book, reading, lines).AllSpoken? <==> CanTellAll(book, reading, lines)
    ensures CanTellAll(book, reading, lines) ==>
              forall i | 0 <= i < |lines| ::
                LinesOf(book, reading, lines).texts[i] == Told(book.lines[lines[i]], book, reading)
  {
    if lines != [] {
      var before, last := lines[..|lines| - 1], lines[|lines| - 1];
      assert lines == before + [last];
      AllAreTold(book, reading, before);
      if last in book.lines {
        LinesAreTold(book, reading, last);
      }
    }
  }

  lemma {:induction false} ListsAreTold(book: Book, reading: Reading, lines: seq<string>, texts: seq<string>)
    requires lines != [] && CanTellAll(book, reading, lines) && |texts| == |lines|
    requires forall i | 0 <= i < |lines| :: texts[i] == Told(book.lines[lines[i]], book, reading)
    ensures Playbook.Joined(Steps(lines, texts), "\n") == ListTold(book, reading, lines)
  {
    var n := |lines| - 1;
    var steps := Steps(lines, texts);
    assert steps == Steps(lines[..n], texts[..n]) + [Step(book, reading, lines[n])];
    JoinedOneMore(steps[..n], steps[n], "\n");
    if n > 0 {
      ListsAreTold(book, reading, lines[..n], texts[..n]);
    }
  }

  lemma OneBlockIsTold(book: Book, reading: Reading, say: Say)
    requires CanTellAll(book, reading, NamesSaid(say))
    ensures var lines := LinesOf(book, reading, NamesSaid(say));
            lines.AllSpoken? && BlockText(say, lines.texts) == BlockTold(book, reading, say)
  {
    AllAreTold(book, reading, NamesSaid(say));
    match say
    case One(line) =>
    case Many(names) =>
      if names != [] {
        ListsAreTold(book, reading, names, LinesOf(book, reading, names).texts);
      }
  }

  /** No condition of the row fails. */
  predicate AllHold(when: seq<Condition>, reading: Reading) {
    !exists condition | condition in when :: !reading.holds(condition)
  }

  /** A row is noted by its line's name, or its lines' names with a comma between. */
  function RowNoted(say: Say): string {
    match say
    case One(line) => line
    case Many(lines) => Listed(lines)
  }

  function Listed(lines: seq<string>): string {
    if lines == [] then ""
    else if |lines| == 1 then lines[0]
    else Listed(lines[..|lines| - 1]) + "," + lines[|lines| - 1]
  }

  lemma RowsAreNoted(say: Say)
    ensures ChosenName(say) == RowNoted(say)
  {
    if say.Many? {
      ListsAreNoted(say.lines);
    }
  }

  lemma {:induction false} ListsAreNoted(lines: seq<string>)
    ensures Playbook.Joined(lines, ",") == Listed(lines)
  {
    if |lines| > 1 {
      var before, last := lines[..|lines| - 1], lines[|lines| - 1];
      ListsAreNoted(before);
      JoinedOneMore(before, last, ",");
      assert before + [last] == lines;
    }
  }

  /** A lawful playbook that resolves says, for every block it is asked for, what the
      first row that holds says: its line told, or its lines told one step a line;
      and notes that row by its lines' names. */
  lemma {:induction false} EveryBlockIsTold(
    book: Book, reading: Reading, wanted: seq<string>, name: string) returns (i: nat)
    requires BlocksAreLawful(book) && (forall other | other in wanted :: other in book.blocks) && name in wanted
    requires ResolutionOf(book, reading, wanted).Resolved?
    ensures var rows := book.blocks[name];
            && i < |rows| && AllHold(rows[i].when, reading)
            && (forall j | 0 <= j < i :: !AllHold(rows[j].when, reading))
            && CanTellAll(book, reading, NamesSaid(rows[i].say))
    ensures var resolution, say := ResolutionOf(book, reading, wanted), book.blocks[name][i].say;
            && name in resolution.rendered && resolution.rendered[name] == BlockTold(book, reading, say)
            && name in resolution.chosen && resolution.chosen[name] == RowNoted(say)
  {
    var before, last := wanted[..|wanted| - 1], wanted[|wanted| - 1];
    assert wanted == before + [last];
    assert BlockIsLawful(book, name) && RowIsLawful(book, book.blocks[name], |book.blocks[name]| - 1);
    if last == name {
      i := PickedRowHolds(book.blocks[name], reading);
      RowsAreNoted(book.blocks[name][i].say);
      AllAreTold(book, reading, NamesSaid(book.blocks[name][i].say));
      OneBlockIsTold(book, reading, book.blocks[name][i].say);
    } else {
      i := EveryBlockIsTold(book, reading, before, name);
    }
  }
}
