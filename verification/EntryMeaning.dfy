/** Does a document's entry mean something else? (outreach/plans.py,
    `_entry_changed`, against the way outreach/schemas.py reads an entry.) */
module EntryMeaning {
  import opened Wrappers

  /** The admission words a plan may say once for every door. */
  datatype Word = Reenter | CooldownHours | Key | OnRepeat | DebounceMinutes | RestartOnRepeat

  const WORDS: set<Word> := {Reenter, CooldownHours, Key, OnRepeat, DebounceMinutes, RestartOnRepeat}

  /** A door as it is written: the square it names, if it names one, and the
      words it says itself. `conditions` stands for its where-list. */
  datatype RawDoor = RawDoor(topic: string, start: Option<string>, conditions: nat, own: map<Word, string>)

  /** An entry is one object or a list of doors. */
  datatype Entry = Object(door: RawDoor) | DoorList(doors: seq<RawDoor>)

  /** What of the document an entry is read with: the words said once for every
      door, and the first square. */
  datatype Surroundings = Surroundings(shared: map<Word, string>, first: string)

  /** A door with every word spelled out. */
  datatype SpelledDoor = SpelledDoor(topic: string, start: Option<string>, conditions: nat, words: map<Word, string>)

  /** What the document model lets through: a listed door names its square, and
      the law of one door a topic. */
  predicate IsShaped(entry: Entry) {
    entry.DoorList? ==>
      && (forall door | door in entry.doors :: door.start.Some?)
      && forall i, j | 0 <= i < j < |entry.doors| :: entry.doors[i].topic != entry.doors[j].topic
  }

  function Items(entry: Entry): seq<RawDoor> {
    match entry
    case Object(door) => [door]
    case DoorList(doors) => doors
  }

  function Default(word: Word): string {
    match word
    case Reenter => "false"
    case CooldownHours => "24"
    case Key => "null"
    case OnRepeat => "ignore"
    case DebounceMinutes => "0"
    case RestartOnRepeat => "false"
  }

  /** A door's own word wins, then the plan's shared word, then the default. */
  function WordOf(door: RawDoor, shared: map<Word, string>, word: Word): string {
    if word in door.own then door.own[word] else if word in shared then shared[word] else Default(word)
  }

  function SpelledOut(door: RawDoor, start: Option<string>, shared: map<Word, string>): SpelledDoor {
    SpelledDoor(door.topic, start, door.conditions, map word | word in WORDS :: WordOf(door, shared, word))
  }

  // ---- The comparison the code makes ----

  /** The doors as written, without the words said once for all of them. */
  function Compared(entry: Entry): seq<SpelledDoor> {
    var doors := Items(entry);
    seq(|doors|, i requires 0 <= i < |doors| => SpelledOut(doors[i], doors[i].start, map[]))
  }

  predicate ReadsChanged(ours: Entry, theirs: Entry) {
    multiset(Compared(ours)) != multiset(Compared(theirs))
  }

  /** `_doors_by_meaning` and `_entry_changed`. */
  method EntryChanged(ours: Entry, theirs: Entry) returns (changed: bool)
    ensures changed <==> ReadsChanged(ours, theirs)
  {
    var left := DoorsByMeaning(ours);
    var right := DoorsByMeaning(theirs);
    return multiset(left) != multiset(right);
  }

  method DoorsByMeaning(entry: Entry) returns (doors: seq<SpelledDoor>)
    ensures doors == Compared(entry)
  {
    var items := Items(entry);
    doors := [];
    for i := 0 to |items|
      invariant doors == Compared(entry)[..i]
    {
      doors := doors + [SpelledOut(items[i], items[i].start, map[])];
    }
  }

  // ---- What admission does ----

  /** An object's door starts on the first square, whatever it names; a listed
      door on its own. */
  function Start(entry: Entry, door: RawDoor, first: string): Option<string> {
    if entry.Object? then Some(first) else door.start
  }

  function Admitted(entry: Entry, around: Surroundings): seq<SpelledDoor> {
    var doors := Items(entry);
    seq(|doors|,
        i requires 0 <= i < |doors| => SpelledOut(doors[i], Start(entry, doors[i], around.first), around.shared))
  }

  predicate MeansOtherwise(ours: Entry, ourDoc: Surroundings, theirs: Entry, theirDoc: Surroundings) {
    multiset(Admitted(ours, ourDoc)) != multiset(Admitted(theirs, theirDoc))
  }

  // ---- When the two agree ----

  /** How an entry is spelled: a list, or an object that names a square or not. */
  datatype Shape = AsList | AsObject(names: Option<string>)

  function ShapeOf(entry: Entry): Shape {
    match entry
    case Object(door) => AsObject(door.start)
    case DoorList(_) => AsList
  }

  /** The comparison answers right for all entries of these spellings in these
      documents. */
  ghost predicate IsExact(ourShape: Shape, ourDoc: Surroundings, theirShape: Shape, theirDoc: Surroundings) {
    forall ours, theirs |
      IsShaped(ours) && IsShaped(theirs) && ShapeOf(ours) == ourShape && ShapeOf(theirs) == theirShape ::
      ReadsChanged(ours, theirs) <==> MeansOtherwise(ours, ourDoc, theirs, theirDoc)
  }

  predicate SaysDefaults(shared: map<Word, string>) {
    forall word | word in shared :: shared[word] == Default(word)
  }

  /** Two lists; two objects over one first square, naming the same; or an object
      that names its document's first square, beside a list. */
  predicate SquaresAreCompared(ourShape: Shape, ourFirst: string, theirShape: Shape, theirFirst: string) {
    match (ourShape, theirShape)
    case (AsList, AsList) => true
    case (AsObject(ours), AsObject(theirs)) => ours == theirs && ourFirst == theirFirst
    case (AsList, AsObject(names)) => names == Some(theirFirst)
    case (AsObject(names), AsList) => names == Some(ourFirst)
  }

  /** Two objects that name different squares over different first squares: always
      different, and always found so. */
  predicate AlwaysDiffer(ourShape: Shape, ourFirst: string, theirShape: Shape, theirFirst: string) {
    ourShape.AsObject? && theirShape.AsObject? && ourShape != theirShape && ourFirst != theirFirst
  }

  lemma DefaultsSpellTheSame(door: RawDoor, shared: map<Word, string>)
    requires SaysDefaults(shared)
    ensures forall start :: SpelledOut(door, start, shared) == SpelledOut(door, start, map[])
  {
  }

  lemma SpelledIsAdmitted(entry: Entry, around: Surroundings)
    requires SaysDefaults(around.shared) && IsShaped(entry)
    requires entry.Object? ==> entry.door.start == Some(around.first)
    ensures Compared(entry) == Admitted(entry, around)
  {
    var doors := Items(entry);
    forall i | 0 <= i < |doors|
      ensures SpelledOut(doors[i], doors[i].start, map[])
              == SpelledOut(doors[i], Start(entry, doors[i], around.first), around.shared)
    {
      assert doors[i] in doors;
      DefaultsSpellTheSame(doors[i], around.shared);
    }
  }

  lemma OneDoor(a: SpelledDoor, b: SpelledDoor)
    ensures multiset([a]) == multiset([b]) <==> a == b
  {
    assert multiset([a])[a] == 1 && multiset([b])[b] == 1;
    if a != b {
      assert multiset([b])[a] == 0;
    }
  }

  lemma ObjectsCompareTheirDoors(ours: RawDoor, ourDoc: Surroundings, theirs: RawDoor, theirDoc: Surroundings)
    ensures ReadsChanged(Object(ours), Object(theirs)) <==>
            SpelledOut(ours, ours.start, map[]) != SpelledOut(theirs, theirs.start, map[])
    ensures MeansOtherwise(Object(ours), ourDoc, Object(theirs), theirDoc) <==>
            SpelledOut(ours, Some(ourDoc.first), ourDoc.shared)
            != SpelledOut(theirs, Some(theirDoc.first), theirDoc.shared)
  {
    assert Compared(Object(ours)) == [SpelledOut(ours, ours.start, map[])];
    assert Compared(Object(theirs)) == [SpelledOut(theirs, theirs.start, map[])];
    OneDoor(SpelledOut(ours, ours.start, map[]), SpelledOut(theirs, theirs.start, map[]));
    assert Admitted(Object(ours), ourDoc) == [SpelledOut(ours, Some(ourDoc.first), ourDoc.shared)];
    assert Admitted(Object(theirs), theirDoc) == [SpelledOut(theirs, Some(theirDoc.first), theirDoc.shared)];
    OneDoor(SpelledOut(ours, Some(ourDoc.first), ourDoc.shared),
            SpelledOut(theirs, Some(theirDoc.first), theirDoc.shared));
  }

  /** Two objects, compared: only the words are left to differ. */
  lemma DefaultsCompareAlike(ours: RawDoor, ourDoc: Surroundings, theirs: RawDoor, theirDoc: Surroundings)
    requires SaysDefaults(ourDoc.shared) && SaysDefaults(theirDoc.shared)
    requires ours.start == theirs.start && ourDoc.first == theirDoc.first
    ensures ReadsChanged(Object(ours), Object(theirs)) <==>
            MeansOtherwise(Object(ours), ourDoc, Object(theirs), theirDoc)
  {
    ObjectsCompareTheirDoors(ours, ourDoc, theirs, theirDoc);
    DefaultsSpellTheSame(ours, ourDoc.shared);
    DefaultsSpellTheSame(theirs, theirDoc.shared);
  }

  // ---- Witnesses ----

  /** An entry of one door, of this spelling; a listed one starts on `square`. */
  function Single(shape: Shape, square: string, own: map<Word, string>): Entry {
    match shape
    case AsList => DoorList([RawDoor("cart", Some(square), 0, own)])
    case AsObject(names) => Object(RawDoor("cart", names, 0, own))
  }

  function NamedBy(shape: Shape, square: string): Option<string> {
    if shape.AsList? then Some(square) else shape.names
  }

  function StartOf(shape: Shape, square: string, first: string): string {
    if shape.AsList? then square else first
  }

  function Words(own: map<Word, string>, shared: map<Word, string>): map<Word, string> {
    SpelledOut(RawDoor("cart", None, 0, own), None, shared).words
  }

  lemma SinglesCompareTheirDoors(
    ours: Shape, ourSquare: string, ourOwn: map<Word, string>, ourDoc: Surroundings,
    theirs: Shape, theirSquare: string, theirOwn: map<Word, string>, theirDoc: Surroundings)
    ensures var (a, b) := (Single(ours, ourSquare, ourOwn), Single(theirs, theirSquare, theirOwn));
            && IsShaped(a) && IsShaped(b) && ShapeOf(a) == ours && ShapeOf(b) == theirs
            && (ReadsChanged(a, b) <==>
                  || NamedBy(ours, ourSquare) != NamedBy(theirs, theirSquare)
                  || Words(ourOwn, map[]) != Words(theirOwn, map[]))
            && (MeansOtherwise(a, ourDoc, b, theirDoc) <==>
                  || StartOf(ours, ourSquare, ourDoc.first) != StartOf(theirs, theirSquare, theirDoc.first)
                  || Words(ourOwn, ourDoc.shared) != Words(theirOwn, theirDoc.shared))
  {
    var a, b := Single(ours, ourSquare, ourOwn), Single(theirs, theirSquare, theirOwn);
    SinglesAre(ours, ourSquare, ourOwn, ourDoc);
    SinglesAre(theirs, theirSquare, theirOwn, theirDoc);
    OneDoor(Compared(a)[0], Compared(b)[0]);
    OneDoor(Admitted(a, ourDoc)[0], Admitted(b, theirDoc)[0]);
  }

  lemma SinglesAre(shape: Shape, square: string, own: map<Word, string>, around: Surroundings)
    ensures var entry := Single(shape, square, own);
            && Compared(entry) == [SpelledDoor("cart", NamedBy(shape, square), 0, Words(own, map[]))]
            && Admitted(entry, around)
               == [SpelledDoor("cart", Some(StartOf(shape, square, around.first)), 0, Words(own, around.shared))]
  {
    var entry := Single(shape, square, own);
    var door := RawDoor("cart", NamedBy(shape, square), 0, own);
    assert Items(entry) == [door];
    assert SpelledOut(door, door.start, map[]) == SpelledDoor("cart", door.start, 0, Words(own, map[]));
    var start := Start(entry, door, around.first);
    assert SpelledOut(door, start, around.shared) == SpelledDoor("cart", start, 0, Words(own, around.shared));
  }

  /** A door that says every word itself. */
  function EveryWord(): map<Word, string> {
    map word | word in WORDS :: Default(word)
  }

  lemma EveryWordIsItsOwn(shared: map<Word, string>)
    ensures Words(EveryWord(), shared) == EveryWord()
  {
  }

  /** Where the squares are not compared, two entries that differ in nothing else
      are answered wrong. */
  lemma SquaresGoUnread(ourShape: Shape, ourDoc: Surroundings, theirShape: Shape, theirDoc: Surroundings)
    returns (ours: Entry, theirs: Entry)
    requires !SquaresAreCompared(ourShape, ourDoc.first, theirShape, theirDoc.first)
    requires !AlwaysDiffer(ourShape, ourDoc.first, theirShape, theirDoc.first)
    ensures IsShaped(ours) && IsShaped(theirs) && ShapeOf(ours) == ourShape && ShapeOf(theirs) == theirShape
    ensures ReadsChanged(ours, theirs) != MeansOtherwise(ours, ourDoc, theirs, theirDoc)
  {
    EveryWordIsItsOwn(map[]);
    EveryWordIsItsOwn(ourDoc.shared);
    EveryWordIsItsOwn(theirDoc.shared);
    var square := if ourShape.AsList? then theirDoc.first else ourDoc.first;
    ours, theirs := Single(ourShape, square, EveryWord()), Single(theirShape, square, EveryWord());
    SinglesCompareTheirDoors(ourShape, square, EveryWord(), ourDoc, theirShape, square, EveryWord(), theirDoc);
  }

  /** Where the squares are compared and the shared words differ, doors that say
      no word themselves mean two things and read as one. */
  lemma SharedWordsGoUnread(ourShape: Shape, ourDoc: Surroundings, theirShape: Shape, theirDoc: Surroundings)
    returns (ours: Entry, theirs: Entry)
    requires SquaresAreCompared(ourShape, ourDoc.first, theirShape, theirDoc.first)
    requires Words(map[], ourDoc.shared) != Words(map[], theirDoc.shared)
    ensures IsShaped(ours) && IsShaped(theirs) && ShapeOf(ours) == ourShape && ShapeOf(theirs) == theirShape
    ensures !ReadsChanged(ours, theirs) && MeansOtherwise(ours, ourDoc, theirs, theirDoc)
  {
    var square := if ourShape.AsList? then theirDoc.first else ourDoc.first;
    ours, theirs := Single(ourShape, square, map[]), Single(theirShape, square, map[]);
    SinglesCompareTheirDoors(ourShape, square, map[], ourDoc, theirShape, square, map[], theirDoc);
  }

  /** Where they agree but do not say the defaults, a door that says them itself
      means the same and reads as changed. */
  lemma MovedWordsReadAsChanged(ourShape: Shape, ourDoc: Surroundings, theirShape: Shape, theirDoc: Surroundings)
    returns (ours: Entry, theirs: Entry)
    requires SquaresAreCompared(ourShape, ourDoc.first, theirShape, theirDoc.first)
    requires Words(map[], ourDoc.shared) == Words(map[], theirDoc.shared) != Words(map[], map[])
    ensures IsShaped(ours) && IsShaped(theirs) && ShapeOf(ours) == ourShape && ShapeOf(theirs) == theirShape
    ensures ReadsChanged(ours, theirs) && !MeansOtherwise(ours, ourDoc, theirs, theirDoc)
  {
    var square := if ourShape.AsList? then theirDoc.first else ourDoc.first;
    var moved := Words(map[], ourDoc.shared);
    assert Words(moved, map[]) == moved == Words(moved, theirDoc.shared);
    ours, theirs := Single(ourShape, square, map[]), Single(theirShape, square, moved);
    SinglesCompareTheirDoors(ourShape, square, map[], ourDoc, theirShape, square, moved, theirDoc);
  }

  lemma EveryWordIsListed(word: Word)
    ensures word in WORDS
  {
    match word
    case Reenter =>
    case CooldownHours =>
    case Key =>
    case OnRepeat =>
    case DebounceMinutes =>
    case RestartOnRepeat =>
  }

  lemma DefaultsAreTheWords(shared: map<Word, string>)
    ensures SaysDefaults(shared) <==> Words(map[], shared) == Words(map[], map[])
  {
    if Words(map[], shared) == Words(map[], map[]) {
      forall word | word in shared ensures shared[word] == Default(word) {
        EveryWordIsListed(word);
        assert Words(map[], shared)[word] == Words(map[], map[])[word];
      }
    }
  }

  // ---- The condition ----

  /** Without a shared word but its default, and with the squares compared, the
      comparison is right about every two entries. */
  lemma ComparisonAnswers(ours: Entry, ourDoc: Surroundings, theirs: Entry, theirDoc: Surroundings)
    requires IsShaped(ours) && IsShaped(theirs)
    requires SquaresAreCompared(ShapeOf(ours), ourDoc.first, ShapeOf(theirs), theirDoc.first)
    requires SaysDefaults(ourDoc.shared) && SaysDefaults(theirDoc.shared)
    ensures ReadsChanged(ours, theirs) <==> MeansOtherwise(ours, ourDoc, theirs, theirDoc)
  {
    if ours.Object? && theirs.Object? {
      DefaultsCompareAlike(ours.door, ourDoc, theirs.door, theirDoc);
    } else {
      SpelledIsAdmitted(ours, ourDoc);
      SpelledIsAdmitted(theirs, theirDoc);
    }
  }

  /** The comparison answers the question it is asked, for all entries of the two
      spellings, exactly when no shared word but its default is said and the
      squares are compared: both are lists, or objects over the same first square,
      or an object names its own first square beside a list. (The one other case
      is two objects that differ in every way.) */
  lemma ComparisonIsExactIff(ourShape: Shape, ourDoc: Surroundings, theirShape: Shape, theirDoc: Surroundings)
    ensures IsExact(ourShape, ourDoc, theirShape, theirDoc) <==>
            || AlwaysDiffer(ourShape, ourDoc.first, theirShape, theirDoc.first)
            || (&& SquaresAreCompared(ourShape, ourDoc.first, theirShape, theirDoc.first)
                && SaysDefaults(ourDoc.shared) && SaysDefaults(theirDoc.shared))
  {
    DefaultsAreTheWords(ourDoc.shared);
    DefaultsAreTheWords(theirDoc.shared);
    if AlwaysDiffer(ourShape, ourDoc.first, theirShape, theirDoc.first) {
      forall ours, theirs | ShapeOf(ours) == ourShape && ShapeOf(theirs) == theirShape
        ensures ReadsChanged(ours, theirs) && MeansOtherwise(ours, ourDoc, theirs, theirDoc)
      {
        ObjectsCompareTheirDoors(ours.door, ourDoc, theirs.door, theirDoc);
      }
    } else if !SquaresAreCompared(ourShape, ourDoc.first, theirShape, theirDoc.first) {
      var ours, theirs := SquaresGoUnread(ourShape, ourDoc, theirShape, theirDoc);
    } else if Words(map[], ourDoc.shared) != Words(map[], theirDoc.shared) {
      var ours, theirs := SharedWordsGoUnread(ourShape, ourDoc, theirShape, theirDoc);
    } else if Words(map[], ourDoc.shared) != Words(map[], map[]) {
      var ours, theirs := MovedWordsReadAsChanged(ourShape, ourDoc, theirShape, theirDoc);
    } else {
      forall ours, theirs |
        IsShaped(ours) && IsShaped(theirs) && ShapeOf(ours) == ourShape && ShapeOf(theirs) == theirShape
        ensures ReadsChanged(ours, theirs) <==> MeansOtherwise(ours, ourDoc, theirs, theirDoc)
      {
        ComparisonAnswers(ours, ourDoc, theirs, theirDoc);
      }
    }
  }

  /** The spelling most plans have: one object, naming no square. Then a document
      whose first square changed admits onto another square and compares as
      unchanged. */
  lemma AMovedFirstSquareGoesUnread(door: RawDoor, shared: map<Word, string>, ourFirst: string, theirFirst: string)
    requires ourFirst != theirFirst
    ensures !ReadsChanged(Object(door), Object(door))
    ensures MeansOtherwise(Object(door), Surroundings(shared, ourFirst), Object(door), Surroundings(shared, theirFirst))
  {
    ObjectsCompareTheirDoors(door, Surroundings(shared, ourFirst), door, Surroundings(shared, theirFirst));
  }
}
