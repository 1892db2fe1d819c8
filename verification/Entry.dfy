/** What a letter may write on a run (outreach/entry.py, outreach/repeat.py). */
module Entry {
  import opened Wrappers
  import opened Board
  import opened Trail

  const SOURCE_EVENT_KEY := "source_event_id"
  const ENTERED_EVENT_KEY := "entered_event_at"
  const PHONE_KEY := "phone"
  const LATEST_LETTER_KEY := "latest_letter"
  const FACTS_KEY := "facts"
  const GOAL_KEY := "goal"
  const REPEAT_EVENTS_KEY := "repeat_event_ids"
  const REPEAT_ITEMS_KEY := "repeat_items"
  const REPEAT_COUNT_KEY := "repeat_count"

  const BOOKKEEPING_KEYS: set<string> := {
    "source_event_id", "entered_event_at", "goal", "phone", "customer_mobile_number",
    "repeat_event_ids", "repeat_items", "facts", "latest_letter", "cut_short_by",
    "current_node", "current_stage", "_outcome", "calls_today"
  }

  /** The walker's own names in a context: never a producer's to write. */
  predicate IsBookkeeping(key: string) {
    || key in BOOKKEEPING_KEYS
    || HasPrefix(key, "lead_") || HasPrefix(key, "message_") || IsReplyKey(key)
    || HasPrefix(key, "action_") || HasPrefix(key, "split_") || HasPrefix(key, "playbook_")
  }

  /** What a letter's payload may add to a run: scalars, short enough, under a
      producer's own names. `Other` here stands for the non-text scalars; a
      nested object or list never reaches this map. */
  function ContextFromPayload(payload: Context, maxChars: nat): Context {
    map key | key in payload && !IsBookkeeping(key) && |Str(payload[key])| <= maxChars :: payload[key]
  }

  /** A letter as the consumer reads it: its id, its payload's scalars, the
      catalog's declared variables, and the number identity resolved on. */
  datatype Letter = Letter(id: string, payload: Context, variables: Context, phone: Option<string>, callReport: bool)

  /** The declared variables over the scalar copy; both halves filtered. */
  function LetterFacts(letter: Letter, maxChars: nat): Context {
    ContextFromPayload(letter.payload, maxChars) + ContextFromPayload(letter.variables, maxChars)
  }

  /** The facts with the normalised phone: what a repeat is offered. */
  function RepeatFacts(letter: Letter, maxChars: nat): Context {
    LetterFacts(letter, maxChars) + (if letter.phone.Some? then map[PHONE_KEY := Text(letter.phone.value)] else map[])
  }

  /** What a new run carries: the facts and the founding letter's marks. */
  function FoundingContext(letter: Letter, happened: string, maxChars: nat): Context {
    RepeatFacts(letter, maxChars)[SOURCE_EVENT_KEY := Text(letter.id)][ENTERED_EVENT_KEY := Text(happened)]
  }

  /** What a heard letter writes: its answer, the mark of it, and, unless
      it is our own call report, the mark that makes its facts the latest. */
  function ReplyPatch(id: string, letter: Letter, answer: string): Context {
    map[ReplyKey(id) := Text(answer), CUT_SHORT_BY_KEY := Text(letter.id)]
    + (if letter.callReport then map[] else map[LATEST_LETTER_KEY := Text(id)])
  }

  lemma NamesThatAreNotAnswers()
    ensures forall key | key in {SOURCE_EVENT_KEY, ENTERED_EVENT_KEY, PHONE_KEY, LATEST_LETTER_KEY, FACTS_KEY,
                                 GOAL_KEY, CUT_SHORT_BY_KEY} :: !IsReplyKey(key)
    ensures !IsReplyKey(REPEAT_EVENTS_KEY) && !IsReplyKey(REPEAT_ITEMS_KEY) && !IsReplyKey(REPEAT_COUNT_KEY)
  {
    forall key | key in {SOURCE_EVENT_KEY, ENTERED_EVENT_KEY, PHONE_KEY, LATEST_LETTER_KEY, FACTS_KEY, GOAL_KEY,
                         CUT_SHORT_BY_KEY} ensures !IsReplyKey(key) {
      assert key[0] != REPLY_PREFIX[0];
    }
    assert REPEAT_EVENTS_KEY[2] != REPLY_PREFIX[3];
    assert REPEAT_EVENTS_KEY[3] != REPLY_PREFIX[3] && REPEAT_ITEMS_KEY[3] != REPLY_PREFIX[3];
    assert REPEAT_COUNT_KEY[3] != REPLY_PREFIX[3];
  }

  /** No letter can plant an answer: producers cannot spell the walker's names,
      whichever of the two doors a value arrives by. */
  lemma LettersPlantNoAnswers(letter: Letter, happened: string, maxChars: nat)
    ensures NoAnswers(LetterFacts(letter, maxChars))
    ensures NoAnswers(RepeatFacts(letter, maxChars))
    ensures NoAnswers(FoundingContext(letter, happened, maxChars))
  {
    NamesThatAreNotAnswers();
  }

  /** The one answer a heard letter writes is the hearing square's. */
  lemma ReplyAnswersItsOwnSquare(id: string, letter: Letter, answer: string, key: string)
    ensures HoldsAnswer(ReplyPatch(id, letter, answer), key) <==> key == ReplyKey(id)
  {
    NamesThatAreNotAnswers();
  }
}
