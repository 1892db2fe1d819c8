/** What an assertion leaves on record, and what a reader is then shown, without
    the code's own tests (identity/facts.py). */
module FactsOnRecord {
  import opened Wrappers
  import opened Claims
  import opened Facts
  import opened FactsTheorems

  // ---- The ladder of classes ----

  /** She said it, before we saw it, before somebody sent it, before we guessed. */
  predicate Outranks(a: Evidence, b: Evidence) {
    match a
    case Declared => b != Declared
    case Observed => b == Imported || b == Inferred
    case Imported => b == Inferred
    case Inferred => false
  }

  /** The class is higher, or the same at a later instant. */
  predicate IsBetter(a: Claim, b: Claim) {
    Outranks(a.e, b.e) || (a.e == b.e && a.at > b.at)
  }

  lemma BetterBeats(a: Claim, b: Claim)
    ensures IsBetter(a, b) <==> Beats(a, b)
  {
  }

  /** How sure a claim is: as it was given, within 0 and 1, or by its class; and a
      guess never surer than a half. */
  predicate IsSureness(k: real, evidence: Evidence, given: Option<real>) {
    match given
    case None =>
      k == (match evidence case Declared => 1.0 case Observed => 0.9 case Imported => 0.7 case Inferred => 0.4)
    case Some(sure) =>
      var most := if evidence == Inferred then 0.5 else 1.0;
      k == if sure < 0.0 then 0.0 else if sure > most then most else sure
  }

  lemma ClaimsAreAsSure(evidence: Evidence, given: Option<real>)
    ensures IsSureness(ClaimConfidence(evidence, given), evidence, given)
  {
  }

  // ---- One fact ----

  /** The last entry already says this: same value, class and producer. */
  predicate Repeats(history: seq<Entry>, claim: Claim) {
    && history != [] && history[|history| - 1].Good?
    && var last := history[|history| - 1].claim;
       last.v == claim.v && last.e == claim.e && last.src == claim.src
  }

  /** Nothing else can go wrong: the bucket is a history, and, unless the claim
      repeats its last, every entry of it a claim. */
  predicate CanRecord(attributes: Attributes, name: string, claim: Claim) {
    && (name in attributes ==> attributes[name].History?)
    && (Repeats(EntriesOf(attributes, name), claim) || Malformed !in EntriesOf(attributes, name))
  }

  /** The history once the claim is in it: the longer by it, or, where it repeats
      the last, as it was. */
  function Recorded(history: seq<Entry>, claim: Claim): seq<Entry> {
    if Repeats(history, claim) then history else history + [Good(claim)]
  }

  lemma OneFactIsRecorded(w: Working, name: string, claim: Claim)
    ensures AssertOne(w, name, claim).Some? <==> CanRecord(w.attributes, name, claim)
    ensures CanRecord(w.attributes, name, claim) ==>
              EntriesOf(AssertOne(w, name, claim).value.attributes, name)
              == Recorded(EntriesOf(w.attributes, name), claim)
  {
    var entries := EntriesOf(w.attributes, name);
    if entries != [] && entries[|entries| - 1].Malformed? {
      assert Malformed in entries;
    }
  }

  // ---- A payload ----

  lemma OtherNamesStay(w: Working, name: string, claim: Claim, other: string)
    requires AssertOne(w, name, claim).Some? && other != name
    ensures var after := AssertOne(w, name, claim).value.attributes;
            (other in after <==> other in w.attributes) && (other in after ==> after[other] == w.attributes[other])
  {
  }

  ghost predicate AllCanBeRecorded(attributes: Attributes, facts: Facts, saying: Saying) {
    forall i | 0 <= i < |facts| :: CanRecord(attributes, facts[i].0, ClaimOf(facts[i].1, saying))
  }

  lemma TheRestCanBeRecorded(w: Working, facts: Facts, saying: Saying)
    requires facts != [] && NamesAreDistinct(facts)
    requires AssertOne(w, facts[0].0, ClaimOf(facts[0].1, saying)).Some?
    ensures var after := AssertOne(w, facts[0].0, ClaimOf(facts[0].1, saying)).value;
            AllCanBeRecorded(after.attributes, facts[1..], saying) <==>
            forall i | 1 <= i < |facts| :: CanRecord(w.attributes, facts[i].0, ClaimOf(facts[i].1, saying))
  {
    var after := AssertOne(w, facts[0].0, ClaimOf(facts[0].1, saying)).value;
    forall i | 1 <= i < |facts|
      ensures CanRecord(after.attributes, facts[i].0, ClaimOf(facts[i].1, saying))
              <==> CanRecord(w.attributes, facts[i].0, ClaimOf(facts[i].1, saying))
    {
      OtherNamesStay(w, facts[0].0, ClaimOf(facts[0].1, saying), facts[i].0);
    }
    forall i | 0 <= i < |facts[1..]| ensures facts[1..][i] == facts[i + 1] {
    }
  }

  /** A payload is asserted, all of it, exactly when each fact can be. */
  lemma {:induction false} AssertingSucceedsIff(w: Working, facts: Facts, saying: Saying)
    requires NamesAreDistinct(facts)
    ensures AssertAll(w, facts, saying).Some? <==> AllCanBeRecorded(w.attributes, facts, saying)
    decreases |facts|
  {
    if facts != [] {
      OneFactIsRecorded(w, facts[0].0, ClaimOf(facts[0].1, saying));
      if AssertOne(w, facts[0].0, ClaimOf(facts[0].1, saying)).Some? {
        TheRestCanBeRecorded(w, facts, saying);
        AssertingSucceedsIff(AssertOne(w, facts[0].0, ClaimOf(facts[0].1, saying)).value, facts[1..], saying);
      } else {
        assert !CanRecord(w.attributes, facts[0].0, ClaimOf(facts[0].1, saying));
      }
    }
  }

  lemma {:induction false} ThisFactIsRecorded(w: Working, facts: Facts, saying: Saying, i: nat)
    requires NamesAreDistinct(facts) && AssertAll(w, facts, saying).Some? && i < |facts|
    ensures EntriesOf(AssertAll(w, facts, saying).value.attributes, facts[i].0)
            == Recorded(EntriesOf(w.attributes, facts[i].0), ClaimOf(facts[i].1, saying))
    decreases |facts|
  {
    var claim := ClaimOf(facts[0].1, saying);
    var after := AssertOne(w, facts[0].0, claim).value;
    OneFactIsRecorded(w, facts[0].0, claim);
    if i == 0 {
      OtherBucketsStay(after, facts[1..], saying, facts[0].0);
    } else {
      ThisFactIsRecorded(after, facts[1..], saying, i - 1);
      OtherNamesStay(w, facts[0].0, claim, facts[i].0);
    }
  }

  /** A payload of an asserted transaction, as the caller gives it: a dictionary, of
      which the empty values are no facts. */
  predicate IsFact(given: Facts, name: string, value: Json) {
    (name, value) in given && value != Null && value != Text("")
  }

  ghost predicate IsDictionary(given: Facts) {
    forall i, j | 0 <= i < j < |given| :: given[i].0 != given[j].0
  }

  lemma {:induction false} WorthIsADictionary(given: Facts)
    requires IsDictionary(given)
    ensures NamesAreDistinct(Worth(given))
  {
    if given != [] {
      WorthIsADictionary(given[1..]);
      var rest := Worth(given[1..]);
      forall k | 0 <= k < |rest| ensures rest[k].0 != given[0].0 {
        assert rest[k] in rest && rest[k] in given[1..];
        var j :| 0 <= j < |given[1..]| && given[1..][j] == rest[k];
        assert given[j + 1] == rest[k];
      }
    }
  }

  /** What the transaction asserts: the value, by this class and producer, now. */
  function Said(value: Json, evidence: Evidence, source: string, confidence: Option<real>, now: int): Claim {
    Claim(value, evidence, ClaimConfidence(evidence, confidence), source, now)
  }

  ghost predicate CanAssert(
    p: Profile, given: Facts, evidence: Evidence, source: string, confidence: Option<real>, now: int)
  {
    forall name, value | IsFact(given, name, value) ::
      CanRecord(p.attributes, name, Said(value, evidence, source, confidence, now))
  }

  /** The row after, as the transaction leaves it. */
  function RowAfter(
    p: Profile, given: Facts, evidence: Evidence, source: string, confidence: Option<real>, now: int): Profile
  {
    After(p, Says(given, evidence, source, confidence, now))
  }

  lemma CanAssertIff(
    p: Profile, given: Facts, evidence: Evidence, source: string, confidence: Option<real>, now: int)
    requires IsDictionary(given)
    ensures var saying := Saying(evidence, source, now, ClaimConfidence(evidence, confidence));
            CanAssert(p, given, evidence, source, confidence, now)
            <==> AssertAll(Working(p.attributes, map[]), Worth(given), saying).Some?
  {
    var saying := Saying(evidence, source, now, ClaimConfidence(evidence, confidence));
    var facts := Worth(given);
    WorthIsADictionary(given);
    AssertingSucceedsIff(Working(p.attributes, map[]), facts, saying);
    if AllCanBeRecorded(p.attributes, facts, saying) {
      forall name, value | IsFact(given, name, value)
        ensures CanRecord(p.attributes, name, Said(value, evidence, source, confidence, now))
      {
        assert (name, value) in facts;
        var i :| 0 <= i < |facts| && facts[i] == (name, value);
        assert CanRecord(p.attributes, facts[i].0, ClaimOf(facts[i].1, saying));
      }
    }
    if CanAssert(p, given, evidence, source, confidence, now) {
      forall i | 0 <= i < |facts| ensures CanRecord(p.attributes, facts[i].0, ClaimOf(facts[i].1, saying)) {
        assert facts[i] in facts;
        assert IsFact(given, facts[i].0, facts[i].1);
      }
    }
  }

  ghost predicate IsOnRecordNow(
    before: seq<Entry>, after: seq<Entry>, value: Json, evidence: Evidence, source: string, confidence: Option<real>,
    now: int)
  {
    && after != [] && after[|after| - 1].Good?
    && var last := after[|after| - 1].claim;
    && last.v == value && last.e == evidence && last.src == source
    && (if Repeats(before, last) then after == before
        else after == before + [Good(last)] && last.at == now && IsSureness(last.k, evidence, confidence))
  }

  lemma RecordedIsOnRecord(
    before: seq<Entry>, value: Json, evidence: Evidence, source: string, confidence: Option<real>, now: int)
    ensures var after := Recorded(before, Said(value, evidence, source, confidence, now));
            IsOnRecordNow(before, after, value, evidence, source, confidence, now)
  {
    ClaimsAreAsSure(evidence, confidence);
  }

  /** Every fact of the payload is on record afterwards: the last entry of its
      history carries its value, class and producer; the history is longer by
      exactly that claim, made now and as sure as it may be, if and only if its
      last entry said anything else; and what was there before is all still
      there. A transaction that cannot record one of them records none. */
  lemma EveryFactIsRecorded(
    p: Profile, given: Facts, evidence: Evidence, source: string, confidence: Option<real>, now: int,
    name: string, value: Json)
    requires IsDictionary(given) && IsFact(given, name, value)
    ensures var before := EntriesOf(p.attributes, name);
            var row := RowAfter(p, given, evidence, source, confidence, now);
            var after := EntriesOf(row.attributes, name);
            if CanAssert(p, given, evidence, source, confidence, now) then
              IsOnRecordNow(before, after, value, evidence, source, confidence, now)
            else row == p
  {
    var saying := Saying(evidence, source, now, ClaimConfidence(evidence, confidence));
    CanAssertIff(p, given, evidence, source, confidence, now);
    RecordedIsOnRecord(EntriesOf(p.attributes, name), value, evidence, source, confidence, now);
    if CanAssert(p, given, evidence, source, confidence, now) {
      var facts := Worth(given);
      WorthIsADictionary(given);
      assert (name, value) in facts;
      var i :| 0 <= i < |facts| && facts[i] == (name, value);
      ThisFactIsRecorded(Working(p.attributes, map[]), facts, saying, i);
    }
  }

  /** A name the payload does not speak of is as it was. */
  lemma OtherFactsStay(
    p: Profile, given: Facts, evidence: Evidence, source: string, confidence: Option<real>, now: int, name: string)
    requires forall value :: !IsFact(given, name, value)
    ensures EntriesOf(RowAfter(p, given, evidence, source, confidence, now).attributes, name)
            == EntriesOf(p.attributes, name)
  {
    var saying := Saying(evidence, source, now, ClaimConfidence(evidence, confidence));
    var facts := Worth(given);
    forall fact | fact in facts ensures fact.0 != name {
      assert !IsFact(given, name, fact.1);
    }
    var w := Working(p.attributes, map[]);
    if AssertAll(w, facts, saying).Some? {
      OtherBucketsStay(w, facts, saying, name);
    }
  }

  // ---- What is shown ----

  /** The best claim of a history: none before it is as good, and none after it
      better. */
  ghost predicate IsBest(history: seq<Entry>, i: nat) {
    && i < |history| && history[i].Good?
    && (forall j | 0 <= j < i && history[j].Good? :: IsBetter(history[i].claim, history[j].claim))
    && forall j | i < j < |history| && history[j].Good? :: !IsBetter(history[j].claim, history[i].claim)
  }

  lemma {:induction false} TheBestWins(history: seq<Entry>) returns (i: nat)
    requires ClaimsIn(history) != []
    ensures IsBest(history, i) && history[i].claim == Winner(ClaimsIn(history))
  {
    var n := |history| - 1;
    var before, last := history[..n], history[n];
    if ClaimsIn(before) == [] {
      NoClaims(before);
      assert forall j | 0 <= j < n :: history[j] == before[j];
      assert ClaimsIn(history) == [last.claim];
      i := n;
    } else {
      i := TheBestWins(before);
      assert ClaimsIn(before) + [] == ClaimsIn(before);
      assert forall j | 0 <= j < n :: history[j] == before[j];
      if last.Good? {
        WinnerOfOneMore(ClaimsIn(before), last.claim);
        BetterBeats(last.claim, before[i].claim);
        if Beats(last.claim, before[i].claim) {
          ABetterOneIsBest(history, i);
          i := n;
        }
      }
    }
  }

  lemma ABetterOneIsBest(history: seq<Entry>, i: nat)
    requires history != [] && history[|history| - 1].Good?
    requires IsBest(history[..|history| - 1], i) && IsBetter(history[|history| - 1].claim, history[i].claim)
    ensures IsBest(history, |history| - 1)
  {
    var n := |history| - 1;
    var before, last := history[..n], history[n].claim;
    forall j | 0 <= j < n && history[j].Good? ensures IsBetter(last, history[j].claim) {
      assert history[j] == before[j];
      BetterBeats(last, history[j].claim);
      BetterBeats(last, history[i].claim);
      BetterBeats(history[j].claim, history[i].claim);
      BetterBeats(history[i].claim, history[j].claim);
    }
  }

  lemma WinnerOfOneMore(claims: seq<Claim>, claim: Claim)
    requires claims != []
    ensures Winner(claims + [claim]) == if Beats(claim, Winner(claims)) then claim else Winner(claims)
  {
    assert (claims + [claim])[..|claims|] == claims;
  }

  lemma {:induction false} NoClaims(history: seq<Entry>)
    ensures ClaimsIn(history) == [] <==> forall j | 0 <= j < |history| :: history[j].Malformed?
  {
    if history != [] {
      NoClaims(history[..|history| - 1]);
    }
  }

  lemma OneIsBest(history: seq<Entry>, i: nat, j: nat)
    requires IsBest(history, i) && IsBest(history, j)
    ensures i == j
  {
  }

  ghost predicate ShowsValue(history: seq<Entry>, i: nat, value: Json) {
    IsBest(history, i) && history[i].claim.e != Inferred && history[i].claim.v == value
  }

  predicate ReadersMaySee(name: string) {
    && name !in {"phone", "email", "igsid", "shopify_customer_id", "external_ref", "_handle_history"}
    && (name == "" || name[0] != '_')
  }

  /** What a reader outside identity is shown: of every name but the handles' and
      the private ones, the value of the best claim, unless that is a guess. */
  lemma ReadersAreShownTheBest(attributes: Attributes, name: string, value: Json)
    ensures name in Winning(attributes) && Winning(attributes)[name] == value <==>
            && ReadersMaySee(name)
            && exists i: nat :: ShowsValue(EntriesOf(attributes, name), i, value)
  {
    var history := EntriesOf(attributes, name);
    assert ReadersMaySee(name) <==> IsReadable(name) by {
      assert name != "" && name[0] == '_' <==> "_" <= name;
    }
    NoClaims(history);
    if ClaimsIn(history) != [] {
      var best := TheBestWins(history);
      forall i: nat | ShowsValue(history, i, value) ensures i == best {
        OneIsBest(history, i, best);
      }
      assert Shown(History(history)) == Some(value) <==> ShowsValue(history, best, value);
    }
  }

  /** A fact of a higher class than all on record, or of the highest at a later
      instant, is what a reader is shown from then on, and what its column holds. */
  lemma ABetterFactIsShown(
    p: Profile, given: Facts, evidence: Evidence, source: string, confidence: Option<real>, now: int,
    name: string, value: Json)
    requires IsDictionary(given) && IsFact(given, name, value)
    requires CanAssert(p, given, evidence, source, confidence, now) && evidence != Inferred
    requires forall entry | entry in EntriesOf(p.attributes, name) && entry.Good? ::
               Outranks(evidence, entry.claim.e) || (evidence == entry.claim.e && now > entry.claim.at)
    requires !Repeats(EntriesOf(p.attributes, name), Claim(value, evidence, 0.0, source, now))
    ensures var row := RowAfter(p, given, evidence, source, confidence, now);
            && (ReadersMaySee(name) ==> name in Winning(row.attributes) && Winning(row.attributes)[name] == value)
            && (IsSound(p) ==>
                  && (name == "name" ==> Lookup(row.columns, DisplayName) == Some(value))
                  && (name == "locale" ==> Lookup(row.columns, PrimaryLocale) == Some(value))
                  && (name == "timezone" ==> Lookup(row.columns, Timezone) == Some(value)))
  {
    var row := RowAfter(p, given, evidence, source, confidence, now);
    var before, after := EntriesOf(p.attributes, name), EntriesOf(row.attributes, name);
    EveryFactIsRecorded(p, given, evidence, source, confidence, now, name, value);
    assert after == before + [after[|before|]];
    forall j | 0 <= j < |before| && after[j].Good? ensures IsBetter(after[|before|].claim, after[j].claim) {
      assert after[j] in before;
    }
    assert ShowsValue(after, |before|, value);
    ReadersAreShownTheBest(row.attributes, name, value);
    if IsSound(p) {
      AssertingKeepsSound(p, Worth(given), Saying(evidence, source, now, ClaimConfidence(evidence, confidence)));
      ColumnsShowTheBest(row, name, |before|);
    }
  }

  /** A coherent row's columns hold what its histories show. */
  lemma ColumnsShowTheBest(row: Profile, name: string, i: nat)
    requires IsCoherent(row.attributes, row.columns) && IsBest(EntriesOf(row.attributes, name), i)
    requires EntriesOf(row.attributes, name)[i].claim.e != Inferred
    ensures var value := EntriesOf(row.attributes, name)[i].claim.v;
            && (name == "name" ==> Lookup(row.columns, DisplayName) == Some(value))
            && (name == "locale" ==> Lookup(row.columns, PrimaryLocale) == Some(value))
            && (name == "timezone" ==> Lookup(row.columns, Timezone) == Some(value))
  {
    var history := EntriesOf(row.attributes, name);
    NoClaims(history);
    var best := TheBestWins(history);
    OneIsBest(history, i, best);
    forall column ensures Lookup(row.columns, column) == ShownAs(row.attributes, NameOf(column)) {
    }
  }
}
