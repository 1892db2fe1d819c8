/** Which of the conflicting claims about a customer we believe
    (identity/facts.py). */
module Facts {
  import opened Wrappers
  import opened Claims

  // ---- Claims ----

  /** A JSON value; only the empty text and null are treated apart. */
  datatype Json = Null | Text(text: string) | Opaque(serial: nat)

  datatype Claim = Claim(v: Json, e: Evidence, k: real, src: string, at: int)

  /** What a bucket may hold: a claim, or something without a class or an
      instant that another writer left there. */
  datatype Entry = Good(claim: Claim) | Malformed

  datatype Bucket = History(entries: seq<Entry>) | NotAList

  type Attributes = map<string, Bucket>

  datatype Column = DisplayName | PrimaryLocale | Timezone

  const INFERRED_CONFIDENCE_CAP: real := 0.5

  const HANDLE_LIKE_ATTRIBUTES: set<string> :=
    {"phone", "email", "igsid", "shopify_customer_id", "external_ref", "_handle_history"}

  function Rank(e: Evidence): nat {
    match e
    case Declared => 3
    case Observed => 2
    case Imported => 1
    case Inferred => 0
  }

  function DefaultConfidence(e: Evidence): real {
    match e
    case Declared => 1.0
    case Observed => 0.9
    case Imported => 0.7
    case Inferred => 0.4
  }

  function Min(a: real, b: real): real {
    if b < a then b else a
  }

  /** An explicit confidence is kept when it is a probability, and, for a guess,
      within the cap; no other number ever comes out above either. */
  function ClaimConfidence(e: Evidence, given: Option<real>): (k: real)
    ensures 0.0 <= k <= 1.0 && (e.Inferred? ==> k <= INFERRED_CONFIDENCE_CAP)
    ensures given.Some? && 0.0 <= given.value <= 1.0 && (e.Inferred? ==> given.value <= INFERRED_CONFIDENCE_CAP) ==>
              k == given.value
    ensures given.Some? && given.value > 1.0 && !e.Inferred? ==> k == 1.0
  {
    var value := given.GetOr(DefaultConfidence(e));
    var capped := if e.Inferred? then Min(value, INFERRED_CONFIDENCE_CAP) else value;
    var below := Min(1.0, capped);
    if below < 0.0 then 0.0 else below
  }

  /** A strictly better key: a higher class, or the same class at a later
      instant. */
  predicate Beats(a: Claim, b: Claim) {
    Rank(a.e) > Rank(b.e) || (Rank(a.e) == Rank(b.e) && a.at > b.at)
  }

  /** The first claim nothing beats. */
  function Winner(claims: seq<Claim>): Claim
    requires claims != []
  {
    var last := claims[|claims| - 1];
    if |claims| == 1 then last
    else
      var best := Winner(claims[..|claims| - 1]);
      if Beats(last, best) then last else best
  }

  function ClaimsIn(entries: seq<Entry>): seq<Claim> {
    if entries == [] then []
    else
      var last := entries[|entries| - 1];
      ClaimsIn(entries[..|entries| - 1]) + if last.Good? then [last.claim] else []
  }

  lemma OneMoreClaim(entries: seq<Entry>, claim: Claim)
    ensures ClaimsIn(entries + [Good(claim)]) == ClaimsIn(entries) + [claim]
  {
    assert (entries + [Good(claim)])[..|entries|] == entries;
  }

  /** A claim that repeats the latest one's value, class and producer carries
      nothing new. */
  predicate IsDrift(entries: seq<Entry>, claim: Claim) {
    entries == [] ||
    var latest := entries[|entries| - 1];
    || latest.Malformed?
    || latest.claim.v != claim.v || latest.claim.e != claim.e || latest.claim.src != claim.src
  }

  // ---- Asserting ----

  function ColumnOf(name: string): Option<Column> {
    if name == "name" then Some(DisplayName)
    else if name == "locale" then Some(PrimaryLocale)
    else if name == "timezone" then Some(Timezone)
    else None
  }

  /** A customer's row, as far as facts go; a NULL column is missing. */
  datatype Profile = Profile(attributes: Attributes, columns: map<Column, Json>)

  /** The transaction's working copy, and the columns it will set. */
  datatype Working = Working(attributes: Attributes, materialized: map<Column, Json>)

  function BucketOf(attributes: Attributes, name: string): Bucket {
    if name in attributes then attributes[name] else History([])
  }

  function EntriesOf(attributes: Attributes, name: string): seq<Entry> {
    if name in attributes && attributes[name].History? then attributes[name].entries else []
  }

  /** One fact: kept back, appended, or the whole transaction fails (None) on a
      bucket that is not a history of claims. */
  function AssertOne(w: Working, name: string, claim: Claim): Option<Working> {
    var bucket := BucketOf(w.attributes, name);
    if bucket.NotAList? then None
    else if !IsDrift(bucket.entries, claim) then Some(w)
    else if Malformed in bucket.entries then None
    else
      var winner := Winner(ClaimsIn(bucket.entries) + [claim]);
      Some(Working(
             w.attributes[name := History(bucket.entries + [Good(claim)])],
             if ColumnOf(name).Some? && !winner.e.Inferred? then w.materialized[ColumnOf(name).value := winner.v]
             else w.materialized))
  }

  type Facts = seq<(string, Json)>

  /** Who says so, and when. */
  datatype Saying = Saying(evidence: Evidence, source: string, now: int, k: real)

  function ClaimOf(value: Json, saying: Saying): Claim {
    Claim(value, saying.evidence, saying.k, saying.source, saying.now)
  }

  function AssertAll(w: Working, facts: Facts, saying: Saying): Option<Working>
    decreases |facts|
  {
    if facts == [] then Some(w)
    else
      var after := AssertOne(w, facts[0].0, ClaimOf(facts[0].1, saying));
      if after.None? then None else AssertAll(after.value, facts[1..], saying)
  }

  predicate SaysSomething(value: Json) {
    value != Null && value != Text("")
  }

  /** Absent and empty values are not facts. */
  function Worth(facts: Facts): (worth: Facts)
    ensures forall fact :: fact in worth <==> fact in facts && SaysSomething(fact.1)
  {
    if facts == [] then []
    else (if SaysSomething(facts[0].1) then [facts[0]] else []) + Worth(facts[1..])
  }

  /** The row after the transaction: all of it, or, where a bucket was not a
      history, none of it. */
  function Asserted(p: Profile, facts: Facts, saying: Saying): Profile {
    match AssertAll(Working(p.attributes, map[]), facts, saying)
    case None => p
    case Some(w) => Profile(w.attributes, p.columns + w.materialized)
  }

  // ---- Reading ----

  /** May a reader outside identity see this name at all? */
  predicate IsReadable(name: string) {
    name !in HANDLE_LIKE_ATTRIBUTES && !("_" <= name)
  }

  /** The value a bucket shows, if any: its winner's, unless that is a guess. */
  function Shown(bucket: Bucket): Option<Json> {
    if bucket.NotAList? || ClaimsIn(bucket.entries) == [] then None
    else
      var winner := Winner(ClaimsIn(bucket.entries));
      if winner.e.Inferred? then None else Some(winner.v)
  }

  function Winning(attributes: Attributes): map<string, Json> {
    map name | name in attributes && IsReadable(name) && Shown(attributes[name]).Some? ::
      Shown(attributes[name]).value
  }

  /** `winning_attributes`. */
  method WinningAttributes(attributes: Attributes) returns (winners: map<string, Json>)
    ensures winners == Winning(attributes)
  {
    winners := map[];
    var rest := attributes.Keys;
    while rest != {}
      invariant rest <= attributes.Keys
      invariant winners == map name | name in Winning(attributes) && name !in rest :: Winning(attributes)[name]
    {
      var name :| name in rest;
      rest := rest - {name};
      if name in HANDLE_LIKE_ATTRIBUTES || "_" <= name {
        continue;
      }
      var bucket := attributes[name];
      var usable := if bucket.History? then ClaimsIn(bucket.entries) else [];
      if usable == [] {
        continue;
      }
      var winner := PickWinner(usable);
      if winner.e == Inferred {
        continue;
      }
      winners := winners[name := winner.v];
    }
  }

  /** One pass for the first maximum. */
  method PickWinner(claims: seq<Claim>) returns (winner: Claim)
    requires claims != []
    ensures winner == Winner(claims)
  {
    winner := claims[0];
    assert claims[..1] == [claims[0]];
    for i := 1 to |claims|
      invariant winner == Winner(claims[..i])
    {
      assert claims[..i + 1][..i] == claims[..i];
      if Beats(claims[i], winner) {
        winner := claims[i];
      }
    }
    assert claims[..|claims|] == claims;
  }

  // ---- The row ----

  class Customer {
    var attributes: Attributes
    var columns: map<Column, Json>

    ghost function Row(): Profile
      reads this
    {
      Profile(attributes, columns)
    }

    constructor ()
      ensures Row() == Profile(map[], map[])
    {
      attributes, columns := map[], map[];
    }

    /** The transaction under the row's lock; it fails, and leaves the row, on a
        bucket that is not a history. */
    method AssertFacts(given: Facts, evidence: Evidence, source: string, confidence: Option<real>, now: int)
      returns (ok: bool)
      modifies this
      ensures var saying := Saying(evidence, source, now, ClaimConfidence(evidence, confidence));
              Row() == Asserted(old(Row()), Worth(given), saying)
              && (ok <==> AssertAll(Working(old(attributes), map[]), Worth(given), saying).Some?)
    {
      var facts := Worth(given);
      ghost var saying := Saying(evidence, source, now, ClaimConfidence(evidence, confidence));
      if facts == [] {
        assert columns + map[] == columns;
        return true;
      }
      var k := ClaimConfidence(evidence, confidence);
      var working, materialized: map<Column, Json> := attributes, map[];
      for i := 0 to |facts|
        invariant attributes == old(attributes) && columns == old(columns)
        invariant AssertAll(Working(attributes, map[]), facts, saying)
                  == AssertAll(Working(working, materialized), facts[i..], saying)
      {
        assert facts[i..][0] == facts[i] && facts[i..][1..] == facts[i + 1..];
        var after := AssertFact(working, materialized, facts[i].0, Claim(facts[i].1, evidence, k, source, now));
        if after.None? {
          return false;
        }
        working, materialized := after.value.attributes, after.value.materialized;
      }
      attributes, columns := working, columns + materialized;
      return true;
    }
  }

  /** The loop's body. */
  method AssertFact(attributes: Attributes, materialized: map<Column, Json>, name: string, claim: Claim)
    returns (after: Option<Working>)
    ensures after == AssertOne(Working(attributes, materialized), name, claim)
  {
    var bucket := if name in attributes then attributes[name] else History([]);
    if bucket.NotAList? {
      return None;
    }
    if !IsDrift(bucket.entries, claim) {
      return Some(Working(attributes, materialized));
    }
    if Malformed in bucket.entries {
      return None;
    }
    var entries := bucket.entries + [Good(claim)];
    OneMoreClaim(bucket.entries, claim);
    var winner := PickWinner(ClaimsIn(entries));
    var column := ColumnOf(name);
    var chosen := if column.Some? && winner.e != Inferred then materialized[column.value := winner.v] else materialized;
    return Some(Working(attributes[name := History(entries)], chosen));
  }
}
