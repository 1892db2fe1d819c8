/** Claim histories and the columns that cache their winners stay coherent. */
module FactsTheorems {
  import opened Wrappers
  import opened Claims
  import opened Facts

  // ---- Winners ----

  /** More claims never lower the winner's class. */
  lemma {:induction false} WinnersRankNeverFalls(claims: seq<Claim>, more: seq<Claim>)
    requires claims != []
    ensures Rank(Winner(claims + more).e) >= Rank(Winner(claims).e)
  {
    if more == [] {
      assert claims + more == claims;
    } else {
      var before := claims + more[..|more| - 1];
      WinnersRankNeverFalls(claims, more[..|more| - 1]);
      assert (claims + more)[..|claims + more| - 1] == before;
    }
  }

  /** The winner is the earliest of the best: it beats every claim before it, and
      no claim after it beats it. So the newest claim of the best class wins
      unless another of that class bears the same instant, or a later one. */
  lemma {:induction false} WinnerIsTheFirstOfTheBest(claims: seq<Claim>) returns (i: nat)
    requires claims != []
    ensures i < |claims| && claims[i] == Winner(claims)
    ensures forall j | 0 <= j < i :: Beats(claims[i], claims[j])
    ensures forall j | i < j < |claims| :: !Beats(claims[j], claims[i])
  {
    var n := |claims| - 1;
    if n == 0 {
      i := 0;
    } else {
      i := WinnerIsTheFirstOfTheBest(claims[..n]);
      if Beats(claims[n], claims[..n][i]) {
        i := n;
      }
    }
  }

  lemma {:induction false} ClaimsOfBoth(a: seq<Entry>, b: seq<Entry>)
    ensures ClaimsIn(a + b) == ClaimsIn(a) + ClaimsIn(b)
  {
    if b == [] {
      assert a + b == a;
    } else {
      ClaimsOfBoth(a, b[..|b| - 1]);
      assert (a + b)[..|a + b| - 1] == a + b[..|b| - 1];
    }
  }

  // ---- Histories only grow ----

  /** Nothing is ever taken from a bucket. */
  ghost predicate Grows(before: Attributes, after: Attributes) {
    forall name | name in before ::
      && name in after
      && (before[name].NotAList? ==> after[name] == before[name])
      && (before[name].History? ==> after[name].History? && before[name].entries <= after[name].entries)
  }

  lemma {:induction false} AssertingOnlyAppends(w: Working, facts: Facts, saying: Saying)
    requires AssertAll(w, facts, saying).Some?
    ensures Grows(w.attributes, AssertAll(w, facts, saying).value.attributes)
    decreases |facts|
  {
    if facts != [] {
      AssertingOnlyAppends(AssertOne(w, facts[0].0, ClaimOf(facts[0].1, saying)).value, facts[1..], saying);
    }
  }

  // ---- The columns ----

  function NameOf(column: Column): string {
    match column
    case DisplayName => "name"
    case PrimaryLocale => "locale"
    case Timezone => "timezone"
  }

  lemma NamesHaveTheirColumns(name: string, column: Column)
    ensures ColumnOf(name) == Some(column) <==> name == NameOf(column)
    ensures IsReadable(NameOf(column))
  {
    assert |"name"| == 4 && |"locale"| == 6 && |"timezone"| == 8;
    assert "name"[0] == 'n' && "locale"[0] == 'l' && "timezone"[0] == 't';
  }

  function Lookup<K, V>(m: map<K, V>, key: K): Option<V> {
    if key in m then Some(m[key]) else None
  }

  function ShownAs(attributes: Attributes, name: string): Option<Json> {
    Shown(BucketOf(attributes, name))
  }

  /** Every column is what a reader of the history would be shown. */
  ghost predicate IsCoherent(attributes: Attributes, columns: map<Column, Json>) {
    forall column :: Lookup(columns, column) == ShownAs(attributes, NameOf(column))
  }

  /** While a bucket's winner is a guess, it showed nothing before either. */
  lemma GuessesShowNothing(claims: seq<Claim>, claim: Claim)
    requires Winner(claims + [claim]).e.Inferred? && claims != []
    ensures Winner(claims).e.Inferred?
  {
    WinnersRankNeverFalls(claims, [claim]);
  }

  /** An appended claim's winner is shown, or, while it is a guess, nothing. */
  lemma OneMoreClaimShows(entries: seq<Entry>, claim: Claim)
    ensures var winner := Winner(ClaimsIn(entries) + [claim]);
            Shown(History(entries + [Good(claim)])) == if winner.e.Inferred? then None else Some(winner.v)
    ensures Winner(ClaimsIn(entries) + [claim]).e.Inferred? ==> Shown(History(entries)) == None
  {
    OneMoreClaim(entries, claim);
    if ClaimsIn(entries) != [] && Winner(ClaimsIn(entries) + [claim]).e.Inferred? {
      GuessesShowNothing(ClaimsIn(entries), claim);
    }
  }

  lemma ItsOwnColumnFollows(w: Working, columns: map<Column, Json>, claim: Claim, column: Column)
    requires AssertOne(w, NameOf(column), claim).Some?
    requires Lookup(columns + w.materialized, column) == ShownAs(w.attributes, NameOf(column))
    ensures var after := AssertOne(w, NameOf(column), claim).value;
            Lookup(columns + after.materialized, column) == ShownAs(after.attributes, NameOf(column))
  {
    NamesHaveTheirColumns(NameOf(column), column);
    OneMoreClaimShows(EntriesOf(w.attributes, NameOf(column)), claim);
  }

  lemma OtherColumnsStay(w: Working, columns: map<Column, Json>, name: string, claim: Claim, column: Column)
    requires AssertOne(w, name, claim).Some? && name != NameOf(column)
    ensures var after := AssertOne(w, name, claim).value;
            && Lookup(columns + after.materialized, column) == Lookup(columns + w.materialized, column)
            && ShownAs(after.attributes, NameOf(column)) == ShownAs(w.attributes, NameOf(column))
  {
    NamesHaveTheirColumns(name, column);
    var after := AssertOne(w, name, claim).value;
    assert BucketOf(after.attributes, NameOf(column)) == BucketOf(w.attributes, NameOf(column));
  }

  lemma {:induction false} AssertingKeepsColumns(
    w: Working, columns: map<Column, Json>, facts: Facts, saying: Saying)
    requires IsCoherent(w.attributes, columns + w.materialized) && AssertAll(w, facts, saying).Some?
    ensures var after := AssertAll(w, facts, saying).value;
            IsCoherent(after.attributes, columns + after.materialized)
    decreases |facts|
  {
    if facts != [] {
      var claim := ClaimOf(facts[0].1, saying);
      var after := AssertOne(w, facts[0].0, claim).value;
      forall column ensures Lookup(columns + after.materialized, column) == ShownAs(after.attributes, NameOf(column)) {
        if facts[0].0 == NameOf(column) {
          ItsOwnColumnFollows(w, columns, claim, column);
        } else {
          OtherColumnsStay(w, columns, facts[0].0, claim, column);
        }
      }
      AssertingKeepsColumns(after, columns, facts[1..], saying);
    }
  }

  // ---- Guesses ----

  /** No guess is ever held with more confidence than the cap. */
  ghost predicate GuessesAreCapped(attributes: Attributes) {
    forall name | name in attributes && attributes[name].History? :: EntriesAreCapped(attributes[name].entries)
  }

  predicate EntriesAreCapped(entries: seq<Entry>) {
    forall entry | entry in entries && entry.Good? && entry.claim.e.Inferred? ::
      entry.claim.k <= INFERRED_CONFIDENCE_CAP
  }

  lemma {:induction false} AssertingKeepsGuessesCapped(w: Working, facts: Facts, saying: Saying)
    requires GuessesAreCapped(w.attributes) && AssertAll(w, facts, saying).Some?
    requires saying.evidence.Inferred? ==> saying.k <= INFERRED_CONFIDENCE_CAP
    ensures GuessesAreCapped(AssertAll(w, facts, saying).value.attributes)
    decreases |facts|
  {
    if facts != [] {
      AssertingOneKeepsGuessesCapped(w, facts[0].0, ClaimOf(facts[0].1, saying));
      AssertingKeepsGuessesCapped(AssertOne(w, facts[0].0, ClaimOf(facts[0].1, saying)).value, facts[1..], saying);
    }
  }

  lemma AssertingOneKeepsGuessesCapped(w: Working, name: string, claim: Claim)
    requires GuessesAreCapped(w.attributes) && AssertOne(w, name, claim).Some?
    requires claim.e.Inferred? ==> claim.k <= INFERRED_CONFIDENCE_CAP
    ensures GuessesAreCapped(AssertOne(w, name, claim).value.attributes)
  {
    var entries := EntriesOf(w.attributes, name);
    assert EntriesAreCapped(entries);
    assert EntriesAreCapped(entries + [Good(claim)]);
  }

  // ---- Runs ----

  /** A row's life: facts asserted, and other modules keeping state under keys of
      their own. */
  datatype Event =
    | Says(given: Facts, evidence: Evidence, source: string, confidence: Option<real>, now: int)
    | Keeps(key: string, bucket: Bucket)

  function After(p: Profile, event: Event): Profile {
    match event
    case Says(given, evidence, source, confidence, now) =>
      Asserted(p, Worth(given), Saying(evidence, source, now, ClaimConfidence(evidence, confidence)))
    case Keeps(key, bucket) => p.(attributes := p.attributes[key := bucket])
  }

  /** Other modules stay off the names that are materialized, and plant no
      overconfident guess. */
  predicate Allowed(event: Event) {
    event.Keeps? ==>
      ColumnOf(event.key).None? && (event.bucket.History? ==> EntriesAreCapped(event.bucket.entries))
  }

  ghost predicate IsStep(before: Profile, event: Event, after: Profile) {
    Allowed(event) && after == After(before, event)
  }

  ghost predicate IsLife(rows: seq<Profile>, events: seq<Event>) {
    && |rows| == |events| + 1 && rows[0] == Profile(map[], map[])
    && forall k | 0 <= k < |events| :: IsStep(rows[k], events[k], rows[k + 1])
  }

  ghost predicate IsSound(p: Profile) {
    IsCoherent(p.attributes, p.columns) && GuessesAreCapped(p.attributes)
  }

  lemma AssertingKeepsSound(p: Profile, facts: Facts, saying: Saying)
    requires IsSound(p) && (saying.evidence.Inferred? ==> saying.k <= INFERRED_CONFIDENCE_CAP)
    ensures IsSound(Asserted(p, facts, saying))
  {
    var w := Working(p.attributes, map[]);
    assert p.columns + map[] == p.columns;
    if AssertAll(w, facts, saying).Some? {
      AssertingKeepsColumns(w, p.columns, facts, saying);
      AssertingKeepsGuessesCapped(w, facts, saying);
    }
  }

  /** Another module's write under a key leaves the columns true exactly when
      the key is not a materialized name, or shows what it showed before. */
  lemma KeepingIsSafeIff(p: Profile, key: string, bucket: Bucket)
    requires IsCoherent(p.attributes, p.columns)
    ensures IsCoherent(p.attributes[key := bucket], p.columns) <==>
            ColumnOf(key).None? || Shown(bucket) == ShownAs(p.attributes, key)
  {
    var attributes := p.attributes[key := bucket];
    forall column
      ensures ShownAs(attributes, NameOf(column))
              == if ColumnOf(key) == Some(column) then Shown(bucket) else ShownAs(p.attributes, NameOf(column))
    {
      NamesHaveTheirColumns(key, column);
    }
    if ColumnOf(key).Some? {
      var column := ColumnOf(key).value;
      NamesHaveTheirColumns(key, column);
      assert Lookup(p.columns, column) == ShownAs(p.attributes, key);
    }
  }

  lemma StepKeepsSound(p: Profile, event: Event, after: Profile)
    requires IsSound(p) && IsStep(p, event, after)
    ensures IsSound(after)
  {
    match event
    case Says(given, evidence, source, confidence, now) =>
      AssertingKeepsSound(p, Worth(given), Saying(evidence, source, now, ClaimConfidence(evidence, confidence)));
    case Keeps(key, bucket) => KeepingIsSafeIff(p, key, bucket);
  }

  lemma {:induction false} EveryRowIsSound(rows: seq<Profile>, events: seq<Event>, k: nat)
    requires IsLife(rows, events) && k < |rows|
    ensures IsSound(rows[k])
  {
    if k > 0 {
      EveryRowIsSound(rows, events, k - 1);
      StepKeepsSound(rows[k - 1], events[k - 1], rows[k]);
    }
  }

  /** At every point of a row's life each column shows exactly what a reader of
      its history is shown, so never a guess; and no guess outgrows its cap. */
  lemma ColumnsNeverDrift(rows: seq<Profile>, events: seq<Event>, k: nat)
    requires IsLife(rows, events) && k < |rows|
    ensures forall column :: Lookup(rows[k].columns, column) == Lookup(Winning(rows[k].attributes), NameOf(column))
    ensures GuessesAreCapped(rows[k].attributes)
  {
    EveryRowIsSound(rows, events, k);
    forall column
      ensures Lookup(rows[k].columns, column) == Lookup(Winning(rows[k].attributes), NameOf(column))
    {
      NamesHaveTheirColumns(NameOf(column), column);
      assert Lookup(rows[k].columns, column) == ShownAs(rows[k].attributes, NameOf(column));
    }
  }

  /** A value once shown is replaced only by one of no lower class, and never by
      nothing: history by history, the winner's class only rises. */
  lemma ShownClassNeverFalls(p: Profile, facts: Facts, saying: Saying, name: string)
    requires ClaimsIn(EntriesOf(p.attributes, name)) != []
    ensures var before := ClaimsIn(EntriesOf(p.attributes, name));
            var after := ClaimsIn(EntriesOf(Asserted(p, facts, saying).attributes, name));
            before <= after && Rank(Winner(after).e) >= Rank(Winner(before).e)
  {
    var w := Working(p.attributes, map[]);
    var entries := EntriesOf(p.attributes, name);
    if AssertAll(w, facts, saying).Some? {
      AssertingOnlyAppends(w, facts, saying);
      var more := EntriesOf(Asserted(p, facts, saying).attributes, name)[|entries|..];
      assert EntriesOf(Asserted(p, facts, saying).attributes, name) == entries + more;
      ClaimsOfBoth(entries, more);
      WinnersRankNeverFalls(ClaimsIn(entries), ClaimsIn(more));
    }
  }

  // ---- Saying it again ----

  /** A payload is a dictionary: one value a name. */
  predicate NamesAreDistinct(facts: Facts) {
    forall i, j | 0 <= i < j < |facts| :: facts[i].0 != facts[j].0
  }

  predicate IsOnRecord(attributes: Attributes, name: string, claim: Claim) {
    && BucketOf(attributes, name).History?
    && !IsDrift(EntriesOf(attributes, name), claim)
  }

  lemma {:induction false} OtherBucketsStay(w: Working, facts: Facts, saying: Saying, name: string)
    requires AssertAll(w, facts, saying).Some? && forall fact | fact in facts :: fact.0 != name
    ensures BucketOf(AssertAll(w, facts, saying).value.attributes, name) == BucketOf(w.attributes, name)
    decreases |facts|
  {
    if facts != [] {
      assert facts[0] in facts;
      OtherBucketsStay(AssertOne(w, facts[0].0, ClaimOf(facts[0].1, saying)).value, facts[1..], saying, name);
    }
  }

  lemma ThisFactIsOnRecord(w: Working, name: string, claim: Claim, again: Claim)
    requires AssertOne(w, name, claim).Some?
    requires again.v == claim.v && again.e == claim.e && again.src == claim.src
    ensures IsOnRecord(AssertOne(w, name, claim).value.attributes, name, again)
  {
  }

  lemma {:induction false} EveryFactIsOnRecord(w: Working, facts: Facts, saying: Saying, again: Saying, i: nat)
    requires AssertAll(w, facts, saying).Some? && NamesAreDistinct(facts) && i < |facts|
    requires again.evidence == saying.evidence && again.source == saying.source
    ensures IsOnRecord(AssertAll(w, facts, saying).value.attributes, facts[i].0, ClaimOf(facts[i].1, again))
    decreases |facts|
  {
    var after := AssertOne(w, facts[0].0, ClaimOf(facts[0].1, saying)).value;
    if i == 0 {
      ThisFactIsOnRecord(w, facts[0].0, ClaimOf(facts[0].1, saying), ClaimOf(facts[0].1, again));
      OtherBucketsStay(after, facts[1..], saying, facts[0].0);
    } else {
      EveryFactIsOnRecord(after, facts[1..], saying, again, i - 1);
    }
  }

  lemma {:induction false} FactsOnRecordChangeNothing(w: Working, facts: Facts, saying: Saying)
    requires forall i | 0 <= i < |facts| :: IsOnRecord(w.attributes, facts[i].0, ClaimOf(facts[i].1, saying))
    ensures AssertAll(w, facts, saying) == Some(w)
    decreases |facts|
  {
    if facts != [] {
      assert IsOnRecord(w.attributes, facts[0].0, ClaimOf(facts[0].1, saying));
      assert AssertOne(w, facts[0].0, ClaimOf(facts[0].1, saying)) == Some(w);
      FactsOnRecordChangeNothing(w, facts[1..], saying);
    }
  }

  /** The history records evidence, not traffic: the same payload, class and
      producer again, whenever and however sure, changes nothing. */
  lemma RepeatingAssertsNothing(p: Profile, facts: Facts, saying: Saying, again: Saying)
    requires NamesAreDistinct(facts) && AssertAll(Working(p.attributes, map[]), facts, saying).Some?
    requires again.evidence == saying.evidence && again.source == saying.source
    ensures Asserted(Asserted(p, facts, saying), facts, again) == Asserted(p, facts, saying)
  {
    var after := Asserted(p, facts, saying);
    forall i | 0 <= i < |facts| ensures IsOnRecord(after.attributes, facts[i].0, ClaimOf(facts[i].1, again)) {
      EveryFactIsOnRecord(Working(p.attributes, map[]), facts, saying, again, i);
    }
    FactsOnRecordChangeNothing(Working(after.attributes, map[]), facts, again);
    assert after.columns + map[] == after.columns;
  }
}
