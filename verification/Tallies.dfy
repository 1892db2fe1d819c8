/** Dictionaries of counters, and what they add up to. */
module Tallies {

  /** `counts.get(key, 0)`. */
  function At<K>(counts: map<K, nat>, key: K): nat {
    if key in counts then counts[key] else 0
  }

  /** `counts[key] = counts.get(key, 0) + n`. */
  function Bumped<K>(counts: map<K, nat>, key: K, n: nat): map<K, nat> {
    counts[key := At(counts, key) + n]
  }

  /** Two dictionaries added key by key. */
  function Plus<K>(a: map<K, nat>, b: map<K, nat>): map<K, nat> {
    map key | key in a.Keys + b.Keys :: At(a, key) + At(b, key)
  }

  lemma PlusAssociates<K>(a: map<K, nat>, b: map<K, nat>, c: map<K, nat>)
    ensures Plus(Plus(a, b), c) == Plus(a, Plus(b, c))
  {
    assert Plus(Plus(a, b), c).Keys == Plus(a, Plus(b, c)).Keys;
  }

  /** The loop that adds one dictionary into another. */
  method Joined<K>(have: map<K, nat>, more: map<K, nat>) returns (joined: map<K, nat>)
    ensures joined == Plus(have, more)
  {
    joined := have;
    var rest := more.Keys;
    while rest != {}
      invariant rest <= more.Keys
      invariant joined == Plus(have, map key | key in more && key !in rest :: more[key])
    {
      var key :| key in rest;
      rest := rest - {key};
      joined := Bumped(joined, key, more[key]);
    }
    assert more == map key | key in more && key !in rest :: more[key];
  }

  /** The sum of a dictionary's values, each weighed. */
  ghost function TotalBy<K, V>(m: map<K, V>, weight: V -> nat): nat {
    if m == map[] then 0
    else
      var key :| key in m;
      weight(m[key]) + TotalBy(m - {key}, weight)
  }

  ghost function Total<K>(counts: map<K, nat>): nat {
    TotalBy<K, nat>(counts, Itself)
  }

  function Itself(n: nat): nat {
    n
  }

  /** Any key may be counted first. */
  lemma {:induction false} TotalBySplit<K, V>(m: map<K, V>, weight: V -> nat, key: K)
    requires key in m
    ensures TotalBy(m, weight) == weight(m[key]) + TotalBy(m - {key}, weight)
    decreases |m|
  {
    var first :| first in m && TotalBy(m, weight) == weight(m[first]) + TotalBy(m - {first}, weight);
    if first != key {
      assert m - {first} - {key} == m - {key} - {first};
      TotalBySplit(m - {first}, weight, key);
      TotalBySplit(m - {key}, weight, first);
    }
  }

  /** Setting one key changes the sum by that key's difference. */
  lemma TotalBySet<K, V>(m: map<K, V>, weight: V -> nat, key: K, value: V)
    ensures TotalBy(m[key := value], weight) + (if key in m then weight(m[key]) else 0)
            == TotalBy(m, weight) + weight(value)
  {
    TotalBySplit(m[key := value], weight, key);
    assert m[key := value] - {key} == m - {key};
    if key in m {
      TotalBySplit(m, weight, key);
    } else {
      assert m - {key} == m;
    }
  }

  lemma TotalBumped<K>(counts: map<K, nat>, key: K, n: nat)
    ensures Total(Bumped(counts, key, n)) == Total(counts) + n
  {
    TotalBySet<K, nat>(counts, Itself, key, At(counts, key) + n);
  }

  lemma PlusOneKey<K>(a: map<K, nat>, b: map<K, nat>, key: K)
    requires key in b
    ensures Plus(a, b) == Bumped(Plus(a, b - {key}), key, b[key])
  {
    assert Plus(a, b).Keys == Bumped(Plus(a, b - {key}), key, b[key]).Keys;
  }

  /** Adding two dictionaries adds their sums. */
  lemma {:induction false} TotalPlus<K>(a: map<K, nat>, b: map<K, nat>)
    ensures Total(Plus(a, b)) == Total(a) + Total(b)
    decreases |b|
  {
    if b == map[] {
      assert Plus(a, b) == a;
    } else {
      var key :| key in b;
      var rest := b - {key};
      TotalPlus(a, rest);
      PlusOneKey(a, b, key);
      TotalBumped(Plus(a, rest), key, b[key]);
      TotalBySplit<K, nat>(b, Itself, key);
    }
  }

  /** The sum of a list, each item weighed. */
  function SumOver<T>(items: seq<T>, weight: T -> nat): nat {
    if items == [] then 0 else weight(items[0]) + SumOver(items[1..], weight)
  }

  lemma {:induction false} SumOverBoth<T>(items: seq<T>, more: seq<T>, weight: T -> nat)
    ensures SumOver(items + more, weight) == SumOver(items, weight) + SumOver(more, weight)
  {
    if items == [] {
      assert items + more == more;
    } else {
      assert (items + more)[1..] == items[1..] + more;
      SumOverBoth(items[1..], more, weight);
    }
  }

  lemma SumOverOneMore<T>(items: seq<T>, weight: T -> nat)
    requires items != []
    ensures SumOver(items, weight) == SumOver(items[..|items| - 1], weight) + weight(items[|items| - 1])
  {
    var last := [items[|items| - 1]];
    assert items == items[..|items| - 1] + last;
    assert last[1..] == [];
    SumOverBoth(items[..|items| - 1], last, weight);
  }
}
