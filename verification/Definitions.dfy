/** The cache of documents (outreach/definitions.py): a bounded, least recently
    used view of a table whose rows never change. */
module Definitions {
  import opened Wrappers
  import opened Board
  import opened Walker

  /** A document's key: its plan and its version. */
  type Key = (string, nat)

  /** A version row as stored: it parses, or it does not. */
  datatype Stored = Parses(definition: Definition) | Garbled

  type Table = map<Key, Stored>

  const CACHE_SIZE: nat := 512

  /** The table's own answer. */
  function Lookup(table: Table, key: Key): DocRead {
    if key !in table then Missing
    else if table[key].Garbled? then Unreadable
    else Read(table[key].definition)
  }

  // ---- Recency ----

  function Without(keys: seq<Key>, key: Key): seq<Key> {
    if keys == [] then []
    else Without(keys[..|keys| - 1], key) + if keys[|keys| - 1] == key then [] else [keys[|keys| - 1]]
  }

  /** The keys ever used, each once, by when it was last used. */
  function ByLastUse(uses: seq<Key>): seq<Key> {
    if uses == [] then []
    else Without(ByLastUse(uses[..|uses| - 1]), uses[|uses| - 1]) + [uses[|uses| - 1]]
  }

  /** The last `n`, or all there are. */
  function LastOf(keys: seq<Key>, n: nat): seq<Key> {
    if |keys| <= n then keys else keys[|keys| - n..]
  }

  predicate IsDistinct(keys: seq<Key>) {
    forall i, j | 0 <= i < j < |keys| :: keys[i] != keys[j]
  }

  lemma {:induction false} WithoutIs(keys: seq<Key>, key: Key)
    requires IsDistinct(keys)
    ensures IsDistinct(Without(keys, key)) && key !in Without(keys, key)
    ensures forall other :: other in Without(keys, key) <==> other in keys && other != key
    ensures |Without(keys, key)| == if key in keys then |keys| - 1 else |keys|
    ensures key !in keys ==> Without(keys, key) == keys
  {
    if keys != [] {
      var front, last := keys[..|keys| - 1], keys[|keys| - 1];
      WithoutIs(front, key);
      assert keys == front + [last];
      assert last !in front;
    }
  }

  lemma {:induction false} WithoutBoth(a: seq<Key>, b: seq<Key>, key: Key)
    ensures Without(a + b, key) == Without(a, key) + Without(b, key)
  {
    if b == [] {
      assert a + b == a;
    } else {
      WithoutBoth(a, b[..|b| - 1], key);
      assert (a + b)[..|a + b| - 1] == a + b[..|b| - 1];
    }
  }

  lemma OneMore(keys: seq<Key>, key: Key)
    requires IsDistinct(keys) && key !in keys
    ensures IsDistinct(keys + [key])
    ensures forall other :: other in keys + [key] <==> other in keys || other == key
  {
  }

  lemma {:induction false} ByLastUseIsDistinct(uses: seq<Key>)
    ensures IsDistinct(ByLastUse(uses))
    ensures forall key :: key in ByLastUse(uses) <==> key in uses
  {
    if uses != [] {
      var before, last := uses[..|uses| - 1], uses[|uses| - 1];
      ByLastUseIsDistinct(before);
      WithoutIs(ByLastUse(before), last);
      OneMore(Without(ByLastUse(before), last), last);
      assert uses == before + [last];
    }
  }

  /** `b` has been used since `a` last was. */
  predicate UsedSince(uses: seq<Key>, a: Key, b: Key) {
    exists k | 0 <= k < |uses| :: uses[k] == b && a !in uses[k..]
  }

  lemma UsedSinceStill(before: seq<Key>, last: Key, a: Key, b: Key)
    requires UsedSince(before, a, b) && a != last
    ensures UsedSince(before + [last], a, b)
  {
    var k :| 0 <= k < |before| && before[k] == b && a !in before[k..];
    assert (before + [last])[k..] == before[k..] + [last];
    assert (before + [last])[k] == b;
  }

  lemma LastIsUsedSince(before: seq<Key>, last: Key, a: Key)
    requires a != last
    ensures UsedSince(before + [last], a, last)
  {
    assert (before + [last])[|before|] == last && (before + [last])[|before|..] == [last];
  }

  /** The reference order is by last use: of two keys, the later one has been used
      since the earlier one last was. */
  lemma {:induction false} ByLastUseIsByLastUse(uses: seq<Key>, i: nat, j: nat)
    requires i < j < |ByLastUse(uses)|
    ensures UsedSince(uses, ByLastUse(uses)[i], ByLastUse(uses)[j])
  {
    var before, last := uses[..|uses| - 1], uses[|uses| - 1];
    assert uses == before + [last];
    var order := Without(ByLastUse(before), last);
    var x := WithoutKeepsPlaces(ByLastUse(before), last, i);
    if j == |order| {
      LastIsUsedSince(before, last, order[i]);
    } else {
      var a, b := WithoutKeepsOrder(ByLastUse(before), last, i, j);
      ByLastUseIsByLastUse(before, a, b);
      UsedSinceStill(before, last, order[i], order[j]);
    }
  }

  lemma {:induction false} WithoutKeepsOrder(keys: seq<Key>, key: Key, i: nat, j: nat) returns (x: nat, y: nat)
    requires i < j < |Without(keys, key)|
    ensures x < y < |keys| && keys[x] == Without(keys, key)[i] && keys[y] == Without(keys, key)[j]
  {
    var front := keys[..|keys| - 1];
    if j < |Without(front, key)| {
      x, y := WithoutKeepsOrder(front, key, i, j);
    } else {
      x := WithoutKeepsPlaces(front, key, i);
      y := |keys| - 1;
    }
  }

  lemma {:induction false} WithoutKeepsPlaces(keys: seq<Key>, key: Key, i: nat) returns (x: nat)
    requires i < |Without(keys, key)|
    ensures x < |keys| && keys[x] == Without(keys, key)[i] != key
  {
    var front := keys[..|keys| - 1];
    if i < |Without(front, key)| {
      x := WithoutKeepsPlaces(front, key, i);
    } else {
      x := |keys| - 1;
    }
  }

  lemma LastOfBoth(a: seq<Key>, b: seq<Key>, n: nat)
    requires |b| >= n
    ensures LastOf(a + b, n) == LastOf(b, n)
  {
  }

  /** What an old key leaves behind does not reach the recent end. */
  lemma LastOfThree(a: seq<Key>, b: seq<Key>, key: Key, n: nat)
    requires |b| + 1 >= n
    ensures LastOf(a + b + [key], n) == LastOf(b + [key], n)
  {
    assert a + b + [key] == a + (b + [key]);
    LastOfBoth(a, b + [key], n);
  }

  /** Using a key again, on the bounded list and on the whole history, comes to
      the same bounded list. */
  lemma UsingKeepsTheLast(gone: seq<Key>, kept: seq<Key>, key: Key, n: nat)
    requires IsDistinct(kept) && (gone != [] ==> |kept| == n)
    ensures LastOf(Without(gone + kept, key) + [key], n) == LastOf(Without(kept, key) + [key], n)
  {
    WithoutIs(kept, key);
    if gone == [] {
      assert gone + kept == kept;
    } else {
      WithoutBoth(gone, kept, key);
      LastOfThree(Without(gone, key), Without(kept, key), key, n);
    }
  }

  lemma OneMoreUse(uses: seq<Key>, order: seq<Key>, key: Key)
    requires order == LastOf(ByLastUse(uses), CACHE_SIZE)
    ensures LastOf(ByLastUse(uses + [key]), CACHE_SIZE) == LastOf(Without(order, key) + [key], CACHE_SIZE)
  {
    var all := ByLastUse(uses);
    ByLastUseIsDistinct(uses);
    var gone := all[..|all| - |order|];
    assert all == gone + order;
    UsingKeepsTheLast(gone, order, key, CACHE_SIZE);
    assert (uses + [key])[..|uses|] == uses;
  }

  lemma DroppingTheOldest(keys: seq<Key>, n: nat)
    requires IsDistinct(keys) && |keys| > n
    ensures IsDistinct(keys[1..]) && LastOf(keys[1..], n) == LastOf(keys, n)
    ensures forall key :: key in keys[1..] <==> key in keys && key != keys[0]
  {
    assert keys == [keys[0]] + keys[1..];
    LastOfBoth([keys[0]], keys[1..], n);
  }

  // ---- The cache ----

  class DefinitionCache {
    /** An insertion-ordered dictionary: its keys, the least recent first. */
    var order: seq<Key>
    var documents: map<Key, Definition>
    /** Every read a document answered, in order. */
    ghost var uses: seq<Key>

    /** What holds between any two awaits, whatever else is in flight. */
    ghost predicate Valid(table: Table)
      reads this
    {
      && IsDistinct(order) && |order| <= CACHE_SIZE
      && (forall key :: key in order <==> key in documents)
      && forall key | key in documents :: Lookup(table, key) == Read(documents[key])
    }

    /** What holds besides when every read runs to its end before the next: the
        cache is the most recently used documents, oldest use first. */
    ghost predicate IsRecent()
      reads this
    {
      order == LastOf(ByLastUse(uses), CACHE_SIZE)
    }

    constructor ()
      ensures Valid(map[]) && IsRecent() && uses == []
    {
      order, documents, uses := [], map[], [];
    }

    /** The read's first half: a hit moves the key to the recent end. */
    method Hit(key: Key, ghost table: Table) returns (found: Option<Definition>)
      requires Valid(table)
      modifies this
      ensures Valid(table) && documents == old(documents)
      ensures found == if key in documents then Some(documents[key]) else None
      ensures found.Some? ==> Lookup(table, key) == Read(found.value)
      ensures order == (if found.Some? then Without(old(order), key) + [key] else old(order))
      ensures uses == (if found.Some? then old(uses) + [key] else old(uses))
    {
      if key !in documents {
        return None;
      }
      WithoutIs(order, key);
      order, uses := Without(order, key) + [key], uses + [key];
      return Some(documents[key]);
    }

    /** The read's second half, after the await: by now another reader may have
        stored the same document. */
    method Fill(key: Key, table: Table) returns (read: DocRead)
      requires Valid(table)
      modifies this
      ensures Valid(table) && read == Lookup(table, key)
      ensures !read.Read? ==> order == old(order) && documents == old(documents) && uses == old(uses)
      ensures read.Read? ==>
                && uses == old(uses) + [key]
                && order == if key in old(order) then old(order) else LastOf(old(order) + [key], CACHE_SIZE)
    {
      if key !in table {
        return Missing;
      }
      if table[key].Garbled? {
        return Unreadable;
      }
      var definition := table[key].definition;
      if key !in documents {
        order := order + [key];
      }
      documents, uses := documents[key := definition], uses + [key];
      Evict(table);
      return Read(definition);
    }

    /** Least recent first, until the cache is within its bound. */
    method Evict(ghost table: Table)
      requires IsDistinct(order)
      requires forall key :: key in order <==> key in documents
      requires forall key | key in documents :: Lookup(table, key) == Read(documents[key])
      modifies this
      ensures Valid(table) && order == LastOf(old(order), CACHE_SIZE) && uses == old(uses)
    {
      while |order| > CACHE_SIZE
        invariant IsDistinct(order) && LastOf(order, CACHE_SIZE) == LastOf(old(order), CACHE_SIZE)
        invariant forall key :: key in order <==> key in documents
        invariant forall key | key in documents :: Lookup(table, key) == Read(documents[key])
        invariant uses == old(uses)
      {
        var oldest := order[0];
        DroppingTheOldest(order, CACHE_SIZE);
        documents := documents - {oldest};
        order := order[1..];
      }
    }

    /** `definition_for`: exactly the table's answer, from a cache that holds the
        512 documents used most recently and nothing that was not found. */
    method DefinitionFor(key: Key, table: Table) returns (read: DocRead)
      requires Valid(table) && IsRecent()
      modifies this
      ensures Valid(table) && IsRecent()
      ensures read == Lookup(table, key)
      ensures uses == (if read.Read? then old(uses) + [key] else old(uses))
      ensures !read.Read? ==> order == old(order) && documents == old(documents)
    {
      OneMoreUse(uses, order, key);
      WithoutIs(order, key);
      var cached := Hit(key, table);
      if cached.Some? {
        return Read(cached.value);
      }
      read := Fill(key, table);
    }
  }

  /** Versions are inserted, never changed or deleted. */
  predicate Extends(later: Table, table: Table) {
    forall key | key in table :: key in later && later[key] == table[key]
  }

  /** So nothing cached ever needs invalidating. */
  twostate lemma InsertsInvalidateNothing(cache: DefinitionCache, table: Table, later: Table)
    requires cache.Valid(table) && Extends(later, table)
    ensures cache.Valid(later)
  {
  }

  // ---- Any sequence of reads and inserts ----

  datatype Event = Asks(key: Key) | Inserts(key: Key, stored: Stored)

  function TableAfter(table: Table, events: seq<Event>): Table {
    if events == [] then table
    else
      var before := TableAfter(table, events[..|events| - 1]);
      match events[|events| - 1]
      case Asks(_) => before
      case Inserts(key, stored) => if key in before then before else before[key := stored]
  }

  /** What reading the table itself would have answered, event by event. */
  function Answers(table: Table, events: seq<Event>): seq<DocRead> {
    if events == [] then []
    else
      Answers(table, events[..|events| - 1])
      + match events[|events| - 1]
        case Asks(key) => [Lookup(TableAfter(table, events[..|events| - 1]), key)]
        case Inserts(_, _) => []
  }

  /** A process's whole life: the answers are those of direct lookup. */
  method Serve(table: Table, events: seq<Event>) returns (answers: seq<DocRead>)
    ensures answers == Answers(table, events)
  {
    var cache := new DefinitionCache();
    var now := table;
    answers := [];
    for i := 0 to |events|
      invariant cache.Valid(now) && cache.IsRecent() && fresh(cache)
      invariant now == TableAfter(table, events[..i]) && answers == Answers(table, events[..i])
    {
      assert events[..i + 1][..i] == events[..i];
      match events[i] {
        case Asks(key) =>
          var read := cache.DefinitionFor(key, now);
          answers := answers + [read];
        case Inserts(key, stored) =>
          if key !in now {
            now := now[key := stored];
          }
      }
    }
    assert events[..|events|] == events;
  }
}
