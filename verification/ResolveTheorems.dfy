/** What `resolve` promises over any sequence of calls. */
module ResolveTheorems {
  import opened Wrappers
  import opened Claims
  import opened Resolve

  // ---- Histories ----

  datatype Served = Served(request: Request, id: nat)

  /** Calls served one after another, from `tables[0]` on. */
  ghost predicate IsHistory(tables: seq<Rows>, served: seq<Served>) {
    && |tables| == |served| + 1
    && forall k | 0 <= k < |served| :: IsServed(tables[k], served[k], tables[k + 1])
  }

  ghost predicate IsServed(rows: Rows, call: Served, after: Rows) {
    && !IsRefused(call.request) && call.request.freshId !in rows
    && Resolves(rows, call.request, call.id, after)
  }

  /** One active customer per merchant, column and value, and a forest of merge
      links, after any calls. */
  lemma {:induction false} HistoriesFit(tables: seq<Rows>, served: seq<Served>, k: nat)
    requires IsHistory(tables, served) && Fits(tables[0]) && k < |tables|
    ensures Fits(tables[k])
  {
    if k > 0 {
      HistoriesFit(tables, served, k - 1);
      assert IsServed(tables[k - 1], served[k - 1], tables[k - 1 + 1]);
      ResolvingKeepsTheTable(tables[k - 1], served[k - 1].request, served[k - 1].id, tables[k]);
    }
  }

  lemma ANewTableFits()
    ensures Fits(map[])
  {
  }

  /** So every table the calls ever built, from none, satisfies both. */
  lemma HistoriesFromNothingFit(tables: seq<Rows>, served: seq<Served>, k: nat)
    requires IsHistory(tables, served) && tables[0] == map[] && k < |tables|
    ensures Fits(tables[k])
  {
    ANewTableFits();
    HistoriesFit(tables, served, k);
  }

  // ---- What is written ----

  /** What a column of the answer's row holds afterwards: what the payload brings, if
      it was empty or the evidence is strong enough to replace; else what it held. */
  function HandleAfter(before: Handles, request: Request, column: Column): Option<Handle> {
    if column in request.handles && (column !in before || request.evidence in {Declared, Observed}) then
      Some(request.handles[column])
    else if column in before then Some(before[column])
    else None
  }

  predicate Holds(handles: Handles, column: Column, value: Option<Handle>) {
    if column in handles then value == Some(handles[column]) else value == None
  }

  /** The answer's row: its handles by the evidence; every value that gave way, and
      no other, remembered; and nothing else of it changed. A new row holds the
      payload and nothing more. A merged row only points at the answer; every other
      row is as it was. */
  lemma WhatResolvingWrites(rows: Rows, request: Request, id: nat, after: Rows, x: nat, column: Column, value: Handle)
    requires Resolves(rows, request, id, after) && request.freshId !in rows && x in after
    ensures var owners := OwnersOf(rows, request.merchant, request.handles);
            if x !in rows then
              x == id && after[x] == Customer(request.merchant, request.handles, request.now, Active, [])
            else if x == id then
              var before := rows[id];
              && Holds(after[id].handles, column, HandleAfter(before.handles, request, column))
              && after[id] == before.(handles := after[id].handles, replaced := after[id].replaced)
              && ((column, value) in after[id].replaced <==>
                    || (column, value) in before.replaced
                    || (column in before.handles && before.handles[column] == value
                        && HandleAfter(before.handles, request, column) != Some(value)))
            else if x in owners then after[x] == rows[x].(standing := MergedAway(id))
            else after[x] == rows[x]
  {
    var owners := OwnersOf(rows, request.merchant, request.handles);
    if owners != {} {
      var writes := Writes(rows[id].handles, request.handles, request.evidence);
      RememberedIff(rows[id].handles, writes, HANDLE_COLUMNS, column, value);
      EveryColumnIsListed(column);
    }
  }

  lemma {:induction false} RememberedIff(
    current: Handles, writes: Handles, columns: seq<Column>, column: Column, value: Handle)
    ensures (column, value) in Replaced(current, writes, columns) <==>
            column in columns && column in writes && column in current && current[column] == value
            && writes[column] != value
  {
    if columns != [] {
      RememberedIff(current, writes, columns[..|columns| - 1], column, value);
      assert columns == columns[..|columns| - 1] + [columns[|columns| - 1]];
    }
  }

  // ---- Who stands for whom ----

  /** A staple unites exactly the owners: every row that stood for one of them
      now stands for the survivor, and every other row for whom it did. */
  lemma {:induction false} StaplesUniteTheOwners(rows: Rows, request: Request, id: nat, after: Rows, x: nat)
    requires IsForest(rows) && IsForest(after) && x in rows && request.freshId !in rows
    requires Resolves(rows, request, id, after)
    ensures x in after
    ensures StandsFor(after, x)
            == if StandsFor(rows, x) in OwnersOf(rows, request.merchant, request.handles) then id
               else StandsFor(rows, x)
    decreases rows[x].firstSeen, x
  {
    assert PointsUp(rows, x) && PointsUp(after, x);
    var owners := OwnersOf(rows, request.merchant, request.handles);
    if rows[x].standing.MergedAway? {
      StaplesUniteTheOwners(rows, request, id, after, rows[x].standing.into);
    }
  }

  /** The call returns the customer every owner now stands for. */
  lemma TheAnswerIsActive(rows: Rows, request: Request, id: nat, after: Rows)
    requires Fits(rows) && request.freshId !in rows && Resolves(rows, request, id, after)
    ensures Fits(after) && id in after && after[id].standing.Active? && after[id].merchant == request.merchant
    ensures StandsFor(after, id) == id
  {
    ResolvingKeepsTheTable(rows, request, id, after);
    var owners := OwnersOf(rows, request.merchant, request.handles);
    if owners != {} {
      assert id in owners;
    }
  }

  /** Two rows found to be one person stay one person, through any later calls. */
  lemma {:induction false} OnceTheSameAlwaysTheSame(tables: seq<Rows>, served: seq<Served>, a: nat, b: nat, k: nat)
    requires IsHistory(tables, served) && Fits(tables[0]) && k < |tables|
    requires a in tables[0] && b in tables[0] && StandsFor(tables[0], a) == StandsFor(tables[0], b)
    ensures Fits(tables[k]) && a in tables[k] && b in tables[k]
    ensures StandsFor(tables[k], a) == StandsFor(tables[k], b)
  {
    HistoriesFit(tables, served, k);
    if k > 0 {
      OnceTheSameAlwaysTheSame(tables, served, a, b, k - 1);
      var call := served[k - 1];
      assert IsServed(tables[k - 1], call, tables[k - 1 + 1]);
      StaplesUniteTheOwners(tables[k - 1], call.request, call.id, tables[k], a);
      StaplesUniteTheOwners(tables[k - 1], call.request, call.id, tables[k], b);
    }
  }

  /** The same table and the same payload: the same answer and the same table. */
  lemma ResolvingIsDeterministic(
    rows: Rows, request: Request, id: nat, after: Rows, otherId: nat, otherAfter: Rows)
    requires Resolves(rows, request, id, after) && Resolves(rows, request, otherId, otherAfter)
    ensures id == otherId && after == otherAfter
  {
    var owners := OwnersOf(rows, request.merchant, request.handles);
    if owners != {} {
      OldestIsUnique(rows, owners, id, otherId);
    }
  }

  // ---- Repeating a call ----

  /** Afterwards the answer is the only owner of anything in the payload. */
  lemma OnlyTheAnswerOwns(rows: Rows, request: Request, id: nat, after: Rows)
    requires Fits(rows) && request.freshId !in rows && !IsRefused(request) && Resolves(rows, request, id, after)
    ensures OwnersOf(after, request.merchant, request.handles) == {id}
  {
    var owners := OwnersOf(rows, request.merchant, request.handles);
    forall x ensures x in OwnersOf(after, request.merchant, request.handles) <==> x == id {
      if owners == {} {
        OnlyTheNewRowOwns(rows, request, after, x);
      } else {
        OnlyTheSurvivorOwns(rows, request, id, after, x);
      }
    }
  }

  lemma OnlyTheNewRowOwns(rows: Rows, request: Request, after: Rows, x: int)
    requires request.freshId !in rows && !IsRefused(request)
    requires OwnersOf(rows, request.merchant, request.handles) == {}
    requires Resolves(rows, request, request.freshId, after)
    ensures x in OwnersOf(after, request.merchant, request.handles) <==> x == request.freshId
  {
    if x == request.freshId {
      var column :| column in request.handles;
      assert Owns(after, x, request.merchant, column, request.handles[column]);
    } else if x in after && IsOwner(after, x, request.merchant, request.handles) {
      var column :| column in request.handles && Owns(after, x, request.merchant, column, request.handles[column]);
      NewHandlesAreNobodys(rows, request, request.merchant, column, request.handles[column]);
      assert Owns(rows, x, request.merchant, column, request.handles[column]);
      assert false;
    }
  }

  lemma OnlyTheSurvivorOwns(rows: Rows, request: Request, id: nat, after: Rows, x: int)
    requires Fits(rows) && OwnersOf(rows, request.merchant, request.handles) != {}
    requires Resolves(rows, request, id, after)
    ensures x in OwnersOf(after, request.merchant, request.handles) <==> x == id
  {
    var owners := OwnersOf(rows, request.merchant, request.handles);
    if x == id {
      assert IsOwner(rows, id, request.merchant, request.handles);
      var column :| column in request.handles && Owns(rows, id, request.merchant, column, request.handles[column]);
      OwnersAfter(rows, request, id, after, id, request.merchant, column, request.handles[column]);
    } else if x in after && IsOwner(after, x, request.merchant, request.handles) {
      var column :| column in request.handles && Owns(after, x, request.merchant, column, request.handles[column]);
      OwnersAfter(rows, request, id, after, x, request.merchant, column, request.handles[column]);
      assert IsOwner(rows, x, request.merchant, request.handles);
      assert false;
    }
  }

  lemma {:induction false} NothingWrittenNothingReplaced(current: Handles, columns: seq<Column>)
    ensures Replaced(current, map[], columns) == []
  {
    if columns != [] {
      NothingWrittenNothingReplaced(current, columns[..|columns| - 1]);
    }
  }

  /** With one owner, a call can only write that owner's handles. */
  lemma OneOwnerNoStaple(rows: Rows, request: Request, owner: nat, id: nat, after: Rows)
    requires OwnersOf(rows, request.merchant, request.handles) == {owner} && Resolves(rows, request, id, after)
    ensures id == owner && id in rows
    ensures after == HandlesApplied(rows, id, Writes(rows[id].handles, request.handles, request.evidence))
    ensures Writes(rows[id].handles, request.handles, request.evidence) == map[] ==> after == rows
  {
    assert id in {owner};
    assert {owner} - {id} == {};
    assert Stapled(rows, {}, id) == rows;
    WritingNothing(rows, id);
  }

  lemma WritingNothing(rows: Rows, id: nat)
    requires id in rows
    ensures HandlesApplied(rows, id, map[]) == rows
  {
    NothingWrittenNothingReplaced(rows[id].handles, HANDLE_COLUMNS);
    assert rows[id].handles + map[] == rows[id].handles;
    assert rows[id].replaced + [] == rows[id].replaced;
    assert rows[id := rows[id]] == rows;
  }

  /** The answer's slots hold all the payload may put there. */
  lemma NothingLeftToWrite(rows: Rows, request: Request, id: nat, after: Rows, evidence: Evidence)
    requires Resolves(rows, request, id, after) && id in after
    requires evidence == request.evidence || Overwrites(request.evidence)
    ensures Writes(after[id].handles, request.handles, evidence) == map[]
  {
    forall column | column in request.handles
      ensures !MayWrite(after[id].handles, column, request.handles[column], evidence)
    {
    }
  }

  /** Repeating the payload, whatever its evidence, finds the same customer and
      merges nobody; and with the same evidence, or after an overwriting one, it
      writes nothing at all. So a caller that loses the insert race, and probes
      again, converges on the winner's row. */
  lemma RepeatingFindsTheSameCustomer(
    rows: Rows, request: Request, id: nat, after: Rows, again: Request, otherId: nat, later: Rows)
    requires Fits(rows) && request.freshId !in rows && !IsRefused(request) && Resolves(rows, request, id, after)
    requires again.merchant == request.merchant && again.handles == request.handles
    requires Resolves(after, again, otherId, later)
    ensures otherId == id
    ensures forall x | x in after :: x in later && later[x].standing == after[x].standing
    ensures again.evidence == request.evidence || Overwrites(request.evidence) ==> later == after
  {
    OnlyTheAnswerOwns(rows, request, id, after);
    OneOwnerNoStaple(after, again, id, otherId, later);
    if again.evidence == request.evidence || Overwrites(request.evidence) {
      NothingLeftToWrite(rows, request, id, after, again.evidence);
    }
  }

  /** The insert race. A caller whose probes found nobody inserts into whatever
      table it then meets: the indexes let the row in exactly when probing that
      table would still find nobody. So an insert that lands is the one the call
      would make on the table it lands on, and one that is refused leaves the
      caller to probe again and meet the winner. */
  lemma TheIndexesRefereeTheInsert(met: Rows, request: Request)
    requires HandlesAreUnique(met) && request.freshId !in met
    ensures var row := Customer(request.merchant, request.handles, request.now, Active, []);
            HandlesAreUnique(met[request.freshId := row])
            <==> OwnersOf(met, request.merchant, request.handles) == {}
  {
    var id := request.freshId;
    var after := met[id := Customer(request.merchant, request.handles, request.now, Active, [])];
    var owners := OwnersOf(met, request.merchant, request.handles);
    if owners == {} {
      ResolvingKeepsHandlesUnique(met, request, id, after);
    } else {
      var owner :| owner in owners;
      var column :| column in request.handles
                    && Owns(met, owner, request.merchant, column, request.handles[column]);
      assert Owns(after, owner, request.merchant, column, request.handles[column]);
      assert Owns(after, id, request.merchant, column, request.handles[column]);
    }
  }

  // ---- What a staple does to the losers' handles ----

  /** A loser's handle still finds somebody exactly when the payload carried it
      and the survivor's slot was free or could be overwritten. (The staple's
      own account says every freed handle attaches to the survivor.) */
  lemma LosersHandleLivesOnIff(
    rows: Rows, request: Request, id: nat, after: Rows, loser: nat, column: Column, value: Handle)
    requires Fits(rows) && Resolves(rows, request, id, after)
    requires loser in OwnersOf(rows, request.merchant, request.handles) && loser != id
    requires Owns(rows, loser, request.merchant, column, value)
    ensures (exists x :: Owns(after, x, request.merchant, column, value)) <==>
            && column in request.handles && request.handles[column] == value
            && (column !in rows[id].handles || Overwrites(request.evidence))
    ensures forall x | Owns(after, x, request.merchant, column, value) :: x == id
  {
    forall x: nat ensures Owns(after, x, request.merchant, column, value) ==> x == id {
      OwnersAfter(rows, request, id, after, x, request.merchant, column, value);
    }
    OwnersAfter(rows, request, id, after, id, request.merchant, column, value);
    assert !Owns(rows, id, request.merchant, column, value);
    assert Owns(after, id, request.merchant, column, value) <==>
           column in Writes(rows[id].handles, request.handles, request.evidence) && request.handles[column] == value;
  }

  /** A handle nobody owns makes a new customer of whoever brings it alone. */
  lemma AStrandedHandleMakesANewCustomer(
    rows: Rows, merchant: string, column: Column, value: Handle, evidence: Evidence, freshId: nat, now: nat,
    id: nat, after: Rows)
    requires forall x :: !Owns(rows, x, merchant, column, value)
    requires Resolves(rows, Request(merchant, map[column := value], evidence, freshId, now), id, after)
    ensures id == freshId
  {
    var handles: Handles := map[column := value];
    forall x ensures x !in OwnersOf(rows, merchant, handles) {
      assert x in rows ==> !Owns(rows, x, merchant, column, handles[column]);
    }
  }

  /** Two rows of one person, and the payload that proves it. */
  function TornRows(): Rows {
    map[1 := Customer("m", map[Phone := "+911"], 10, Active, []),
        2 := Customer("m", map[Email := "a@b", Igsid := "ig"], 20, Active, [])]
  }

  function TornRequest(): Request {
    Request("m", map[Phone := "+911", Email := "a@b"], Observed, 3, 30)
  }

  lemma TornOwners()
    ensures OwnersOf(TornRows(), "m", TornRequest().handles) == {1, 2}
    ensures IsOldest(TornRows(), {1, 2}, 1)
  {
    var rows, handles := TornRows(), TornRequest().handles;
    assert Owns(rows, 1, "m", Phone, handles[Phone]) && Owns(rows, 2, "m", Email, handles[Email]);
    assert IsOwner(rows, 1, "m", handles) && IsOwner(rows, 2, "m", handles);
  }

  lemma TornTableFits()
    ensures Fits(TornRows())
  {
    forall a: nat, b: nat, merchant, column, value |
      Owns(TornRows(), a, merchant, column, value) && Owns(TornRows(), b, merchant, column, value)
      ensures a == b
    {
      assert a in {1, 2} && b in {1, 2};
    }
  }

  /** So one person can be split again: phone and email are stapled, and the
      instagram id the younger row had carried is nobody's afterwards. */
  lemma AStapleCanStrandAHandle() returns (after: Rows)
    ensures Fits(TornRows()) && !IsRefused(TornRequest()) && Resolves(TornRows(), TornRequest(), 1, after)
    ensures Owns(TornRows(), 2, "m", Igsid, "ig")
    ensures forall x :: !Owns(after, x, "m", Igsid, "ig")
  {
    TornTableFits();
    TornOwners();
    after := Resolved(TornRows(), TornRequest(), {1, 2}, 1);
    LosersHandleLivesOnIff(TornRows(), TornRequest(), 1, after, 2, Igsid, "ig");
  }

  // ---- Nothing melts ----

  /** The row holds the value, or its history does. */
  ghost predicate Remembers(row: Customer, column: Column, value: Handle) {
    (column in row.handles && row.handles[column] == value) || (column, value) in row.replaced
  }

  lemma {:induction false} ReplacedRemembers(current: Handles, writes: Handles, columns: seq<Column>, column: Column)
    ensures (exists value :: (column, value) in Replaced(current, writes, columns)) <==>
            column in columns && column in writes && column in current && writes[column] != current[column]
    ensures forall value | (column, value) in Replaced(current, writes, columns) ::
              column in current && value == current[column]
  {
    if columns != [] {
      ReplacedRemembers(current, writes, columns[..|columns| - 1], column);
      assert columns == columns[..|columns| - 1] + [columns[|columns| - 1]];
      var last := columns[|columns| - 1];
      if last == column && column in writes && column in current && writes[column] != current[column] {
        assert (column, current[column]) in Replaced(current, writes, columns);
      }
    }
  }

  lemma EveryColumnIsListed(column: Column)
    ensures column in HANDLE_COLUMNS
  {
    assert HANDLE_COLUMNS[0] == Phone && HANDLE_COLUMNS[1] == Email && HANDLE_COLUMNS[2] == Igsid
           && HANDLE_COLUMNS[3] == ShopifyCustomerId && HANDLE_COLUMNS[4] == ExternalRef;
  }

  /** A staple or an overwrite never loses a handle: whatever a row held it
      still remembers; and rows of other merchants are not touched at all. */
  lemma StapleNeverMelt(rows: Rows, request: Request, id: nat, after: Rows, x: nat)
    requires request.freshId !in rows && Resolves(rows, request, id, after) && x in rows
    ensures x in after && after[x].merchant == rows[x].merchant && after[x].firstSeen == rows[x].firstSeen
    ensures forall column, value | Remembers(rows[x], column, value) :: Remembers(after[x], column, value)
    ensures rows[x].merchant != request.merchant ==> after[x] == rows[x]
  {
    var owners := OwnersOf(rows, request.merchant, request.handles);
    if owners != {} && x == id {
      var writes := Writes(rows[id].handles, request.handles, request.evidence);
      forall column, value | Remembers(rows[x], column, value) ensures Remembers(after[x], column, value) {
        ReplacedRemembers(rows[id].handles, writes, HANDLE_COLUMNS, column);
        EveryColumnIsListed(column);
      }
    }
  }

  /** ... over any calls. */
  lemma {:induction false} HistoriesNeverMelt(
    tables: seq<Rows>, served: seq<Served>, x: nat, column: Column, value: Handle, k: nat)
    requires IsHistory(tables, served) && k < |tables| && x in tables[0] && Remembers(tables[0][x], column, value)
    ensures x in tables[k] && Remembers(tables[k][x], column, value)
  {
    if k > 0 {
      HistoriesNeverMelt(tables, served, x, column, value, k - 1);
      assert IsServed(tables[k - 1], served[k - 1], tables[k - 1 + 1]);
      StapleNeverMelt(tables[k - 1], served[k - 1].request, served[k - 1].id, tables[k], x);
    }
  }
}
