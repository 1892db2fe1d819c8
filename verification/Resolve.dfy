/** Who a set of handles belongs to (identity/resolve.py over the statements of
    identity/db/queries.py and the table of migration 049). */
module Resolve {
  import opened Wrappers
  import opened Claims

  // ---- The table ----

  datatype Column = Phone | Email | Igsid | ShopifyCustomerId | ExternalRef

  const HANDLE_COLUMNS: seq<Column> := [Phone, Email, Igsid, ShopifyCustomerId, ExternalRef]

  type Handle = value: string | value != "" witness "+911"

  /** The handles a payload carries, normalized; a missing column is NULL. */
  type Handles = map<Column, Handle>

  datatype Standing = Active | MergedAway(into: nat)

  /** A row: `replaced` is the history the table's trigger keeps. */
  datatype Customer = Customer(
    merchant: string, handles: Handles, firstSeen: nat, standing: Standing, replaced: seq<(Column, Handle)>)

  /** Customer rows by id; ids are compared as the numbers they spell. */
  type Rows = map<nat, Customer>

  /** One call, with the id and the instant the database would give a new row. */
  datatype Request = Request(merchant: string, handles: Handles, evidence: Evidence, freshId: nat, now: nat)

  /** An active row of this merchant carries the value in that column. */
  predicate Owns(rows: Rows, id: nat, merchant: string, column: Column, value: Handle) {
    && id in rows && rows[id].standing.Active? && rows[id].merchant == merchant
    && column in rows[id].handles && rows[id].handles[column] == value
  }

  // ---- What the code decides ----

  /** Which evidence may replace an occupied slot. */
  predicate Overwrites(evidence: Evidence) {
    evidence.Declared? || evidence.Observed?
  }

  predicate MayWrite(current: Handles, column: Column, value: Handle, evidence: Evidence) {
    column !in current || (current[column] != value && Overwrites(evidence))
  }

  function Writes(current: Handles, incoming: Handles, evidence: Evidence): Handles {
    map column | column in incoming && MayWrite(current, column, incoming[column], evidence) :: incoming[column]
  }

  /** Some handle of the payload is this row's. */
  predicate IsOwner(rows: Rows, id: nat, merchant: string, handles: Handles) {
    exists column | column in handles :: Owns(rows, id, merchant, column, handles[column])
  }

  function OwnersOf(rows: Rows, merchant: string, handles: Handles): set<nat> {
    set id | id in rows && IsOwner(rows, id, merchant, handles)
  }

  /** Seen first, or seen together and numbered lower. */
  predicate Older(rows: Rows, a: nat, b: nat)
    requires a in rows && b in rows
  {
    rows[a].firstSeen < rows[b].firstSeen || (rows[a].firstSeen == rows[b].firstSeen && a < b)
  }

  predicate IsOldest(rows: Rows, owners: set<nat>, id: nat)
    requires owners <= rows.Keys
  {
    id in owners && forall other | other in owners && other != id :: Older(rows, id, other)
  }

  /** What the trigger remembers of a write: every value it replaced. */
  function Replaced(current: Handles, writes: Handles, columns: seq<Column>): seq<(Column, Handle)> {
    if columns == [] then []
    else
      var column := columns[|columns| - 1];
      Replaced(current, writes, columns[..|columns| - 1])
      + if column in writes && column in current && writes[column] != current[column] then [(column, current[column])]
        else []
  }

  // ---- What the statements do ----

  /** The staple: every loser that is still active points at the survivor. */
  function Stapled(rows: Rows, losers: set<nat>, survivor: nat): Rows {
    map id | id in rows ::
      if id in losers && rows[id].standing.Active? then rows[id].(standing := MergedAway(survivor)) else rows[id]
  }

  function HandlesApplied(rows: Rows, id: nat, writes: Handles): Rows
    requires id in rows
  {
    rows[id := rows[id].(handles := rows[id].handles + writes,
                         replaced := rows[id].replaced + Replaced(rows[id].handles, writes, HANDLE_COLUMNS))]
  }

  /** The table after the owners' resolution into `survivor`. */
  function Resolved(rows: Rows, request: Request, owners: set<nat>, survivor: nat): Rows
    requires survivor in rows
  {
    HandlesApplied(
      Stapled(rows, owners - {survivor}, survivor), survivor,
      Writes(rows[survivor].handles, request.handles, request.evidence))
  }

  /** Probe, decide, apply: `id` and `after` are what one call returns and
      leaves. Nobody owns a handle: a row is made. Otherwise the oldest owner
      takes the others. */
  ghost predicate Resolves(rows: Rows, request: Request, id: nat, after: Rows) {
    var owners := OwnersOf(rows, request.merchant, request.handles);
    if owners == {} then
      && id == request.freshId
      && after == rows[id := Customer(request.merchant, request.handles, request.now, Active, [])]
    else
      IsOldest(rows, owners, id) && after == Resolved(rows, request, owners, id)
  }

  /** What `resolve` refuses before it reads anything. */
  predicate IsRefused(request: Request) {
    request.merchant == "" || request.evidence.Inferred? || request.handles == map[]
  }

  // ---- The invariants of the table ----

  /** The five partial unique indexes: one active customer per merchant, column
      and value. */
  ghost predicate HandlesAreUnique(rows: Rows) {
    forall a, b, merchant, column, value ::
      Owns(rows, a, merchant, column, value) && Owns(rows, b, merchant, column, value) ==> a == b
  }

  /** A merged row points at an older row of its own merchant. */
  ghost predicate PointsUp(rows: Rows, id: nat)
    requires id in rows
  {
    rows[id].standing.MergedAway? ==>
      var into := rows[id].standing.into;
      into in rows && Older(rows, into, id) && rows[into].merchant == rows[id].merchant
  }

  ghost predicate IsForest(rows: Rows) {
    forall id | id in rows :: PointsUp(rows, id)
  }

  /** Who a row stands for: the end of its chain of survivors. */
  ghost function StandsFor(rows: Rows, id: nat): (end: nat)
    requires IsForest(rows) && id in rows
    ensures end in rows && rows[end].standing.Active? && rows[end].merchant == rows[id].merchant
    ensures end == id || Older(rows, end, id)
    decreases if id in rows then rows[id].firstSeen else 0, id
  {
    assert PointsUp(rows, id);
    if rows[id].standing.Active? then id else StandsFor(rows, rows[id].standing.into)
  }

  ghost predicate Fits(rows: Rows) {
    HandlesAreUnique(rows) && IsForest(rows)
  }

  // ---- Choosing ----

  /** There is one oldest, so racing staplers choose the same survivor. */
  lemma OldestIsUnique(rows: Rows, owners: set<nat>, a: nat, b: nat)
    requires owners <= rows.Keys && IsOldest(rows, owners, a) && IsOldest(rows, owners, b)
    ensures a == b
  {
  }

  /** `pick_survivor`. */
  method PickSurvivor(rows: Rows, owners: set<nat>) returns (survivor: nat)
    requires owners != {} && owners <= rows.Keys
    ensures IsOldest(rows, owners, survivor)
  {
    survivor :| survivor in owners;
    var rest := owners - {survivor};
    while rest != {}
      invariant rest <= owners
      invariant IsOldest(rows, owners - rest, survivor)
    {
      var other :| other in rest;
      ghost var seen := owners - rest;
      assert owners - (rest - {other}) == seen + {other};
      if Older(rows, other, survivor) {
        survivor := other;
      }
      rest := rest - {other};
    }
    assert owners - rest == owners;
  }

  /** The policy table of handle changes. */
  method PlanHandleWrites(current: Handles, incoming: Handles, evidence: Evidence) returns (writes: Handles)
    ensures writes == Writes(current, incoming, evidence)
  {
    writes := map[];
    var columns := incoming.Keys;
    while columns != {}
      invariant columns <= incoming.Keys
      invariant writes.Keys == Writes(current, incoming, evidence).Keys - columns
      invariant forall column | column in writes :: writes[column] == incoming[column]
    {
      var column :| column in columns;
      columns := columns - {column};
      var value := incoming[column];
      if column !in current {
        writes := writes[column := value];
      } else if current[column] == value {
        continue;
      } else if evidence in {Declared, Observed} {
        writes := writes[column := value];
      }
    }
  }

  // ---- The call ----

  class Customers {
    var rows: Rows

    constructor ()
      ensures rows == map[]
    {
      rows := map[];
    }

    /** The probe of one partial unique index. */
    method Probe(merchant: string, column: Column, value: Handle) returns (found: Option<nat>)
      ensures found.Some? ==> Owns(rows, found.value, merchant, column, value)
      ensures found.None? ==> forall id :: !Owns(rows, id, merchant, column, value)
    {
      if id :| id in rows && Owns(rows, id, merchant, column, value) {
        return Some(id);
      }
      return None;
    }

    /** Every handle's owner, probed in the fixed order and deduplicated. */
    method GatherOwners(merchant: string, handles: Handles) returns (owners: set<nat>)
      requires HandlesAreUnique(rows)
      ensures owners == OwnersOf(rows, merchant, handles)
    {
      owners := {};
      for i := 0 to |HANDLE_COLUMNS|
        invariant forall id :: id in owners <==>
                    exists k | 0 <= k < i :: OwnsFrom(rows, id, merchant, handles, HANDLE_COLUMNS[k])
      {
        var column := HANDLE_COLUMNS[i];
        if column in handles {
          var found := Probe(merchant, column, handles[column]);
          if found.Some? {
            owners := owners + {found.value};
          }
        }
      }
      forall id ensures id in owners <==> id in OwnersOf(rows, merchant, handles) {
        EveryColumnIsProbed(rows, id, merchant, handles);
      }
    }

    /** The trigger fires, then the row is written. */
    method ApplyHandles(id: nat, writes: Handles)
      requires id in rows
      modifies this
      ensures rows == HandlesApplied(old(rows), id, writes)
    {
      var replaced: seq<(Column, Handle)> := [];
      var current := rows[id].handles;
      for i := 0 to |HANDLE_COLUMNS|
        invariant replaced == Replaced(current, writes, HANDLE_COLUMNS[..i])
      {
        var column := HANDLE_COLUMNS[i];
        assert HANDLE_COLUMNS[..i + 1][..i] == HANDLE_COLUMNS[..i];
        if column in writes && column in current && writes[column] != current[column] {
          replaced := replaced + [(column, current[column])];
        }
      }
      assert HANDLE_COLUMNS[..|HANDLE_COLUMNS|] == HANDLE_COLUMNS;
      rows := rows[id := rows[id].(handles := current + writes, replaced := rows[id].replaced + replaced)];
    }

    /** The losers, one statement each. */
    method MergeLosers(losers: set<nat>, survivor: nat)
      requires losers <= rows.Keys
      modifies this
      ensures rows == Stapled(old(rows), losers, survivor)
    {
      var rest := losers;
      while rest != {}
        invariant rest <= losers && rows.Keys == old(rows).Keys
        invariant rows == Stapled(old(rows), losers - rest, survivor)
      {
        var loser :| loser in rest;
        rest := rest - {loser};
        if rows[loser].standing.Active? {
          rows := rows[loser := rows[loser].(standing := MergedAway(survivor))];
        }
      }
      assert losers - rest == losers;
    }

    /** `resolve`: one transaction. The indexes and the merge forest survive it,
        and no insert or write it makes is refused by an index. */
    method Resolve(request: Request) returns (id: Option<nat>)
      requires Fits(rows) && request.freshId !in rows
      modifies this
      ensures id.None? <==> IsRefused(request)
      ensures id.None? ==> rows == old(rows)
      ensures id.Some? ==> Resolves(old(rows), request, id.value, rows)
      ensures Fits(rows)
    {
      if request.merchant == "" || request.evidence.Inferred? || request.handles == map[] {
        return None;
      }
      var owners := GatherOwners(request.merchant, request.handles);
      if owners == {} {
        rows := rows[request.freshId := Customer(request.merchant, request.handles, request.now, Active, [])];
        ResolvingKeepsTheTable(old(rows), request, request.freshId, rows);
        return Some(request.freshId);
      }
      var survivor := PickSurvivor(rows, owners);
      var writes := PlanHandleWrites(rows[survivor].handles, request.handles, request.evidence);
      MergeLosers(owners - {survivor}, survivor);
      ApplyHandles(survivor, writes);
      ResolvingKeepsTheTable(old(rows), request, survivor, rows);
      return Some(survivor);
    }
  }

  predicate OwnsFrom(rows: Rows, id: nat, merchant: string, handles: Handles, column: Column) {
    column in handles && Owns(rows, id, merchant, column, handles[column])
  }

  lemma EveryColumnIsProbed(rows: Rows, id: nat, merchant: string, handles: Handles)
    ensures IsOwner(rows, id, merchant, handles) <==>
            exists k | 0 <= k < |HANDLE_COLUMNS| :: OwnsFrom(rows, id, merchant, handles, HANDLE_COLUMNS[k])
  {
    if IsOwner(rows, id, merchant, handles) {
      var column :| column in handles && Owns(rows, id, merchant, column, handles[column]);
      var k := match column
        case Phone => 0 case Email => 1 case Igsid => 2 case ShopifyCustomerId => 3 case ExternalRef => 4;
      assert HANDLE_COLUMNS[k] == column;
    }
  }

  // ---- One call keeps the table ----

  /** Who owns what afterwards: the survivor what it wrote and what it kept,
      everyone else what they had, unless they were stapled away. */
  lemma OwnersAfter(
    rows: Rows, request: Request, id: nat, after: Rows, x: nat, merchant: string, column: Column, value: Handle)
    requires OwnersOf(rows, request.merchant, request.handles) != {} && Resolves(rows, request, id, after)
    ensures Owns(after, x, merchant, column, value) <==>
            if x == id then
              && merchant == request.merchant
              && if column in Writes(rows[id].handles, request.handles, request.evidence)
                 then request.handles[column] == value
                 else Owns(rows, id, merchant, column, value)
            else
              x !in OwnersOf(rows, request.merchant, request.handles) && Owns(rows, x, merchant, column, value)
  {
    var owners := OwnersOf(rows, request.merchant, request.handles);
    assert IsOwner(rows, id, request.merchant, request.handles);
  }

  lemma ResolvingKeepsHandlesUnique(rows: Rows, request: Request, id: nat, after: Rows)
    requires HandlesAreUnique(rows) && request.freshId !in rows && Resolves(rows, request, id, after)
    ensures HandlesAreUnique(after)
  {
    var owners := OwnersOf(rows, request.merchant, request.handles);
    forall a: nat, b: nat, merchant, column, value |
      Owns(after, a, merchant, column, value) && Owns(after, b, merchant, column, value)
      ensures a == b
    {
      if owners == {} {
        if a == id || b == id {
          NewHandlesAreNobodys(rows, request, merchant, column, value);
        }
        assert a != id ==> Owns(rows, a, merchant, column, value);
        assert b != id ==> Owns(rows, b, merchant, column, value);
      } else {
        OwnersAfter(rows, request, id, after, a, merchant, column, value);
        OwnersAfter(rows, request, id, after, b, merchant, column, value);
      }
    }
  }

  /** Nobody owns a handle of the payload: so the insert breaks no index. */
  lemma NewHandlesAreNobodys(rows: Rows, request: Request, merchant: string, column: Column, value: Handle)
    requires OwnersOf(rows, request.merchant, request.handles) == {}
    requires merchant == request.merchant && column in request.handles && request.handles[column] == value
    ensures forall id :: !Owns(rows, id, merchant, column, value)
  {
    forall id ensures !Owns(rows, id, merchant, column, value) {
      assert id !in OwnersOf(rows, request.merchant, request.handles);
    }
  }

  lemma ResolvingKeepsTheForest(rows: Rows, request: Request, id: nat, after: Rows)
    requires IsForest(rows) && request.freshId !in rows && Resolves(rows, request, id, after)
    ensures IsForest(after)
  {
    forall x | x in after ensures PointsUp(after, x) {
      if x in rows {
        assert PointsUp(rows, x);
      }
    }
  }

  lemma ResolvingKeepsTheTable(rows: Rows, request: Request, id: nat, after: Rows)
    requires Fits(rows) && request.freshId !in rows && Resolves(rows, request, id, after)
    ensures Fits(after)
  {
    ResolvingKeepsHandlesUnique(rows, request, id, after);
    ResolvingKeepsTheForest(rows, request, id, after);
  }
}
