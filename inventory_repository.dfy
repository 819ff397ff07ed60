/**
 * The stock ledger: one row of (available, reserved) counters per item,
 * changed only by two guarded updates. Each update is a single atomic
 * statement: it checks its guard and moves the units, or matches no row
 * and changes nothing.
 */
module InventoryRepo {
  import opened Wrappers
  import opened Domain
  import Strings

  /** The errors the repository returns; `DbError` stands for any failure of the database call itself. */
  datatype RepoError = InsufficientStock | InsufficientReserved | DbError

  /** The items table, keyed by item id. */
  type Ledger = map<string, StockLevel>

  /** Every row is stored under its own item id. */
  ghost predicate WellKeyed(m: Ledger) {
    forall id :: id in m ==> m[id].itemId == id
  }

  /** No counter of any row is negative. */
  ghost predicate NonNegative(m: Ledger) {
    forall id :: id in m ==> m[id].available >= 0 && m[id].reserved >= 0
  }

  /** The units an item row accounts for, whether free or held. */
  function Total(l: StockLevel): (units: int) {
    l.available + l.reserved
  }

  /** Moves `d` units of a row from available to reserved (a negative `d` moves them back). */
  function Shift(l: StockLevel, d: int): StockLevel {
    l.(available := l.available - d, reserved := l.reserved + d)
  }

  /** The ledger after an update, and the error the update returned (None for success). */
  datatype Update = Update(ledger: Ledger, err: Option<RepoError>)

  /** Row `id` of `m2` is row `id` of `m1` shifted by `d`; every other row is the same. */
  ghost predicate MovedOnly(m1: Ledger, m2: Ledger, id: string, d: int) {
    && id in m1
    && m2.Keys == m1.Keys
    && m2[id] == Shift(m1[id], d)
    && forall other :: other in m1 && other != id ==> m2[other] == m1[other]
  }

  /**
   * `UPDATE items SET available = available - q, reserved = reserved + q
   *  WHERE item_id = id AND available >= q`: a row that does not exist and a
   * row without enough available units are the same "no row matched" case.
   */
  function ReserveUpdate(m: Ledger, id: string, q: int, dbFails: bool): (u: Update)
    ensures u.err.None? <==> !dbFails && id in m && m[id].available >= q
    ensures u.err.Some? ==> u.ledger == m
    ensures u.err.Some? && !dbFails ==> u.err == Some(InsufficientStock)
    ensures dbFails ==> u.err == Some(DbError)
    ensures u.err.None? ==> MovedOnly(m, u.ledger, id, q)
  {
    if dbFails then Update(m, Some(DbError))
    else if id in m && m[id].available >= q then Update(m[id := Shift(m[id], q)], None)
    else Update(m, Some(InsufficientStock))
  }

  /**
   * `UPDATE items SET available = available + q, reserved = reserved - q
   *  WHERE item_id = id AND reserved >= q`.
   */
  function ReleaseUpdate(m: Ledger, id: string, q: int, dbFails: bool): (u: Update)
    ensures u.err.None? <==> !dbFails && id in m && m[id].reserved >= q
    ensures u.err.Some? ==> u.ledger == m
    ensures u.err.Some? && !dbFails ==> u.err == Some(InsufficientReserved)
    ensures dbFails ==> u.err == Some(DbError)
    ensures u.err.None? ==> MovedOnly(m, u.ledger, id, -q)
  {
    if dbFails then Update(m, Some(DbError))
    else if id in m && m[id].reserved >= q then Update(m[id := Shift(m[id], -q)], None)
    else Update(m, Some(InsufficientReserved))
  }

  /** The item ids of a list of rows, in row order. */
  function ItemIds(rows: seq<StockLevel>): (ids: seq<string>)
    ensures |ids| == |rows| && forall i :: 0 <= i < |rows| ==> ids[i] == rows[i].itemId
  {
    seq(|rows|, i requires 0 <= i < |rows| => rows[i].itemId)
  }

  /** Each row is the table's row for its id. */
  ghost predicate RowsOf(m: Ledger, rows: seq<StockLevel>) {
    forall i :: 0 <= i < |rows| ==> rows[i].itemId in m && m[rows[i].itemId] == rows[i]
  }

  /** Item ids strictly increase along the rows. */
  ghost predicate SortedById(rows: seq<StockLevel>) {
    forall i, j :: 0 <= i < j < |rows| ==> Strings.LexLess(rows[i].itemId, rows[j].itemId)
  }

  /**
   * Appending the least id still to come keeps the rows sorted, and every
   * row stays below the ids that remain.
   */
  lemma ExtendSorted(rows: seq<StockLevel>, rest: set<string>, row: StockLevel)
    requires SortedById(rows)
    requires forall i, o :: 0 <= i < |rows| && o in rest ==> Strings.LexLess(rows[i].itemId, o)
    requires row.itemId in rest
    requires forall o :: o in rest && o != row.itemId ==> Strings.LexLess(row.itemId, o)
    ensures SortedById(rows + [row])
    ensures forall i, o :: 0 <= i < |rows| + 1 && o in rest - {row.itemId} ==> Strings.LexLess((rows + [row])[i].itemId, o)
  {
    var grown := rows + [row];
    forall i, j | 0 <= i < j < |grown|
      ensures Strings.LexLess(grown[i].itemId, grown[j].itemId)
    {
      if j < |rows| {
        assert grown[i] == rows[i] && grown[j] == rows[j];
      } else {
        assert grown[i] == rows[i] && grown[j] == row;
      }
    }
    forall i, o | 0 <= i < |grown| && o in rest - {row.itemId}
      ensures Strings.LexLess(grown[i].itemId, o)
    {
      if i < |rows| {
        assert grown[i] == rows[i];
      }
    }
  }

  class InventoryRepository {
    var items: Ledger

    ghost predicate Valid()
      reads this
    {
      WellKeyed(items)
    }

    /** A table filled by provisioning outside the ledger. */
    constructor (initial: Ledger)
      requires WellKeyed(initial)
      ensures Valid() && items == initial
    {
      items := initial;
    }

    /** Every row, in `item_id` order; no rows gives a nil list. */
    method ListAll(dbFails: bool) returns (r: Result<Slice<StockLevel>, RepoError>)
      requires Valid()
      ensures dbFails <==> r.Failure?
      ensures r.Failure? ==> r.error == DbError
      ensures r.Success? ==> (r.value.Nil? <==> items == map[])
      ensures r.Success? ==> RowsOf(items, r.value.Elems()) && SortedById(r.value.Elems())
      ensures r.Success? ==> forall id :: id in items ==> id in ItemIds(r.value.Elems())
    {
      if dbFails {
        return Failure(DbError);
      }
      var rows := OrderedRows();
      if rows == [] {
        return Success(Nil);
      }
      return Success(Made(rows));
    }

    /**
     * The rows as the query hands them over, in ascending item_id order: each
     * step takes the least id not yet returned and appends its row.
     */
    method OrderedRows() returns (rows: seq<StockLevel>)
      requires Valid()
      ensures rows == [] <==> items == map[]
      ensures RowsOf(items, rows) && SortedById(rows)
      ensures forall id :: id in items ==> id in ItemIds(rows)
    {
      var rest := items.Keys;
      rows := [];
      while rest != {}
        invariant rest <= items.Keys
        invariant rows == [] <==> rest == items.Keys
        invariant RowsOf(items, rows) && SortedById(rows)
        invariant forall i :: 0 <= i < |rows| ==> rows[i].itemId !in rest
        invariant forall id :: id in items && id !in rest ==> id in ItemIds(rows)
        invariant forall i, id :: 0 <= i < |rows| && id in rest ==> Strings.LexLess(rows[i].itemId, id)
        decreases |rest|
      {
        Strings.LexMinExists(rest);
        var id :| id in rest && forall o :: o in rest && o != id ==> Strings.LexLess(id, o);
        var row := items[id];
        assert row.itemId == id;
        ExtendSorted(rows, rest, row);
        assert ItemIds(rows + [row]) == ItemIds(rows) + [id];
        rows := rows + [row];
        rest := rest - {id};
      }
    }

    /** The row of `itemId`, or None without an error when there is no such row. */
    method GetStock(itemId: string, dbFails: bool) returns (r: Result<Option<StockLevel>, RepoError>)
      requires Valid()
      ensures dbFails <==> r.Failure?
      ensures r.Failure? ==> r.error == DbError
      ensures r.Success? ==> (r.value.None? <==> itemId !in items)
      ensures r.Success? && r.value.Some? ==> r.value.value == items[itemId] && r.value.value.itemId == itemId
    {
      if dbFails {
        return Failure(DbError);
      }
      if itemId !in items {
        return Success(None);
      }
      return Success(Some(items[itemId]));
    }

    /** The guarded reserve, as one atomic step. */
    method Reserve(itemId: string, quantity: int, dbFails: bool) returns (err: Option<RepoError>)
      requires Valid()
      modifies this
      ensures Valid()
      ensures Update(items, err) == ReserveUpdate(old(items), itemId, quantity, dbFails)
    {
      if dbFails {
        return Some(DbError);
      }
      var rowsAffected := if itemId in items && items[itemId].available >= quantity then 1 else 0;
      if rowsAffected == 0 {
        return Some(InsufficientStock);
      }
      items := items[itemId := Shift(items[itemId], quantity)];
      return None;
    }

    /** The guarded release, as one atomic step. */
    method Release(itemId: string, quantity: int, dbFails: bool) returns (err: Option<RepoError>)
      requires Valid()
      modifies this
      ensures Valid()
      ensures Update(items, err) == ReleaseUpdate(old(items), itemId, quantity, dbFails)
    {
      if dbFails {
        return Some(DbError);
      }
      var rowsAffected := if itemId in items && items[itemId].reserved >= quantity then 1 else 0;
      if rowsAffected == 0 {
        return Some(InsufficientReserved);
      }
      items := items[itemId := Shift(items[itemId], -quantity)];
      return None;
    }
  }

  /** One atomic ledger statement, as issued by any caller. */
  datatype LedgerOp = ReserveOp(id: string, q: int) | ReleaseOp(id: string, q: int)

  function Step(m: Ledger, op: LedgerOp): Ledger {
    match op
    case ReserveOp(id, q) => ReserveUpdate(m, id, q, false).ledger
    case ReleaseOp(id, q) => ReleaseUpdate(m, id, q, false).ledger
  }

  /** Any interleaving of concurrent callers, serialized by the database into one sequence. */
  function ApplyOps(m: Ledger, ops: seq<LedgerOp>): Ledger
    decreases |ops|
  {
    if ops == [] then m else ApplyOps(Step(m, ops[0]), ops[1..])
  }

  /**
   * No oversell: however reserve and release statements with non-negative
   * quantities interleave, no counter goes negative, no row appears or
   * disappears, and every row keeps its total.
   */
  lemma {:induction false} AtomicUpdatesNeverOversell(m: Ledger, ops: seq<LedgerOp>)
    requires NonNegative(m)
    requires forall i :: 0 <= i < |ops| ==> ops[i].q >= 0
    ensures var m' := ApplyOps(m, ops);
      && NonNegative(m')
      && m'.Keys == m.Keys
      && forall id :: id in m ==> Total(m'[id]) == Total(m[id])
    decreases |ops|
  {
    if ops != [] {
      var m1 := Step(m, ops[0]);
      assert NonNegative(m1) && m1.Keys == m.Keys;
      assert forall id :: id in m ==> Total(m1[id]) == Total(m[id]);
      AtomicUpdatesNeverOversell(m1, ops[1..]);
    }
  }

  /** A successful reserve followed by a release of the same quantity restores the row exactly. */
  lemma ReserveThenReleaseRestores(m: Ledger, id: string, q: int)
    requires id in m && m[id].reserved >= 0
    requires ReserveUpdate(m, id, q, false).err.None?
    ensures var m1 := ReserveUpdate(m, id, q, false).ledger;
      && ReleaseUpdate(m1, id, q, false).err.None?
      && ReleaseUpdate(m1, id, q, false).ledger == m
  {
    var m1 := ReserveUpdate(m, id, q, false).ledger;
    var m2 := ReleaseUpdate(m1, id, q, false).ledger;
    assert m2[id] == m[id];
  }

  /** Reserving 10 units of a row holding 100 available and 0 reserved leaves 90 and 10. */
  lemma ReserveTenOfHundred()
    ensures ReserveUpdate(map["ITEM-001" := StockLevel("ITEM-001", 100, 0)], "ITEM-001", 10, false)
         == Update(map["ITEM-001" := StockLevel("ITEM-001", 90, 10)], None)
  {
  }

  /** The guard admits a negative quantity, which lowers `reserved`, below zero if need be. */
  lemma NegativeReserveLowersReserved()
    ensures ReserveUpdate(map["ITEM-001" := StockLevel("ITEM-001", 10, 0)], "ITEM-001", -5, false)
         == Update(map["ITEM-001" := StockLevel("ITEM-001", 15, -5)], None)
  {
  }

  /** A row that does not exist is reported as insufficient stock, not as missing. */
  lemma UnknownItemIsInsufficientStock(m: Ledger, id: string, q: int)
    requires id !in m
    ensures ReserveUpdate(m, id, q, false) == Update(m, Some(InsufficientStock))
  {
  }
}
