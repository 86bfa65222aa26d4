/**
 * The persisted content of the server's SQLite file: the table `repuestos`
 * keyed by item id, and the two append-only ledgers `ventas` (sales) and
 * `devoluciones` (returns). Every `ServerDB` operation is defined here as a
 * pure function from the old content to the new one; the class
 * `ServerDb.ServerDB` performs the same steps in place and is proved against
 * these functions. Each `ServerDB` method runs entirely under `DB_LOCK`, so
 * each one is a single atomic step.
 */
module Records {
  import opened Common

  const NotFoundMsg: string := "Artículo no encontrado"
  const InsufficientStockMsg: string := "Stock insuficiente"

  /** A row of `repuestos`; its id is the key it is stored under. Prices are stored, never computed on. */
  datatype Record = Record(
    nombre: string,
    descripcion: string,
    cantidad: int,
    precioUsd: real,
    precioBs: real,
    ultimoUpdate: Time,
    deleted: bool)

  /** A row of `ventas` or `devoluciones`. Its AUTOINCREMENT id is its position in the ledger plus one. */
  datatype LedgerEntry = LedgerEntry(itemId: string, cantidad: int, fecha: Time)

  /** The whole database file. */
  datatype Database = Database(
    repuestos: map<string, Record>,
    ventas: seq<LedgerEntry>,
    devoluciones: seq<LedgerEntry>)

  /** The content `_init_schema` leaves in a new file. */
  const EmptyDatabase := Database(map[], [], [])

  /** A JSON object received as an item; every key may be absent. */
  datatype ItemPayload = ItemPayload(
    id: Option<string>,
    nombre: Option<string>,
    descripcion: Option<string>,
    cantidad: Option<int>,
    precioUsd: Option<real>,
    precioBs: Option<real>,
    ultimoUpdate: Option<Time>)

  /** An item whose every named parameter of upsert's INSERT statement is bound. */
  datatype Item = Item(
    id: string,
    nombre: string,
    descripcion: string,
    cantidad: int,
    precioUsd: real,
    precioBs: real,
    ultimoUpdate: Time)

  /**
   * The result of `sell` and `add_quantity`: `(True, newq)`, `(False,
   * message)`, or the `OverflowError` sqlite3 raises when it binds an integer
   * outside 64 bits (the call then writes nothing and Flask answers 500).
   */
  datatype Adjustment = Adjusted(newQuantity: int) | Failed(reason: string) | Raised

  const Int64Min: int := -0x8000_0000_0000_0000
  const Int64Max: int := 0x7fff_ffff_ffff_ffff

  /** sqlite3 binds a Python int only when it fits in a signed 64-bit INTEGER. */
  predicate InInt64(x: int) {
    Int64Min <= x <= Int64Max
  }

  /** The row of `id` exists and has `deleted=0`. */
  predicate IsActive(db: Database, id: string) {
    id in db.repuestos && !db.repuestos[id].deleted
  }

  /** get_one: the row of `id`, unless it is missing or soft-deleted. */
  function GetOne(db: Database, id: string): (r: Option<Record>)
    ensures r.None? <==> id !in db.repuestos || db.repuestos[id].deleted
    ensures r.Some? ==> r.value == db.repuestos[id] && !r.value.deleted
  {
    if IsActive(db, id) then Some(db.repuestos[id]) else None
  }

  /** get_all: the rows with `deleted=0`, by id (the order of the result list is not modelled). */
  function GetAll(db: Database): (r: map<string, Record>)
    ensures forall id :: id in r <==> GetOne(db, id).Some?
    ensures forall id :: id in r ==> GetOne(db, id) == Some(r[id])
  {
    map id | id in db.repuestos && !db.repuestos[id].deleted :: db.repuestos[id]
  }

  /**
   * Binding `item` to the named parameters of upsert's INSERT. sqlite3 raises
   * when one of them is missing from the dict, or when `cantidad` does not fit
   * in 64 bits; that is the `None` case.
   */
  function Bind(p: ItemPayload): (r: Option<Item>)
    ensures r.Some? <==>
      p.id.Some? && p.nombre.Some? && p.descripcion.Some? && p.cantidad.Some? &&
      p.precioUsd.Some? && p.precioBs.Some? && p.ultimoUpdate.Some? && InInt64(p.cantidad.value)
    ensures r.Some? ==>
      r.value.id == p.id.value && r.value.nombre == p.nombre.value &&
      r.value.descripcion == p.descripcion.value && r.value.cantidad == p.cantidad.value &&
      r.value.precioUsd == p.precioUsd.value && r.value.precioBs == p.precioBs.value &&
      r.value.ultimoUpdate == p.ultimoUpdate.value
  {
    match (p.id, p.nombre, p.descripcion, p.cantidad, p.precioUsd, p.precioBs, p.ultimoUpdate)
    case (Some(id), Some(n), Some(d), Some(c), Some(u), Some(b), Some(t)) =>
      if InInt64(c) then Some(Item(id, n, d, c, u, b, t)) else None
    case _ => None
  }

  /** `item.setdefault("ultimo_update", now)`: a caller-supplied timestamp is kept. */
  function WithDefaultStamp(p: ItemPayload, now: Time): (r: ItemPayload)
    ensures r.ultimoUpdate.Some?
    ensures p.ultimoUpdate.Some? ==> r == p
    ensures p.ultimoUpdate.None? ==> r.ultimoUpdate == Some(now)
    ensures r.(ultimoUpdate := p.ultimoUpdate) == p
  {
    p.(ultimoUpdate := Some(p.ultimoUpdate.GetOr(now)))
  }

  /** The row an upsert of `it` writes: the submitted columns and `deleted=0`. */
  function RowOf(it: Item): Record {
    Record(it.nombre, it.descripcion, it.cantidad, it.precioUsd, it.precioBs, it.ultimoUpdate, false)
  }

  /**
   * upsert: INSERT ... ON CONFLICT(id) DO UPDATE. A new id is inserted, an
   * existing one (active or soft-deleted) has every column overwritten and
   * comes back to life.
   */
  function Upsert(db: Database, it: Item): (r: Database)
    ensures GetOne(r, it.id) == Some(RowOf(it))
    ensures r.repuestos.Keys == db.repuestos.Keys + {it.id}
    ensures forall k :: k in db.repuestos && k != it.id ==> r.repuestos[k] == db.repuestos[k]
    ensures r.ventas == db.ventas && r.devoluciones == db.devoluciones
  {
    db.(repuestos := db.repuestos[it.id := RowOf(it)])
  }

  /**
   * mark_deleted: UPDATE ... SET deleted=1, ultimo_update=now WHERE id=?.
   * The row stays in the table; an unknown id matches no row.
   */
  function MarkDeleted(db: Database, id: string, now: Time): (r: Database)
    ensures GetOne(r, id) == None
    ensures r.repuestos.Keys == db.repuestos.Keys
    ensures id in db.repuestos ==> r.repuestos[id] == db.repuestos[id].(deleted := true, ultimoUpdate := now)
    ensures forall k :: k in db.repuestos && k != id ==> r.repuestos[k] == db.repuestos[k]
    ensures id !in db.repuestos ==> r == db
    ensures r.ventas == db.ventas && r.devoluciones == db.devoluciones
  {
    if id in db.repuestos then
      db.(repuestos := db.repuestos[id := db.repuestos[id].(deleted := true, ultimoUpdate := now)])
    else
      db
  }

  /** The row of `id` with its quantity set to `q` and its timestamp refreshed. */
  function SetQuantity(db: Database, id: string, q: int, now: Time): Database
    requires id in db.repuestos
  {
    db.(repuestos := db.repuestos[id := db.repuestos[id].(cantidad := q, ultimoUpdate := now)])
  }

  /**
   * sell: read the active row, refuse when it is missing or when `quantity`
   * exceeds the stock, otherwise store `available - quantity` and append one
   * sale. `quantity` is not checked for sign. Binding a new quantity or a
   * quantity outside 64 bits raises.
   */
  function Sell(db: Database, id: string, quantity: int, now: Time): (r: (Database, Adjustment))
    ensures r.1 == Failed(NotFoundMsg) <==> !IsActive(db, id)
    ensures r.1 == Failed(InsufficientStockMsg) <==> IsActive(db, id) && quantity > db.repuestos[id].cantidad
    ensures r.1 == Raised <==>
      IsActive(db, id) && quantity <= db.repuestos[id].cantidad &&
      !(InInt64(db.repuestos[id].cantidad - quantity) && InInt64(quantity))
    ensures !r.1.Adjusted? ==> r.0 == db
    ensures r.1.Failed? ==> r.1 == Failed(NotFoundMsg) || r.1 == Failed(InsufficientStockMsg)
    ensures r.1.Adjusted? ==>
      && IsActive(db, id)
      && r.1.newQuantity == db.repuestos[id].cantidad - quantity
      && r.1.newQuantity >= 0
      && InInt64(r.1.newQuantity)
      && GetOne(r.0, id) == Some(db.repuestos[id].(cantidad := r.1.newQuantity, ultimoUpdate := now))
      && r.0.ventas == db.ventas + [LedgerEntry(id, quantity, now)]
      && r.0.devoluciones == db.devoluciones
    ensures r.0.repuestos.Keys == db.repuestos.Keys
    ensures forall k :: k in db.repuestos && k != id ==> r.0.repuestos[k] == db.repuestos[k]
  {
    if !IsActive(db, id) then
      (db, Failed(NotFoundMsg))
    else
      var available := db.repuestos[id].cantidad;
      if quantity > available then
        (db, Failed(InsufficientStockMsg))
      else
        var newq := available - quantity;
        if !(InInt64(newq) && InInt64(quantity)) then
          (db, Raised)
        else
          var db' := SetQuantity(db, id, newq, now);
          (db'.(ventas := db.ventas + [LedgerEntry(id, quantity, now)]), Adjusted(newq))
  }

  /**
   * add_quantity (a return): read the active row, refuse when it is missing,
   * otherwise store `old + quantity` and append one return. `quantity` is not
   * checked for sign. Binding a new quantity or a quantity outside 64 bits
   * raises.
   */
  function AddQuantity(db: Database, id: string, quantity: int, now: Time): (r: (Database, Adjustment))
    ensures r.1.Failed? <==> !IsActive(db, id)
    ensures r.1 == Raised <==>
      IsActive(db, id) && !(InInt64(db.repuestos[id].cantidad + quantity) && InInt64(quantity))
    ensures r.1.Failed? ==> r.1 == Failed(NotFoundMsg)
    ensures !r.1.Adjusted? ==> r.0 == db
    ensures r.1.Adjusted? ==>
      && r.1.newQuantity == db.repuestos[id].cantidad + quantity
      && InInt64(r.1.newQuantity)
      && GetOne(r.0, id) == Some(db.repuestos[id].(cantidad := r.1.newQuantity, ultimoUpdate := now))
      && r.0.devoluciones == db.devoluciones + [LedgerEntry(id, quantity, now)]
      && r.0.ventas == db.ventas
    ensures r.0.repuestos.Keys == db.repuestos.Keys
    ensures forall k :: k in db.repuestos && k != id ==> r.0.repuestos[k] == db.repuestos[k]
  {
    if !IsActive(db, id) then
      (db, Failed(NotFoundMsg))
    else
      var newq := db.repuestos[id].cantidad + quantity;
      if !(InInt64(newq) && InInt64(quantity)) then
        (db, Raised)
      else
        var db' := SetQuantity(db, id, newq, now);
        (db'.(devoluciones := db.devoluciones + [LedgerEntry(id, quantity, now)]), Adjusted(newq))
  }

  // ---------------------------------------------------------------------------
  // Soft delete
  // ---------------------------------------------------------------------------

  /** Deleting twice gives the same visible state as deleting once; only the row's timestamp differs. */
  lemma MarkDeletedIdempotent(db: Database, id: string, t1: Time, t2: Time)
    ensures var once := MarkDeleted(db, id, t1);
            var twice := MarkDeleted(once, id, t2);
            && GetAll(twice) == GetAll(once)
            && (forall k :: GetOne(twice, k) == GetOne(once, k))
            && twice.repuestos.Keys == once.repuestos.Keys
            && twice.ventas == once.ventas && twice.devoluciones == once.devoluciones
  {
    var once := MarkDeleted(db, id, t1);
    var twice := MarkDeleted(once, id, t2);
    assert forall k :: GetOne(twice, k) == GetOne(once, k);
    assert GetAll(twice) == GetAll(once);
  }

  /** Soft delete followed by upsert brings the id back with exactly the submitted columns. */
  lemma DeleteThenUpsertResurrects(db: Database, it: Item, now: Time)
    ensures var r := Upsert(MarkDeleted(db, it.id, now), it);
            && it.id in GetAll(r)
            && GetAll(r)[it.id] == RowOf(it)
            && r.ventas == db.ventas && r.devoluciones == db.devoluciones
  {
  }

  // ---------------------------------------------------------------------------
  // Sequences of stock adjustments
  // ---------------------------------------------------------------------------

  /** One served `/sell` or `/return` request, as the store sees it. */
  datatype StockOp =
    | Sale(id: string, quantity: int, at: Time)
    | Return(id: string, quantity: int, at: Time)

  function Apply(db: Database, op: StockOp): Database {
    match op
    case Sale(id, q, t) => Sell(db, id, q, t).0
    case Return(id, q, t) => AddQuantity(db, id, q, t).0
  }

  /** The state after serving `ops` one at a time, in order (the serialisation DB_LOCK imposes). */
  function Replay(db: Database, ops: seq<StockOp>): Database
    decreases |ops|
  {
    if ops == [] then db else Replay(Apply(db, ops[0]), ops[1..])
  }

  /** The sum of the quantities a ledger records for `id`. */
  function Total(entries: seq<LedgerEntry>, id: string): int
    decreases |entries|
  {
    if entries == [] then 0
    else
      var last := entries[|entries| - 1];
      Total(entries[..|entries| - 1], id) + (if last.itemId == id then last.cantidad else 0)
  }

  lemma {:induction false} TotalAppend(a: seq<LedgerEntry>, b: seq<LedgerEntry>, id: string)
    ensures Total(a + b, id) == Total(a, id) + Total(b, id)
    decreases |b|
  {
    if b == [] {
      assert a + b == a;
    } else {
      var b' := b[..|b| - 1];
      assert (a + b)[..|a + b| - 1] == a + b';
      TotalAppend(a, b', id);
    }
  }

  /**
   * From `db` to `r`: the same rows, ledgers that have only grown, and the
   * stock of `id` moved by exactly what the new ledger entries record.
   */
  predicate Conserves(db: Database, r: Database, id: string)
    requires id in db.repuestos
  {
    && r.repuestos.Keys == db.repuestos.Keys
    && db.ventas <= r.ventas
    && db.devoluciones <= r.devoluciones
    && r.repuestos[id].cantidad ==
       db.repuestos[id].cantidad
       - Total(r.ventas[|db.ventas|..], id)
       + Total(r.devoluciones[|db.devoluciones|..], id)
  }

  lemma SuffixSplit<T>(a: seq<T>, b: seq<T>, c: seq<T>)
    requires a <= b <= c
    ensures c[|a|..] == b[|a|..] + c[|b|..]
  {
  }

  lemma ConservesCompose(a: Database, b: Database, c: Database, id: string)
    requires id in a.repuestos
    requires Conserves(a, b, id) && Conserves(b, c, id)
    ensures Conserves(a, c, id)
  {
    SuffixSplit(a.ventas, b.ventas, c.ventas);
    SuffixSplit(a.devoluciones, b.devoluciones, c.devoluciones);
    TotalAppend(b.ventas[|a.ventas|..], c.ventas[|b.ventas|..], id);
    TotalAppend(b.devoluciones[|a.devoluciones|..], c.devoluciones[|b.devoluciones|..], id);
  }

  /** One served request keeps the ledgers growing and the stock of `id` in step with what they record. */
  lemma StepConserves(db: Database, op: StockOp, id: string)
    requires id in db.repuestos
    ensures Conserves(db, Apply(db, op), id)
  {
    var r := Apply(db, op);
    var s := r.ventas[|db.ventas|..];
    var d := r.devoluciones[|db.devoluciones|..];
    match op
    case Sale(x, q, t) =>
      if Sell(db, x, q, t).1.Adjusted? {
        assert s == [LedgerEntry(x, q, t)];
        assert Total(s, id) == Total([], id) + (if x == id then q else 0);
      } else {
        assert s == [];
      }
      assert d == [];
    case Return(x, q, t) =>
      if AddQuantity(db, x, q, t).1.Adjusted? {
        assert d == [LedgerEntry(x, q, t)];
        assert Total(d, id) == Total([], id) + (if x == id then q else 0);
      } else {
        assert d == [];
      }
      assert s == [];
  }

  /**
   * No lost updates: after any sequence of sales and returns, the ledgers
   * have only grown, and the stock of every row equals its initial stock
   * minus everything the new sales record for it plus everything the new
   * returns record for it.
   */
  lemma {:induction false} NoLostUpdates(db: Database, ops: seq<StockOp>, id: string)
    requires id in db.repuestos
    ensures Conserves(db, Replay(db, ops), id)
    decreases |ops|
  {
    if ops == [] {
      assert db.ventas[|db.ventas|..] == [] && db.devoluciones[|db.devoluciones|..] == [];
    } else {
      var mid := Apply(db, ops[0]);
      StepConserves(db, ops[0], id);
      NoLostUpdates(mid, ops[1..], id);
      ConservesCompose(db, mid, Replay(mid, ops[1..]), id);
    }
  }

  /** No row has negative stock. */
  predicate NoNegativeStock(db: Database) {
    forall k :: k in db.repuestos ==> db.repuestos[k].cantidad >= 0
  }

  /**
   * Sales never oversell: as long as no return carries a negative quantity,
   * a table without negative stock keeps none, whatever the sales ask for.
   */
  lemma {:induction false} SalesNeverOversell(db: Database, ops: seq<StockOp>)
    requires NoNegativeStock(db)
    requires forall i :: 0 <= i < |ops| ==> ops[i].Return? ==> ops[i].quantity >= 0
    ensures NoNegativeStock(Replay(db, ops))
    decreases |ops|
  {
    if ops != [] {
      var mid := Apply(db, ops[0]);
      assert NoNegativeStock(mid) by {
        forall k | k in mid.repuestos ensures mid.repuestos[k].cantidad >= 0 {
          if k == ops[0].id {
            assert k in db.repuestos;
          }
        }
      }
      assert forall i :: 0 <= i < |ops[1..]| ==> ops[1..][i] == ops[i + 1];
      SalesNeverOversell(mid, ops[1..]);
    }
  }

  // ---------------------------------------------------------------------------
  // Concrete behaviour of the code as written
  // ---------------------------------------------------------------------------

  /** A table holding one active item `id` with `q` units. */
  function OneItem(id: string, q: int): Database {
    Database(map[id := Record("", "", q, 0.0, 0.0, 0, false)], [], [])
  }

  /**
   * Two sales of 6 and 7 against 10 units, served in either order: exactly
   * one succeeds; the stock ends at 4 when the 6 is served first and at 3
   * when the 7 is.
   */
  lemma CompetingSales(id: string, t: Time)
    ensures var db := OneItem(id, 10);
            var a := Sell(db, id, 6, t);
            var b := Sell(a.0, id, 7, t);
            a.1 == Adjusted(4) && b.1 == Failed(InsufficientStockMsg) && b.0.repuestos[id].cantidad == 4
    ensures var db := OneItem(id, 10);
            var a := Sell(db, id, 7, t);
            var b := Sell(a.0, id, 6, t);
            a.1 == Adjusted(3) && b.1 == Failed(InsufficientStockMsg) && b.0.repuestos[id].cantidad == 3
  {
  }

  /** A sale of a negative quantity succeeds, raises the stock and records a negative sale. */
  lemma NegativeSaleRaisesStock(db: Database, id: string, q: int, now: Time)
    requires IsActive(db, id) && db.repuestos[id].cantidad >= 0 && q < 0
    requires InInt64(db.repuestos[id].cantidad - q)
    ensures var r := Sell(db, id, q, now);
            && r.1.Adjusted?
            && r.1.newQuantity > db.repuestos[id].cantidad
            && r.0.ventas[|r.0.ventas| - 1].cantidad < 0
  {
  }

  /** A return of a negative quantity is accepted and can leave the stock below zero. */
  lemma NegativeReturnMakesStockNegative(id: string, now: Time)
    ensures var r := AddQuantity(OneItem(id, 2), id, -5, now);
            r.1 == Adjusted(-3) && !NoNegativeStock(r.0)
  {
    var r := AddQuantity(OneItem(id, 2), id, -5, now);
    assert r.0.repuestos[id].cantidad == -3;
  }
}
