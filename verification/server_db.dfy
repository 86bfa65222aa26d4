/**
 * `ServerDB`: the connection to the live database file. Its three tables are
 * fields that the methods update in place; each method is one atomic step
 * (it runs entirely under `DB_LOCK`) and is proved to have exactly the effect
 * that the function of the same name in `Records` defines.
 */
module ServerDb {
  import opened Common
  import opened Records

  class ServerDB {
    var repuestos: map<string, Record>
    var ventas: seq<LedgerEntry>
    var devoluciones: seq<LedgerEntry>

    /** The content of the database file: what a backup copies. */
    function Contents(): Database
      reads this
    {
      Database(repuestos, ventas, devoluciones)
    }

    /** `_connect` on a file: an existing file is opened as it is, a missing one gets the empty schema. */
    constructor (file: Option<Database>)
      ensures Contents() == file.GetOr(EmptyDatabase)
    {
      var d := file.GetOr(EmptyDatabase);
      repuestos, ventas, devoluciones := d.repuestos, d.ventas, d.devoluciones;
    }

    /** get_all. */
    method GetAll() returns (items: map<string, Record>)
      ensures items == Records.GetAll(Contents())
    {
      items := map id | id in repuestos && !repuestos[id].deleted :: repuestos[id];
    }

    /** get_one. */
    method GetOne(id: string) returns (r: Option<Record>)
      ensures r == Records.GetOne(Contents(), id)
    {
      if id in repuestos && !repuestos[id].deleted {
        r := Some(repuestos[id]);
      } else {
        r := None;
      }
    }

    /**
     * upsert: fills in `ultimo_update` when absent, then runs the INSERT ... ON
     * CONFLICT statement. `raised` reports the sqlite3 error for a missing
     * named parameter or a `cantidad` outside 64 bits; the statement then
     * writes nothing.
     */
    method Upsert(item: ItemPayload, now: Time) returns (raised: bool)
      modifies this
      ensures raised <==> Bind(WithDefaultStamp(item, now)).None?
      ensures raised ==> Contents() == old(Contents())
      ensures !raised ==>
        Contents() == Records.Upsert(old(Contents()), Bind(WithDefaultStamp(item, now)).value)
    {
      var withStamp := WithDefaultStamp(item, now);
      var row := Bind(withStamp);
      if row.None? {
        return true;
      }
      var it := row.value;
      repuestos := repuestos[it.id := Record(it.nombre, it.descripcion, it.cantidad, it.precioUsd, it.precioBs, it.ultimoUpdate, false)];
      raised := false;
    }

    /** mark_deleted. */
    method MarkDeleted(id: string, now: Time)
      modifies this
      ensures Contents() == Records.MarkDeleted(old(Contents()), id, now)
    {
      if id in repuestos {
        repuestos := repuestos[id := repuestos[id].(deleted := true, ultimoUpdate := now)];
      }
    }

    /** sell: read, check, then write the new quantity and one `ventas` row; an integer outside 64 bits raises. */
    method Sell(id: string, quantity: int, now: Time) returns (res: Adjustment)
      modifies this
      ensures (Contents(), res) == Records.Sell(old(Contents()), id, quantity, now)
    {
      if !(id in repuestos && !repuestos[id].deleted) {
        return Failed(NotFoundMsg);
      }
      var available := repuestos[id].cantidad;
      if quantity > available {
        return Failed(InsufficientStockMsg);
      }
      var newq := available - quantity;
      if !(InInt64(newq) && InInt64(quantity)) {
        return Raised;
      }
      repuestos := repuestos[id := repuestos[id].(cantidad := newq, ultimoUpdate := now)];
      ventas := ventas + [LedgerEntry(id, quantity, now)];
      res := Adjusted(newq);
    }

    /** add_quantity: read, then write the new quantity and one `devoluciones` row; an integer outside 64 bits raises. */
    method AddQuantity(id: string, quantity: int, now: Time) returns (res: Adjustment)
      modifies this
      ensures (Contents(), res) == Records.AddQuantity(old(Contents()), id, quantity, now)
    {
      if !(id in repuestos && !repuestos[id].deleted) {
        return Failed(NotFoundMsg);
      }
      var newq := repuestos[id].cantidad + quantity;
      if !(InInt64(newq) && InInt64(quantity)) {
        return Raised;
      }
      repuestos := repuestos[id := repuestos[id].(cantidad := newq, ultimoUpdate := now)];
      devoluciones := devoluciones + [LedgerEntry(id, quantity, now)];
      res := Adjusted(newq);
    }

    /** The live file is overwritten with `file` and the connection reopened (the second copy of a restore). */
    method Reload(file: Database)
      modifies this
      ensures Contents() == file
    {
      repuestos, ventas, devoluciones := file.repuestos, file.ventas, file.devoluciones;
    }
  }
}
