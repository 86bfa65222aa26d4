/**
 * The server's process-wide state and its request handlers: the live
 * database connection `db`, the change version `LAST_UPDATE`, the client
 * presence map `CLIENTS_LAST_SEEN`, the files of the `backups` directory and
 * the stored API key. Every handler is one atomic step. Flask routing, JSON
 * encoding and `send_file` are not modelled: a request arrives as typed
 * parameters and a response leaves as a `Reply`.
 */
module Api {
  import opened Common
  import opened Records
  import opened ServerDb
  import opened Auth
  import opened Snapshots

  /** An HTTP response: 200 with a body, or an error status with its `error` message. */
  datatype Reply<T> = Ok(body: T) | Error(status: nat, message: string)

  const NoJsonPostMsg: string := "No JSON recibido"
  const MissingIdMsg: string := "id es requerido"
  const NoJsonMsg: string := "no json"
  const NotFoundHttpMsg: string := "no encontrado"
  /** Flask's answer when a handler raises. */
  const InternalErrorMsg: string := "Internal Server Error"

  /** GET /items: the active items, the server time and the change version. */
  datatype Listing = Listing(items: map<string, Record>, serverTime: Time, lastUpdate: Time)

  /** The JSON body of /sell and /return; both keys may be absent, and "quantity" is any JSON number. */
  datatype StockRequest = StockRequest(id: Option<string>, quantity: Option<real>)

  /** Python's `int()` on a number: the fraction is dropped, toward zero. */
  function IntOf(x: real): (n: int)
    ensures x >= 0.0 ==> n as real <= x < n as real + 1.0
    ensures x < 0.0 ==> n as real - 1.0 < x <= n as real
  {
    if x >= 0.0 then x.Floor else -((-x).Floor)
  }

  /** A whole number passes through `int()` unchanged. */
  lemma IntOfWhole(n: int)
    ensures IntOf(n as real) == n
  {
  }

  /**
   * A sale whose quantity lies strictly between -1 and 1 (0.5, say) becomes a
   * sale of zero units: accepted, stock unchanged, and a zero sale recorded.
   */
  lemma FractionalSaleSellsNothing(db: Database, id: string, x: real, now: Time)
    requires IsActive(db, id) && 0 <= db.repuestos[id].cantidad <= Int64Max
    requires -1.0 < x < 1.0
    ensures var r := Adjust(db, StockRequest(Some(id), Some(x)), now, true);
            && r.1 == Adjusted(db.repuestos[id].cantidad)
            && r.0.ventas == db.ventas + [LedgerEntry(id, 0, now)]
  {
    assert IntOf(x) == 0;
  }

  /** A successful /sell or /return: `new_quantity` and the item as it now reads. */
  datatype Receipt = Receipt(newQuantity: int, item: Option<Record>)

  /** GET /ping. */
  datatype Pong = Pong(serverTime: Time, lastUpdate: Time)

  /** One entry of get_clients_snapshot. */
  datatype ClientView = ClientView(clientId: string, lastSeen: Time, secondsAgo: int)

  /** How the console's restore dialog ends. */
  datatype RestoreOutcome =
    | NoBackups
    | Cancelled
    | FileNotFound
    | Declined
    | Restored(safetyCopy: string)

  /** The store's answer to a sale or return request; a missing id binds NULL, which matches no row. */
  function Adjust(db: Database, req: StockRequest, now: Time, sale: bool): (r: (Database, Adjustment))
    ensures req.id.None? ==> r == (db, Failed(NotFoundMsg))
    ensures req.id.Some? && req.quantity.None? ==>
      r == if sale then Records.Sell(db, req.id.value, 1, now) else Records.AddQuantity(db, req.id.value, 1, now)
    ensures req.id.Some? && req.quantity.Some? ==>
      var q := IntOf(req.quantity.value);
      r == if sale then Records.Sell(db, req.id.value, q, now) else Records.AddQuantity(db, req.id.value, q, now)
  {
    var q := IntOf(req.quantity.GetOr(1.0));
    match req.id
    case None => (db, Failed(NotFoundMsg))
    case Some(id) => if sale then Records.Sell(db, id, q, now) else Records.AddQuantity(db, id, q, now)
  }

  class Server {
    /** The connection to the live database file. */
    const db: ServerDB
    /** The stripped content of `api_key.txt`, or none when the file is missing or unreadable. */
    const apiKey: Option<string>
    /** LAST_UPDATE */
    var lastUpdate: Time
    /** CLIENTS_LAST_SEEN */
    var clientsLastSeen: map<string, Time>
    /** The files of the `backups` directory, by name. */
    var backups: map<string, Database>

    /** Process start: open the database file, read the clock into LAST_UPDATE. */
    constructor (file: Option<Database>, backupsDir: map<string, Database>, key: Option<string>, now: Time)
      ensures fresh(db) && db.Contents() == file.GetOr(EmptyDatabase)
      ensures apiKey == key && lastUpdate == now && clientsLastSeen == map[] && backups == backupsDir
    {
      db := new ServerDB(file);
      apiKey := key;
      lastUpdate := now;
      clientsLastSeen := map[];
      backups := backupsDir;
    }

    // -------------------------------------------------------------------------
    // Change version and client presence
    // -------------------------------------------------------------------------

    /** update_last_update: the version becomes the clock reading. */
    method UpdateLastUpdate(now: Time)
      requires lastUpdate <= now
      modifies this`lastUpdate
      ensures lastUpdate == now
      ensures old(lastUpdate) <= lastUpdate
    {
      lastUpdate := now;
    }

    /** update_client_seen: no-op for an absent or empty id, otherwise records `now` for it. */
    method UpdateClientSeen(clientId: Option<string>, now: Time)
      modifies this`clientsLastSeen
      ensures clientId.GetOr("") == "" ==> clientsLastSeen == old(clientsLastSeen)
      ensures clientId.GetOr("") != "" ==> clientsLastSeen == old(clientsLastSeen)[clientId.value := now]
    {
      if clientId.GetOr("") == "" {
        return;
      }
      clientsLastSeen := clientsLastSeen[clientId.value := now];
    }

    /** GET /ping (no API key): records the caller's presence and reports the version. */
    method Ping(clientId: Option<string>, now: Time) returns (p: Pong)
      modifies this`clientsLastSeen
      ensures clientId.GetOr("") == "" ==> clientsLastSeen == old(clientsLastSeen)
      ensures clientId.GetOr("") != "" ==> clientsLastSeen == old(clientsLastSeen)[clientId.value := now]
      ensures p == Pong(now, lastUpdate)
    {
      UpdateClientSeen(clientId, now);
      p := Pong(now, lastUpdate);
    }

    /** GET /last_update (no API key). */
    method GetLastUpdate() returns (v: Time)
      ensures v == lastUpdate
    {
      v := lastUpdate;
    }

    /**
     * get_clients_snapshot: one entry per known client, with the seconds
     * elapsed since it was last seen (negative if the clock went back). The
     * order of the entries is not modelled.
     */
    method GetClientsSnapshot(now: Time) returns (out: seq<ClientView>)
      ensures |out| == |clientsLastSeen|
      ensures forall i :: 0 <= i < |out| ==>
        && out[i].clientId in clientsLastSeen
        && out[i].lastSeen == clientsLastSeen[out[i].clientId]
        && out[i].secondsAgo == now - out[i].lastSeen
      ensures forall c :: c in clientsLastSeen ==> exists i :: 0 <= i < |out| && out[i].clientId == c
      ensures forall i, j :: 0 <= i < j < |out| ==> out[i].clientId != out[j].clientId
    {
      var todo := clientsLastSeen.Keys;
      out := [];
      while todo != {}
        invariant todo <= clientsLastSeen.Keys
        invariant |out| + |todo| == |clientsLastSeen|
        invariant forall i :: 0 <= i < |out| ==>
          && out[i].clientId in clientsLastSeen
          && out[i].clientId !in todo
          && out[i].lastSeen == clientsLastSeen[out[i].clientId]
          && out[i].secondsAgo == now - out[i].lastSeen
        invariant forall c :: c in clientsLastSeen && c !in todo ==> exists i :: 0 <= i < |out| && out[i].clientId == c
        invariant forall i, j :: 0 <= i < j < |out| ==> out[i].clientId != out[j].clientId
        decreases |todo|
      {
        var c :| c in todo;
        var seen := clientsLastSeen[c];
        ghost var prev := out;
        out := out + [ClientView(c, seen, now - seen)];
        assert forall i :: 0 <= i < |prev| ==> out[i] == prev[i];
        assert out[|prev|].clientId == c;
        todo := todo - {c};
      }
    }

    // -------------------------------------------------------------------------
    // Items
    // -------------------------------------------------------------------------

    /** GET /items. */
    method ListItems(header: Option<string>, now: Time) returns (r: Reply<Listing>)
      ensures var d := Gate(apiKey, header);
              d != Granted ==> r == Error(RefusalStatus(d), RefusalMessage(d))
      ensures Gate(apiKey, header) == Granted ==> r == Ok(Listing(Records.GetAll(db.Contents()), now, lastUpdate))
    {
      var d := Gate(apiKey, header);
      if d != Granted {
        return Error(RefusalStatus(d), RefusalMessage(d));
      }
      var items := db.GetAll();
      r := Ok(Listing(items, now, lastUpdate));
    }

    /**
     * POST /items: an absent or empty body, or one without "id", is refused
     * with 400; an item lacking another column makes the INSERT raise (500).
     * Only a written item bumps the version.
     */
    method PostItem(header: Option<string>, body: Option<ItemPayload>, now: Time) returns (r: Reply<ItemPayload>)
      requires lastUpdate <= now
      modifies this`lastUpdate, db
      ensures old(lastUpdate) <= lastUpdate
      ensures var d := Gate(apiKey, header);
              d != Granted ==> r == Error(RefusalStatus(d), RefusalMessage(d))
      ensures Gate(apiKey, header) == Granted && body.None? ==> r == Error(400, NoJsonPostMsg)
      ensures Gate(apiKey, header) == Granted && body.Some? && body.value.id.None? ==> r == Error(400, MissingIdMsg)
      ensures Gate(apiKey, header) == Granted && body.Some? && body.value.id.Some? && Bind(WithDefaultStamp(body.value, now)).None? ==>
        r == Error(500, InternalErrorMsg)
      ensures r.Error? ==> db.Contents() == old(db.Contents()) && lastUpdate == old(lastUpdate)
      ensures r.Ok? <==>
        Gate(apiKey, header) == Granted && body.Some? && body.value.id.Some? && Bind(WithDefaultStamp(body.value, now)).Some?
      ensures r.Ok? ==>
        && r.body == WithDefaultStamp(body.value, now)
        && db.Contents() == Records.Upsert(old(db.Contents()), Bind(r.body).value)
        && lastUpdate == now
    {
      var d := Gate(apiKey, header);
      if d != Granted {
        return Error(RefusalStatus(d), RefusalMessage(d));
      }
      if body.None? {
        return Error(400, NoJsonPostMsg);
      }
      if body.value.id.None? {
        return Error(400, MissingIdMsg);
      }
      var item := WithDefaultStamp(body.value, now);
      var raised := db.Upsert(item, now);
      if raised {
        return Error(500, InternalErrorMsg);
      }
      UpdateLastUpdate(now);
      r := Ok(item);
    }

    /** GET /items/<id>. */
    method GetItem(header: Option<string>, id: string) returns (r: Reply<Record>)
      ensures var d := Gate(apiKey, header);
              d != Granted ==> r == Error(RefusalStatus(d), RefusalMessage(d))
      ensures Gate(apiKey, header) == Granted ==>
        match Records.GetOne(db.Contents(), id)
        case None => r == Error(404, NotFoundHttpMsg)
        case Some(row) => r == Ok(row)
    {
      var d := Gate(apiKey, header);
      if d != Granted {
        return Error(RefusalStatus(d), RefusalMessage(d));
      }
      var it := db.GetOne(id);
      if it.None? {
        return Error(404, NotFoundHttpMsg);
      }
      r := Ok(it.value);
    }

    /** PUT /items/<id>: the path's id replaces any "id" in the body, then as POST. */
    method PutItem(header: Option<string>, id: string, body: Option<ItemPayload>, now: Time) returns (r: Reply<ItemPayload>)
      requires lastUpdate <= now
      modifies this`lastUpdate, db
      ensures old(lastUpdate) <= lastUpdate
      ensures var d := Gate(apiKey, header);
              d != Granted ==> r == Error(RefusalStatus(d), RefusalMessage(d))
      ensures Gate(apiKey, header) == Granted && body.None? ==> r == Error(400, NoJsonMsg)
      ensures Gate(apiKey, header) == Granted && body.Some? && Bind(WithDefaultStamp(body.value.(id := Some(id)), now)).None? ==>
        r == Error(500, InternalErrorMsg)
      ensures r.Error? ==> db.Contents() == old(db.Contents()) && lastUpdate == old(lastUpdate)
      ensures r.Ok? <==>
        Gate(apiKey, header) == Granted && body.Some? && Bind(WithDefaultStamp(body.value.(id := Some(id)), now)).Some?
      ensures r.Ok? ==>
        && r.body == WithDefaultStamp(body.value.(id := Some(id)), now)
        && db.Contents() == Records.Upsert(old(db.Contents()), Bind(r.body).value)
        && Bind(r.body).value.id == id
        && lastUpdate == now
    {
      var d := Gate(apiKey, header);
      if d != Granted {
        return Error(RefusalStatus(d), RefusalMessage(d));
      }
      if body.None? {
        return Error(400, NoJsonMsg);
      }
      var item := WithDefaultStamp(body.value.(id := Some(id)), now);
      var raised := db.Upsert(item, now);
      if raised {
        return Error(500, InternalErrorMsg);
      }
      UpdateLastUpdate(now);
      r := Ok(item);
    }

    /** DELETE /items/<id>: always answers ok and bumps the version, even for an unknown id. */
    method DeleteItem(header: Option<string>, id: string, now: Time) returns (r: Reply<()>)
      requires lastUpdate <= now
      modifies this`lastUpdate, db
      ensures old(lastUpdate) <= lastUpdate
      ensures var d := Gate(apiKey, header);
              d != Granted ==> r == Error(RefusalStatus(d), RefusalMessage(d))
      ensures r.Error? ==> db.Contents() == old(db.Contents()) && lastUpdate == old(lastUpdate)
      ensures r.Ok? <==> Gate(apiKey, header) == Granted
      ensures r.Ok? ==> db.Contents() == Records.MarkDeleted(old(db.Contents()), id, now) && lastUpdate == now
    {
      var d := Gate(apiKey, header);
      if d != Granted {
        return Error(RefusalStatus(d), RefusalMessage(d));
      }
      db.MarkDeleted(id, now);
      UpdateLastUpdate(now);
      r := Ok(());
    }

    // -------------------------------------------------------------------------
    // Stock adjustments
    // -------------------------------------------------------------------------

    /**
     * POST /sell. "quantity" defaults to 1, loses any fraction to `int()` and
     * its sign is not checked. A refused sale answers 400 with the store's
     * message, one the store raises on answers 500, and neither bumps the
     * version.
     */
    method PostSell(header: Option<string>, body: Option<StockRequest>, now: Time) returns (r: Reply<Receipt>)
      requires lastUpdate <= now
      modifies this`lastUpdate, db
      ensures old(lastUpdate) <= lastUpdate
      ensures var d := Gate(apiKey, header);
              d != Granted ==> r == Error(RefusalStatus(d), RefusalMessage(d))
      ensures Gate(apiKey, header) == Granted && body.None? ==> r == Error(400, NoJsonMsg)
      ensures r.Error? ==> db.Contents() == old(db.Contents()) && lastUpdate == old(lastUpdate)
      ensures Gate(apiKey, header) == Granted && body.Some? ==>
        var res := Adjust(old(db.Contents()), body.value, now, true);
        && db.Contents() == res.0
        && (res.1.Failed? ==> r == Error(400, res.1.reason))
        && (res.1 == Raised ==> r == Error(500, InternalErrorMsg))
        && (res.1.Adjusted? ==>
              r == Ok(Receipt(res.1.newQuantity, Records.GetOne(res.0, body.value.id.value))) && lastUpdate == now)
    {
      var d := Gate(apiKey, header);
      if d != Granted {
        return Error(RefusalStatus(d), RefusalMessage(d));
      }
      if body.None? {
        return Error(400, NoJsonMsg);
      }
      var qty := IntOf(body.value.quantity.GetOr(1.0));
      if body.value.id.None? {
        return Error(400, NotFoundMsg);
      }
      var id := body.value.id.value;
      var res := db.Sell(id, qty, now);
      if res.Failed? {
        return Error(400, res.reason);
      }
      if res.Raised? {
        return Error(500, InternalErrorMsg);
      }
      var it := db.GetOne(id);
      UpdateLastUpdate(now);
      r := Ok(Receipt(res.newQuantity, it));
    }

    /** POST /return: as /sell, with add_quantity. */
    method PostReturn(header: Option<string>, body: Option<StockRequest>, now: Time) returns (r: Reply<Receipt>)
      requires lastUpdate <= now
      modifies this`lastUpdate, db
      ensures old(lastUpdate) <= lastUpdate
      ensures var d := Gate(apiKey, header);
              d != Granted ==> r == Error(RefusalStatus(d), RefusalMessage(d))
      ensures Gate(apiKey, header) == Granted && body.None? ==> r == Error(400, NoJsonMsg)
      ensures r.Error? ==> db.Contents() == old(db.Contents()) && lastUpdate == old(lastUpdate)
      ensures Gate(apiKey, header) == Granted && body.Some? ==>
        var res := Adjust(old(db.Contents()), body.value, now, false);
        && db.Contents() == res.0
        && (res.1.Failed? ==> r == Error(400, res.1.reason))
        && (res.1 == Raised ==> r == Error(500, InternalErrorMsg))
        && (res.1.Adjusted? ==>
              r == Ok(Receipt(res.1.newQuantity, Records.GetOne(res.0, body.value.id.value))) && lastUpdate == now)
    {
      var d := Gate(apiKey, header);
      if d != Granted {
        return Error(RefusalStatus(d), RefusalMessage(d));
      }
      if body.None? {
        return Error(400, NoJsonMsg);
      }
      var qty := IntOf(body.value.quantity.GetOr(1.0));
      if body.value.id.None? {
        return Error(400, NotFoundMsg);
      }
      var id := body.value.id.value;
      var res := db.AddQuantity(id, qty, now);
      if res.Failed? {
        return Error(400, res.reason);
      }
      if res.Raised? {
        return Error(500, InternalErrorMsg);
      }
      var it := db.GetOne(id);
      UpdateLastUpdate(now);
      r := Ok(Receipt(res.newQuantity, it));
    }

    // -------------------------------------------------------------------------
    // Backups
    // -------------------------------------------------------------------------

    /**
     * A backup (POST /backup, the console's "Forzar backup", and the backup
     * at start-up): the live file is copied to `backup_<stamp>.db` while the
     * store is quiesced. A same-second backup overwrites the earlier copy.
     */
    method Backup(stamp: Stamp) returns (name: string)
      modifies this`backups
      ensures name == BackupName(stamp)
      ensures backups == old(backups)[name := db.Contents()]
      ensures db.Contents() == old(db.Contents())
    {
      name := BackupName(stamp);
      backups := backups[name := db.Contents()];
    }

    /** POST /backup: answers with the name of the new copy. */
    method PostBackup(header: Option<string>, stamp: Stamp) returns (r: Reply<string>)
      modifies this`backups
      ensures var d := Gate(apiKey, header);
              d != Granted ==> r == Error(RefusalStatus(d), RefusalMessage(d)) && backups == old(backups)
      ensures r.Ok? <==> Gate(apiKey, header) == Granted
      ensures r.Ok? ==> r.body == BackupName(stamp) && backups == old(backups)[r.body := db.Contents()]
    {
      var d := Gate(apiKey, header);
      if d != Granted {
        return Error(RefusalStatus(d), RefusalMessage(d));
      }
      var name := Backup(stamp);
      r := Ok(name);
    }

    /** GET /list_backups: every file of the directory, in descending string order. */
    method ListBackups(header: Option<string>) returns (r: Reply<seq<string>>)
      ensures var d := Gate(apiKey, header);
              d != Granted ==> r == Error(RefusalStatus(d), RefusalMessage(d))
      ensures r.Ok? <==> Gate(apiKey, header) == Granted
      ensures r.Ok? ==>
        && |r.body| == |backups|
        && (forall n :: n in r.body <==> n in backups)
        && (forall i, j :: 0 <= i < j < |r.body| ==> Less(r.body[j], r.body[i]))
    {
      var d := Gate(apiKey, header);
      if d != Granted {
        return Error(RefusalStatus(d), RefusalMessage(d));
      }
      var names := SortDescending(backups.Keys);
      r := Ok(names);
    }

    /** GET /download_backup/<fname>: the file's content, or 404. */
    method DownloadBackup(header: Option<string>, fname: string) returns (r: Reply<Database>)
      ensures var d := Gate(apiKey, header);
              d != Granted ==> r == Error(RefusalStatus(d), RefusalMessage(d))
      ensures Gate(apiKey, header) == Granted && fname !in backups ==> r == Error(404, NotFoundHttpMsg)
      ensures Gate(apiKey, header) == Granted && fname in backups ==> r == Ok(backups[fname])
    {
      var d := Gate(apiKey, header);
      if d != Granted {
        return Error(RefusalStatus(d), RefusalMessage(d));
      }
      if fname !in backups {
        return Error(404, NotFoundHttpMsg);
      }
      r := Ok(backups[fname]);
    }

    /**
     * The console's restore: with no backups, a cancelled or empty selection,
     * an unknown file or a declined confirmation nothing changes. Otherwise
     * the live file is first copied to `pre_restore_<stamp>.db`, then the
     * selected file (read after that copy) overwrites the live file, and the
     * version is bumped.
     */
    method Restore(selection: Option<string>, confirmed: bool, stamp: Stamp, now: Time) returns (o: RestoreOutcome)
      requires lastUpdate <= now
      modifies this`backups, this`lastUpdate, db
      ensures old(lastUpdate) <= lastUpdate
      ensures o == NoBackups <==> old(backups) == map[]
      ensures o == Cancelled <==> old(backups) != map[] && selection.GetOr("") == ""
      ensures o == FileNotFound <==>
        old(backups) != map[] && selection.GetOr("") != "" && selection.value !in old(backups)
      ensures o == Declined <==>
        old(backups) != map[] && selection.GetOr("") != "" && selection.value in old(backups) && !confirmed
      ensures !o.Restored? ==>
        backups == old(backups) && db.Contents() == old(db.Contents()) && lastUpdate == old(lastUpdate)
      ensures o.Restored? ==>
        && o.safetyCopy == PreRestoreName(stamp)
        && backups == old(backups)[o.safetyCopy := old(db.Contents())]
        && db.Contents() == backups[selection.value]
        && lastUpdate == now
      ensures o.Restored? && selection.value != o.safetyCopy ==> db.Contents() == old(backups)[selection.value]
      ensures o.Restored? && selection.value == o.safetyCopy ==> db.Contents() == old(db.Contents())
    {
      if backups == map[] {
        return NoBackups;
      }
      if selection.GetOr("") == "" {
        return Cancelled;
      }
      var sel := selection.value;
      if sel !in backups {
        return FileNotFound;
      }
      if !confirmed {
        return Declined;
      }
      var pre := PreRestoreName(stamp);
      backups := backups[pre := db.Contents()];
      db.Reload(backups[sel]);
      UpdateLastUpdate(now);
      o := Restored(pre);
    }
  }

  /**
   * A backup, a sale, then a restore of that backup: the live data is back to
   * what it was at backup time, the backup itself is untouched, and the new
   * pre-restore copy holds the data as it was just before the restore.
   */
  method BackupSellRestore(s: Server, header: Option<string>, sale: StockRequest, t1: Stamp, t2: Stamp, now: Time)
    requires s.lastUpdate <= now
    modifies s, s.db
    ensures s.db.Contents() == old(s.db.Contents())
    ensures BackupName(t1) in s.backups && s.backups[BackupName(t1)] == old(s.db.Contents())
    ensures PreRestoreName(t2) in s.backups
    ensures s.backups[PreRestoreName(t2)] ==
      if Gate(s.apiKey, header) == Granted then Adjust(old(s.db.Contents()), sale, now, true).0
      else old(s.db.Contents())
    ensures s.lastUpdate == now
  {
    var name := s.Backup(t1);
    var _ := s.PostSell(header, Some(sale), now);
    PreRestoreListedFirst(t1, t2);
    assert name != "" by { assert name[0] == 'b'; }
    assert name in s.backups;
    assert s.backups != map[];
    var o := s.Restore(Some(name), true, t2, now);
    assert o.Restored?;
  }
}
