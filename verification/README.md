# Inventory server core, modelled in Dafny

This project models the server side of GestorInventarioRepuestos, a spare-parts
inventory server (`Servidor/server.py`). The server keeps a table of parts
(`repuestos`). Each row has a name, a description, an integer quantity, two
prices, a timestamp and a soft-delete flag. Two append-only ledgers record
sales (`ventas`) and returns (`devoluciones`). A change version, `LAST_UPDATE`,
tells polling clients when to refetch. The server also keeps:

- a map of when each client was last seen;
- a bounded list of recent log lines;
- a `backups` directory of whole-database copies, with a restore flow that
  first takes a safety copy.

Every `ServerDB` method runs entirely under one lock. Each is therefore
modelled as a single atomic step.

Files:

- `common.dfy`: `Option`, and `Time` (an injected clock reading in seconds).
- `records.dfy`: the database content as a value. Each `ServerDB` operation is
  a pure function on it (get_all, get_one, upsert, mark_deleted, sell,
  add_quantity). It also holds lemmas about soft delete and about sequences of
  sales and returns: no lost updates, no overselling, and the code's handling
  of negative quantities.
- `server_db.dfy`: class `ServerDB`, whose three table fields are updated in
  place. Each method is proved to have exactly the effect of the matching
  function in `Records`.
- `auth.dfy`: the `require_api_key` decision.
- `snapshots.dfy`: backup file names and Python's string order. It proves that
  names sort by their timestamp within one kind, and that every pre-restore
  copy sorts above every backup. It also holds the sort that `list_backups`
  uses.
- `event_log.dfy`: `log`, with the list cut back to the last 2000 lines.
- `api.dfy`: class `Server` with `LAST_UPDATE`, client presence, the backups
  directory and the request handlers, plus the console's restore flow.

## Model

| member | source | states |
|---|---|---|
| `Records.GetOne` | Servidor/server.py:158-163 | get_one finds a row exactly when its id is stored with deleted=0, and returns that row |
| `Records.GetAll` | Servidor/server.py:152-156 | get_all lists exactly the ids get_one finds, each with the same row |
| `Records.Bind` | Servidor/server.py:169-180 | the upsert statement binds only when every column key is present and `cantidad` fits in 64 bits, and takes every column from the payload |
| `Records.WithDefaultStamp` | Servidor/server.py:166 | `setdefault("ultimo_update", now)` fills in the clock reading when the key is absent, keeps a caller-supplied timestamp, and changes nothing else |
| `Records.Upsert` | Servidor/server.py:165-181 | after upsert, get_one(id) gives exactly the submitted columns with deleted=0, for a new, an active or a soft-deleted id; other rows and both ledgers are unchanged |
| `Records.MarkDeleted` | Servidor/server.py:183-187 | after mark_deleted, get_one(id) is none and the row persists flagged with a fresh timestamp; an unknown id leaves the table unchanged; other rows and the ledgers are untouched |
| `Records.Sell` | Servidor/server.py:189-203 | not found exactly when no active row; insufficient stock exactly when quantity > available; raises exactly when the new quantity or the quantity does not fit in 64 bits; a failure or a raise changes nothing; a success stores available − quantity (≥ 0), appends exactly one sale (id, quantity) and touches nothing else |
| `Records.AddQuantity` | Servidor/server.py:205-216 | fails exactly for a missing or soft-deleted id, raises exactly when the new quantity or the quantity does not fit in 64 bits, and neither changes anything; on success stores old + quantity, appends exactly one return and touches nothing else |
| `Records.MarkDeletedIdempotent` | Servidor/server.py:183-187 | deleting twice gives the same visible rows, keys and ledgers as deleting once |
| `Records.DeleteThenUpsertResurrects` | Servidor/server.py:165-187 | a soft-deleted id comes back through upsert with the submitted columns |
| `Records.StepConserves` | Servidor/server.py:189-216 | one sale or return only grows the ledgers and moves a row's stock by exactly what it records |
| `Records.NoLostUpdates` | Servidor/server.py:189-216 | after any sequence of sales and returns, each row's stock is its initial stock minus the new sales plus the new returns recorded for it |
| `Records.SalesNeverOversell` | Servidor/server.py:192-203 | unless a return carries a negative quantity, no sequence of sales and returns drives any stock negative |
| `Records.CompetingSales` | Servidor/server.py:196-199 | sales of 6 and 7 against 10 units: exactly one succeeds; the stock ends at 4 or at 3 depending on which is served first |
| `Records.NegativeSaleRaisesStock` | Servidor/server.py:353-354 | against a non-negative stock, a sale with negative quantity is accepted, raises the stock and records a negative sale |
| `Records.NegativeReturnMakesStockNegative` | Servidor/server.py:370-371 | a return of −5 against 2 units is accepted and leaves −3 in stock |
| `ServerDb.ServerDB.constructor` | Servidor/server.py:92-102 | opening an existing file keeps its content; a new file starts with empty tables |
| `ServerDb.ServerDB.GetAll` | Servidor/server.py:152-156 | returns the active rows of the live tables |
| `ServerDb.ServerDB.GetOne` | Servidor/server.py:158-163 | returns the row when active, none otherwise |
| `ServerDb.ServerDB.Upsert` | Servidor/server.py:165-181 | raises (writing nothing) exactly when a column key is missing or `cantidad` does not fit in 64 bits; otherwise the tables become `Records.Upsert` of the old ones |
| `ServerDb.ServerDB.MarkDeleted` | Servidor/server.py:183-187 | the tables become `Records.MarkDeleted` of the old ones |
| `ServerDb.ServerDB.Sell` | Servidor/server.py:189-203 | the read-check-write has exactly the effect and result of `Records.Sell` |
| `ServerDb.ServerDB.AddQuantity` | Servidor/server.py:205-216 | the read-write has exactly the effect and result of `Records.AddQuantity` |
| `ServerDb.ServerDB.Reload` | Servidor/server.py:631-634 | after the live file is overwritten and reopened, the tables are the copied content |
| `Auth.Gate` | Servidor/server.py:277-288 | no stored key gives not-configured whatever the header; an absent, empty or different header is rejected; only an exact non-empty match is granted |
| `Auth.RefusalStatus` | Servidor/server.py:280-285 | not configured answers 403, rejected answers 401 |
| `Auth.RefusalMessage` | Servidor/server.py:280-285 | the error body names a missing server key exactly for not configured, and an invalid or missing key exactly for rejected |
| `Auth.EmptyKeyAdmitsNobody` | Servidor/server.py:266 | an empty stored key rejects every request |
| `Snapshots.BackupName` | Servidor/server.py:386-387 | `backup_<stamp>.db`, from which the stamp can be read back |
| `Snapshots.PreRestoreName` | Servidor/server.py:626 | `pre_restore_<stamp>.db`, from which the stamp can be read back |
| `Snapshots.Less` | Servidor/server.py:405 | Python's order on str, compared character by character; its contract states that a proper prefix sorts first |
| `Snapshots.LessIrreflexive` | Servidor/server.py:405 | no name sorts before itself |
| `Snapshots.LessTransitive` | Servidor/server.py:405 | the order is transitive |
| `Snapshots.LessTotal` | Servidor/server.py:405 | any two distinct names are ordered one way or the other |
| `Snapshots.DigitsOrder` | Servidor/server.py:386 | for digit strings of one length, string order is numeric order |
| `Snapshots.NamesFollowStamps` | Servidor/server.py:386-387 | within backups, and within pre-restore copies, name order is the order of the stamped clock readings |
| `Snapshots.PreRestoreListedFirst` | Servidor/server.py:626 | every pre-restore name sorts above every backup name, so the two never collide |
| `Snapshots.SortDescending` | Servidor/server.py:405 | the listing holds each file name exactly once, in strictly descending string order |
| `Logging.Line` | Servidor/server.py:77-78 | a line is `[`, the timestamp, `] `, then the message, each recoverable from its place |
| `Logging.KeepLast` | Servidor/server.py:82-83 | keeps the last n lines, all of them when there are at most n |
| `Logging.FeedKeepsNewest` | Servidor/server.py:76-84 | logging line after line leaves exactly the last 2000 lines ever logged, newest last |
| `Logging.EventLog.constructor` | Servidor/server.py:66-72 | the list starts empty; the log file, appended to, keeps the lines earlier runs wrote |
| `Logging.EventLog.Log` | Servidor/server.py:76-84 | the new line is last, at most 2000 lines remain, and they are the tail of the old lines plus the new one; the file gains the line |
| `Api.Server.constructor` | Servidor/server.py:221-231 | start-up opens the database, reads the clock into the version and begins with no clients |
| `Api.IntOf` | Servidor/server.py:353 | `int()` on a JSON number drops the fraction toward zero |
| `Api.IntOfWhole` | Servidor/server.py:353 | a whole number passes through `int()` unchanged |
| `Api.FractionalSaleSellsNothing` | Servidor/server.py:353-354 | against a non-negative stock, a quantity strictly between −1 and 1 becomes a sale of zero units that is accepted and recorded |
| `Api.Adjust` | Servidor/server.py:352-371 | a missing id is not found and changes nothing; quantity defaults to 1 and goes through `int()`; otherwise exactly `Records.Sell` or `Records.AddQuantity` |
| `Api.Server.UpdateLastUpdate` | Servidor/server.py:233-237 | the version becomes the clock reading, and so never decreases while the clock does not go back |
| `Api.Server.GetLastUpdate` | Servidor/server.py:239-241 | returns the version |
| `Api.Server.UpdateClientSeen` | Servidor/server.py:243-247 | an absent or empty id changes nothing; otherwise only that client's entry is set to now |
| `Api.Server.Ping` | Servidor/server.py:293-297 | records presence as above and reports the server time and the version |
| `Api.Server.GetClientsSnapshot` | Servidor/server.py:249-256 | one entry per known client, none twice, each with its last-seen time and now − last seen |
| `Api.Server.ListItems` | Servidor/server.py:303-308 | refused without a valid key; otherwise the active items, the server time and the version |
| `Api.Server.PostItem` | Servidor/server.py:309-320 | a missing body or id gives 400, a missing column or an out-of-range `cantidad` gives 500, and neither changes the store or the version; otherwise the item with its default timestamp is upserted and the version bumped; the version never decreases |
| `Api.Server.GetItem` | Servidor/server.py:325-329 | the active row, or 404 |
| `Api.Server.PutItem` | Servidor/server.py:330-339 | the path id overrides the body's; a missing body gives 400, a body that cannot be bound gives 500, neither changes anything; otherwise the item is upserted under the path id and the version bumped |
| `Api.Server.DeleteItem` | Servidor/server.py:340-344 | with a valid key, always soft-deletes and bumps the version, even for an unknown id |
| `Api.Server.PostSell` | Servidor/server.py:346-361 | quantity defaults to 1 and goes through `int()`; a refused sale answers 400 with the store's message, a raising one 500, and neither changes or bumps anything; a sale answers the new quantity and the item and bumps the version |
| `Api.Server.PostReturn` | Servidor/server.py:363-378 | the same for returns, with add_quantity |
| `Api.Server.Backup` | Servidor/server.py:668-683 | `backup_<stamp>.db` becomes a copy of the live content, which is unchanged |
| `Api.Server.PostBackup` | Servidor/server.py:380-398 | with a valid key, makes a backup and answers its name; otherwise the directory is unchanged |
| `Api.Server.ListBackups` | Servidor/server.py:400-406 | every file of the directory exactly once, in descending string order |
| `Api.Server.DownloadBackup` | Servidor/server.py:408-414 | the named file's content, or 404 |
| `Api.Server.Restore` | Servidor/server.py:605-640 | no backups, a cancelled selection, an unknown file or a declined confirmation change nothing; otherwise the pre-restore copy holds the old live content, the live content becomes the selected file and the version is bumped |
| `Api.BackupSellRestore` | Servidor/server.py:617-635 | backup, sale, then restore of that backup brings the live content back and keeps the backup; the pre-restore copy holds exactly the content after the sale (before it, when the key was refused) |

## Behaviour worth knowing

In several places the code does something a reader might not expect:

- Absent columns are not defaulted to zero. The `upsert` statement uses named
  parameters, so a missing `nombre`, `descripcion`, `cantidad`, `precio_usd`
  or `precio_bs` makes sqlite3 raise. Nothing is written, the version is not
  bumped, and Flask answers 500.
- The sign of the quantity in `/sell` and `/return` is never checked. A
  negative sale against a non-negative stock raises the stock. A negative
  return can leave the stock below
  zero (`Records.NegativeSaleRaisesStock`,
  `Records.NegativeReturnMakesStockNegative`). A successful sale still never
  leaves a negative quantity (`Records.Sell`).
- `upsert` keeps a caller-supplied `ultimo_update` instead of refreshing it.
- The backup listing sorts by name, not by time. Within one kind the two
  agree (`Snapshots.NamesFollowStamps`). But every `pre_restore_*` file is
  listed above every `backup_*` file (`Snapshots.PreRestoreListedFirst`).
- For sales of 6 and 7 against 10 units, the final stock is 4 only when the
  sale of 6 is served first. Otherwise it is 3 (`Records.CompetingSales`).
- `int()` drops the fraction of a JSON quantity. Against a non-negative
  stock, a sale of 0.5 is a sale of zero units: it is accepted, recorded and
  bumps the version (`Api.FractionalSaleSellsNothing`). Against a negative
  stock the same request is refused as insufficient stock.
- sqlite3 refuses integers outside 64 bits. A return or sale that would store
  such a quantity, or an upsert of such a `cantidad`, raises and answers 500.
- The safety copy is written before the selected file is read. Restoring a
  `pre_restore_*` file whose name is the same as the new safety copy (same
  second) therefore leaves the live data as it was (`Api.Server.Restore`).
- An empty `api_key.txt` counts as a configured key that no header can match
  (`Auth.EmptyKeyAdmitsNobody`).
- The version is the clock reading at one-second resolution. Two mutations in
  the same second leave it with the same value.

## Left out

- SQLite itself: SQL text, the unused `meta` table, column affinities, and NOT
  NULL checks on explicit JSON `null` values. The tables are a map and two
  sequences. Prices are reals, so a JSON integer price outside 64 bits (which
  sqlite3 would also refuse) is not modelled. JSON values are typed: a
  non-string id and a body that is not an object are not modelled. An absent
  or empty body is `None`.
- `Api.Server.PostSell`, `Api.Server.PostReturn`: "quantity" is a JSON number,
  truncated toward zero by `int()`. A string (`int("7")` is 7, `int("x")`
  raises), a boolean (`int(True)` is 1), `null` or a container (both of which
  raise) are not modelled. Python's `json` first rounds a literal with a
  fraction or an exponent to an IEEE double: `0.99999999999999999` arrives as
  1.0 and sells one unit, where the model's exact real truncates to 0. `1e400`,
  `Infinity` and `NaN` reach `int()` as non-finite doubles, which raise, so
  Flask answers 500; the model has no such values.
- `Records.Sell`, `Records.AddQuantity`: when the new quantity fits in 64 bits
  but the requested quantity does not, the source's UPDATE has already run when
  the ledger INSERT raises. That UPDATE stays uncommitted in the open
  transaction and is committed by the connection's next commit. The model
  treats the whole call as writing nothing.
- Locks and threads (`DB_LOCK`, `LAST_UPDATE_LOCK`, `CLIENTS_LOCK`,
  `LOG_LOCK`, the Flask thread). Each locked method is one atomic step. The
  sqlite busy timeout is not modelled.
- The clock, `now_ts`/`strftime` formatting and `datetime.isoformat`. Readings
  are injected as parameters: `now` (seconds) for timestamps, the version and
  presence, and `stamp` (the `%Y%m%d%H%M%S` text) for backup names. The model
  does not relate the two readings. `ultimo_update` is a clock reading, not
  arbitrary caller text.
- One handler reads the clock several times: for the row's `ultimo_update`,
  for the ledger's `fecha` and again in `update_last_update`. These reads can
  fall in different seconds. The model uses one reading `now` for all of them.
- `Api.Server.UpdateLastUpdate` and every handler that bumps the version
  (`PostItem`, `PutItem`, `DeleteItem`, `PostSell`, `PostReturn`, `Restore`):
  they require a clock reading no earlier than the current version, and prove
  that the version never decreases under that requirement. `datetime.utcnow()`
  can go back, for example when the system clock is set back. The code's
  version then decreases, and the model does not cover that case.
- File I/O failures in backup and restore (answered with 500 or an error
  dialog), including the undefined state after a failed overwrite. Path
  handling of `os.path.join` with a selection that contains separators is also
  left out.
- `Api.Server.DownloadBackup`, `Api.Server.Restore`: a name that denotes a
  directory, such as `.` or `..`, passes the `os.path.exists` check. In
  download, `send_file` then raises and Flask answers 500, where the model
  answers 404. In restore, the copy of the selection raises after the safety
  copy is written, and the connection stays closed; the model reports the
  file as not found. The model's directory holds only files. The backups directory is a map from file name to content, and a
  missing directory is an empty map.
- Flask routing, `jsonify`, CORS and the bytes that `send_file` streams.
  `local_copy` is answered as the file name, without the directory.
- The messages that the handlers and `update_last_update` write to the log.
  The log buffer is modelled on its own (`Logging.EventLog`), and the log-file
  write is modelled as always succeeding. `clear_logs`, which empties both, is
  part of the console and not modelled.
- The console GUI (`ServerGUI`): the refresh loop, clearing and exporting
  logs, exporting the database, the API-key dialogs (`write_api_key`,
  `ensure_api_key_on_start`) and exit. `get_local_ip` and `run_flask_app`.
  The restore dialog's prompts are reduced to the selection and a
  confirmation flag. The stored key never changes in the model.
- The client application (Tkinter and HTTP calls).
- `Records.GetAll`: returns the active rows as a map, so the order of the
  result list is not stated.
- `Api.Server.GetClientsSnapshot`: does not state the order of the entries,
  which in Python follows dict insertion order. Times are integer seconds, so
  the truncation by `int()` is exact.
