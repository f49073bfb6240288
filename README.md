# Car market: the local replica store

A model of the core of a small offline-first car market. Users register, add
cars to their account, list, edit and delete them, and start a
synchronisation, which checks the local conflict tables and records the
local time; it contacts no server. Each use case is a guarded call on a
local sqlite file. The file holds three "local" tables (users, cars and the
user–car link), each row carrying the provenance flags `isOnServer`,
`isModified` and `isActive`. It also holds three "conflict" tables, which
createTables creates and the sync service reads (nothing in the modelled
code writes them), and a `SyncProperties` table for the last
synchronisation time.

The project has one module per source file:

- `Schema` (`schema.dfy`): the table definitions of `src/database.schema.js`, as data.
- `Store` (`store.dfy`): `src/database.js`. `LocalStore` is the sqlite file: one
  `seq` field per table, the set of tables created so far, the number of
  connections opened and not yet closed, and a journal of calls to store
  methods the repository does not define. `Database` is the JavaScript object
  that holds the configuration and reaches that file. Every statement is
  specified by a function on the tables (`InsertUserRows`, `CarsOfUser`,
  `UpdatedCars`, …). Whole-store transitions (`AddUserState`, `AddCarState`,
  `UpdateCarState`) state each method's complete new state through
  `LocalStore.Snapshot()`. `LocalStore.Valid()` is the schema's primary keys,
  and every method preserves it.
- `Listing` (`listing.dfy`): the car listing text both front ends print.
- `Sync` (`sync.dfy`): `src/SyncService.js`, the conflict gate before a synchronisation.
- `Market` (`market.dfy`): `src/CarMarket.js`, the use cases with console output for `getCars`.
- `MarketSync` (`market_sync.dfy`): `src/CarMarketSync.js`, the newer front end.
- `Server` (`server.dfy`): the request-path builder of `src/server.js`, with
  `encodeURIComponent` written out as the ECMAScript language specification
  defines it: unreserved characters are kept, and every other code point
  becomes its UTF-8 bytes as `%XY`.
- `Text` (`text.dfy`) and `Common` (`common.dfy`) are helpers: `join`/`split`
  on one separator, and `Option`.

Promises are modelled by their settled outcome. A write chain
(`insertAsyncSQL`, `updateCar`) logs the first failing statement, closes the
handle and resolves; it never rejects. The generated car id (`uuid/v4`) and
the local clock (`new Date().getTime()`) are parameters of the methods that
use them.

The code differs from what its names suggest in places, and the model follows
the code:

- `getCar` reads with `db.all` and so answers with a list. A list is truthy
  even when empty. As a result `CarMarket.checkCar` is always true, `editCar`
  always issues its UPDATE, and both `deleteCar` methods always request the
  deletion.
- `addUser` calls `executeAsyncSQL`, which `Database` does not define. Both
  `register` methods call it for a new name: the INSERT takes effect, then
  `register` rejects with a TypeError before printing "has been
  registered", and the connection stays open. The front ends are modelled
  with this behaviour (see "## Findings" for the corrected `addUser`).
- `CarMarketSync.userRegistered` is true when the user is *absent*, and
  `logUser` returns that answer without looking at the password.
- `SyncService.checkConflicts` joins the three table counts with `&&`. A
  synchronisation is therefore blocked only when all three conflict tables
  are non-empty.
- The synchronisation time written is the local clock, not a value from a server.
- `LocalUserOwnCar` has no primary key, and sqlite does not enforce foreign
  keys unless asked to. A repeated link lists its car twice, and a link may
  name a car or user that does not exist.

## Model

| member | source | states |
|---|---|---|
| Schema.ColumnNames | src/database.schema.js:9-54 | the column names of a table definition, one per column, in declaration order |
| Schema.LocalTablesEndWithFlags | src/database.schema.js:15-20 | every local table is its payload followed by isOnServer, isModified, isActive as its last three columns |
| Schema.ConflictTablesHoldOnlyKeyAndActive | src/database.schema.js:11-14 | conflict tables hold only key columns (and the password for users) and isActive, never isOnServer or isModified |
| Schema.PrimaryKeys | src/database.schema.js:37-53 | users are keyed by username, cars by uuid, conflicting links by (user, carId); LocalUserOwnCar has no primary key |
| Schema.LinkForeignKeysReferenceLocalTables | src/database.schema.js:44-53 | both link tables reference LocalUsers.username and LocalCars.uuid, which are those tables' keys |
| Schema.TableOrder | src/database.schema.js:4-7 | SyncProperties has the single INT column lastSync; `tables` lists Users, Cars, UserOwnCar in that order |
| Schema.CreatedNamesMatchStatements | src/database.js:30-33 | the name createTables prints for each table (Local/Conflict + entry name) is the table its statement creates |
| Store.InsertUserRows | src/database.js:83 | after the INSERT the name is registered; the table is the old rows plus the new row exactly when the name was free; the username key keeps holding |
| Store.InsertCarRows | src/database.js:93 | after the INSERT the uuid exists; the table is the old rows plus the new row exactly when the uuid was free; the uuid key keeps holding |
| Store.AddUserState | src/database.js:79-86 | after addUser's INSERT the name is registered, and every key of the store still holds |
| Store.AddUserAsWrittenState | src/database.js:79-86 | addUser as written: the name is registered, one more handle is open, and every key still holds |
| Store.AddCarState | src/database.js:88-98 | after addCar the uuid exists and a link of the user points at it, and every key still holds |
| Store.UpdateCarState | src/database.js:112-123 | updateCar keeps the number of cars and every key of the store |
| Store.FindUser | src/database.js:65-77 | `db.get` by username finds a row exactly when one has that name, and the row found has that name |
| Store.CarsWithUuid | src/database.js:106-110 | `SELECT * FROM LocalCars WHERE uuid = ?` returns exactly the rows with that uuid |
| Store.UpdatedCars | src/database.js:112-123 | the UPDATE keeps the number of rows and rewrites exactly the rows with the uuid to the new model, value and flags (0, 1, 1) |
| Store.FirstFailure | src/database.js:125-132 | a write chain logs nothing exactly when every statement succeeded, and otherwise logs the first failing statement's error |
| Store.InsertTuplesFitSchema | src/database.js:83-94 | each positional INSERT binds one value per column, the k-th value for the k-th column of the schema |
| Store.LocalWriteTuple | src/database.js:83 | the constants `0, 1, 1` of addUser's INSERT land in isOnServer, isModified and isActive |
| Store.FindUserAppend | src/database.js:65-77 | reading a user after an INSERT: an existing user's row is unchanged; otherwise the new row is found if it has the name |
| Store.InsertedUserLookup | src/database.js:79-86 | an INSERT never overwrites a user: the lookup gives the old row when it existed, the new row otherwise |
| Store.KeyedLookupAtMostOne | src/database.js:106-110 | with uuid as the key, getCar's list holds at most one row, and exactly one when the car exists |
| Store.NoneWithAbsentUuid | src/database.js:106-110 | getCar's list is empty for an unknown uuid |
| Store.CarsWithUuidAppend | src/database.js:88-98 | after a car INSERT, the lookup by uuid is the old lookup plus the new row when the uuid matches |
| Store.CarsOfUser | src/database.js:100-104 | the join `LocalCars, LocalUserOwnCar` lists a car exactly when it is in LocalCars and some link of the user points at its uuid |
| Store.CarsOfUserNewLink | src/database.js:88-104 | a new link appends the cars it points at to the user's listing, or nothing for another user |
| Store.CarsOfUserUnlinkedCar | src/database.js:88-104 | a car no link points at does not change any user's listing |
| Store.AddedCarIsListed | src/database.js:88-104 | after addCar with a fresh uuid, the user's listing is the old listing followed by the new car with flags (0, 1, 1) |
| Store.CarsOfUserLength | src/database.js:100-104 | the listing has one entry per link of the user whose car exists, so duplicate links repeat a car |
| Store.UpdateKeepsKeys | src/database.js:112-123 | updateCar keeps LocalCars keyed by uuid |
| Store.UpdateOfAbsentCar | src/database.js:112-123 | updating an unknown uuid changes no row and creates none |
| Store.UpdateIdempotent | src/database.js:112-123 | updating twice with the same details is the same as updating once |
| Store.UpdatedCarReadBack | src/database.js:106-123 | after updateCar of an existing car, getCar returns exactly that car with the new details and flags (0, 1, 1) |
| Store.StatementsOfTables | src/database.js:29-33 | createTables issues six table statements: Local before Conflict for Users, Cars, UserOwnCar |
| Store.TableNames | src/database.js:24-39 | every issued statement's table is among the created names |
| Store.TableNamesExactly | src/database.js:24-39 | a name is among the created names exactly when some issued statement creates it |
| Store.CreatedTableNames | src/database.js:24-39 | createTables creates exactly seven tables: SyncProperties and the Local and Conflict table of Users, Cars and UserOwnCar |
| Store.LocalStore.Open | src/database.js:52-63 | opening a connection adds one open handle |
| Store.LocalStore.Close | src/database.js:125-132 | closing releases one open handle |
| Store.LocalStore.CreateTable | src/database.js:41-44 | `CREATE TABLE if not exists` adds the table name and leaves existing tables alone |
| Store.LocalStore.InsertUser | src/database.js:83 | the INSERT appends the row or, on a taken username, fails with a key violation and leaves the table unchanged; keys preserved |
| Store.LocalStore.InsertCar | src/database.js:93 | the same for LocalCars keyed by uuid |
| Store.LocalStore.InsertLink | src/database.js:94 | a link is always appended, since the link table has no key and foreign keys are not enforced |
| Store.LocalStore.UpdateCars | src/database.js:115-117 | LocalCars becomes UpdatedCars of the old table; keys preserved |
| Store.Database.constructor | src/database.js:12-14 | the object keeps its configuration |
| Store.Database.GetDataBasePath | src/database.js:16-18 | the path is config.path immediately followed by config.name, with no separator added |
| Store.Database.CreateTables | src/database.js:24-39 | SyncProperties first, then the statements of `tables` (six, by StatementsOfTables); exactly their names are added to the created tables |
| Store.Database.CreateEach | src/database.js:29-34 | the `forEach` issues each entry's Local, then its Conflict statement, in list order, and creates exactly those tables |
| Store.Database.InsertAsyncSQL | src/database.js:125-132 | the first failure is logged, not rethrown, and the handle is closed |
| Store.Database.GetUser | src/database.js:65-77 | a row is returned exactly when the username is registered, and it is that user's row |
| Store.Database.AddUser | src/database.js:79-86 | corrected addUser: the new store is AddUserState; a taken name is logged as a LocalUsers key violation; the handle is closed |
| Store.Database.AddUserAsWritten | src/database.js:79-86 | addUser as written: the INSERT takes effect, the call then fails because executeAsyncSQL is not a function, and the handle stays open |
| Store.Database.AddCar | src/database.js:88-98 | the car object receives the uuid; the new store is AddCarState; a taken uuid is logged as a LocalCars key violation |
| Store.Database.GetCarsFromUser | src/database.js:100-104 | the rows are the join of the user's links with LocalCars; a car appears iff a link of the user points at it |
| Store.Database.GetCar | src/database.js:106-110 | at most one row; non-empty exactly when the car exists; its rows are the cars with that uuid |
| Store.Database.UpdateCar | src/database.js:112-123 | the new store is UpdateCarState; errors are swallowed and the handle is closed |
| Store.Database.GetConflictsUsers | src/SyncService.js:18 | the ConflictUsers rows |
| Store.Database.GetConflictsCars | src/SyncService.js:20 | the ConflictCars rows |
| Store.Database.GetConflictsConflictUserOwnCar | src/SyncService.js:22 | the ConflictUserOwnCar rows |
| Store.Database.DeleteCar | src/CarMarket.js:94 | the deletion request is journaled; keys preserved |
| Store.Database.DeleteUser | src/CarMarket.js:103 | the deletion request is journaled; keys preserved |
| Store.Database.SetDateTimeFromServer | src/SyncService.js:33 | the time written is journaled; keys preserved |
| Store.CarObject.constructor | src/database.js:88-90 | a car object starts without a uuid |
| Listing.Lines | src/CarMarket.js:65-67 | one ` - model : value : uuid` line per car, the i-th for the i-th car |
| Listing.BuildListing | src/CarMarket.js:63-68 | the loop appends, car by car, a line break and the car's line to the header `Cars founded:` |
| Listing.ListingLines | src/CarMarket.js:63-68 | when no field holds a line break, the listing splits at '\n' into the header and one ` - model : value : uuid` line per car, in query order |
| Sync.BlocksSync | src/SyncService.js:16-25 | conflicts block exactly when there is a conflicting user, a conflicting car and a conflicting link at once |
| Sync.SyncCalls | src/SyncService.js:27-35 | a synchronisation writes the time at most once, not at all exactly when the conflicts block, and otherwise writes `now` |
| Sync.SingleKindOfConflictDoesNotBlock | src/SyncService.js:24 | user conflicts alone (no car or no link conflicts) do not block the write |
| Sync.GateReadsOnlyConflictTables | src/SyncService.js:16-25 | two stores with the same conflict tables get the same gate and the same message |
| Sync.SyncService.constructor | src/SyncService.js:7-14 | the service keeps the configuration and a database over the same store |
| Sync.SyncService.CheckConflicts | src/SyncService.js:16-25 | true exactly when all three conflict tables are non-empty |
| Sync.SyncService.Synchronize | src/SyncService.js:27-35 | prints the gate's message; the time is written exactly when not blocked; a blocked run changes nothing |
| Market.RegisterState | src/CarMarket.js:39-47 | after register the name is registered and every key still holds; one handle more is open exactly when the name was new (addUser as written) |
| Market.AddCarForUser | src/CarMarket.js:49-57 | the uuid exists afterwards exactly when it existed or the user is registered; every key still holds |
| Market.CarsReport | src/CarMarket.js:59-75 | two lines for a registered user, one otherwise; the second says "No cars founded." exactly when the user has no listed car |
| Market.RegisterKeepsExistingAccount | src/CarMarket.js:39-47 | after register the name is registered, with the old row when it existed and the given password otherwise |
| Market.RegisterIdempotent | src/CarMarket.js:39-47 | registering the same name again, with any password, changes nothing |
| Market.AddedCarIsReported | src/CarMarket.js:49-57 | a car added for a registered user under a fresh uuid becomes the last car of that user's listing; for an unregistered user nothing changes |
| Market.CarsReportLines | src/CarMarket.js:59-75 | for a registered user with cars, the report has two lines and the second splits into the header and one line per car |
| Market.CarMarket.constructor | src/CarMarket.js:9-17 | a missing configuration falls back to the settings; market, database and sync share one configuration and one store |
| Market.CarMarket.Load | src/CarMarket.js:19-27 | a missing configuration is the error "Error. No configuration founded." and changes nothing; otherwise new database and sync objects over the store |
| Market.CarMarket.CheckUser | src/CarMarket.js:29-32 | true exactly when the user is registered |
| Market.CarMarket.CheckCar | src/CarMarket.js:34-37 | always true, for a known uuid or not |
| Market.CarMarket.Register | src/CarMarket.js:39-47 | an existing user is left alone and register returns normally; a new name is inserted, one handle is left open, and register rejects with addUser's "executeAsyncSQL is not a function" |
| Market.CarMarket.AddCar | src/CarMarket.js:49-57 | the car and its link are added, and the car object gets the uuid, only for a registered user |
| Market.CarMarket.GetCars | src/CarMarket.js:59-75 | the printed lines are CarsReport: not registered; or the obtaining line, then the listing built car by car or "No cars founded." |
| Market.CarMarket.EditCar | src/CarMarket.js:77-89 | the UPDATE is always issued: the new store is UpdateCarState |
| Market.CarMarket.DeleteCar | src/CarMarket.js:91-99 | the deletion is always requested |
| Market.CarMarket.DeleteUser | src/CarMarket.js:101-108 | the deletion is requested for a registered user; otherwise nothing changes |
| Market.CarMarket.Synchronize | src/CarMarket.js:110-114 | delegates to the sync service: its message and its single conditional time write |
| MarketSync.NameAvailable | src/CarMarketSync.js:24-27 | a name is available exactly when getUser finds no row for it |
| MarketSync.RegisterState | src/CarMarketSync.js:34-42 | after register the name is no longer available and every key still holds; one handle more is open exactly when the name was available (addUser as written) |
| MarketSync.CarsReport | src/CarMarketSync.js:57-72 | two lines for a registered user, one otherwise; the second says "No cars founded." exactly when the user has no listed car |
| MarketSync.RegisteredNameIsTaken | src/CarMarketSync.js:24-42 | after register the name is no longer available; a new user's row carries the given password |
| MarketSync.CarMarketSync.constructor | src/CarMarketSync.js:9-17 | a missing configuration falls back to the default configuration |
| MarketSync.CarMarketSync.Load | src/CarMarketSync.js:19-22 | no check: the configuration is kept and a new database is made over the store |
| MarketSync.CarMarketSync.UserRegistered | src/CarMarketSync.js:24-27 | true exactly when the user is absent |
| MarketSync.CarMarketSync.LogUser | src/CarMarketSync.js:29-32 | the answer is whether the name is available; the password plays no part |
| MarketSync.CarMarketSync.Register | src/CarMarketSync.js:34-42 | a taken name is left alone and register returns normally; an available name is inserted, one handle is left open, and register rejects with addUser's TypeError |
| MarketSync.CarMarketSync.AddCar | src/CarMarketSync.js:44-55 | the car is added under the credentials' username only when that user exists |
| MarketSync.CarMarketSync.GetCars | src/CarMarketSync.js:57-72 | the printed lines: not registered; or the obtaining line and the listing or "No cars founded." |
| MarketSync.CarMarketSync.EditCar | src/CarMarketSync.js:74-81 | the UPDATE is issued without any existence check |
| MarketSync.CarMarketSync.DeleteCar | src/CarMarketSync.js:83-91 | the deletion is always requested |
| MarketSync.CarMarketSync.DeleteUser | src/CarMarketSync.js:93-101 | the deletion is requested only when the user is found; otherwise nothing changes |
| Server.Utf8 | src/server.js:22-24 | a code point is one to four UTF-8 bytes |
| Server.Escape | src/server.js:22-24 | one byte becomes '%' and two upper-case hexadecimal digits |
| Server.PercentEncode | src/server.js:22-24 | three characters per byte, each '%' or a hexadecimal digit |
| Server.EncodeURIComponent | src/server.js:22-24 | the encoding consists only of unreserved characters and '%' escapes |
| Server.EncodedHasNoSlash | src/server.js:22-24 | the encoder never emits '/' |
| Server.BaseEndsInSeparator | src/server.js:21 | the base ends in '/'; it is the path itself exactly when the path already ends in '/', and path + "/" otherwise |
| Server.Segments | src/server.js:22-24 | the encoded name and profiles, and the encoded label only when it is truthy: 2 or 3 segments, none holding '/' |
| Server.ConcatenationIsJoin | src/server.js:21-24 | the concatenation getPath writes is the base followed by the segments joined by '/' |
| Server.GetPath | src/server.js:18-25 | the path is the base followed by the segments joined by '/', and splitting what follows the base at '/' gives the segments back |
| Server.BuildProfilesString | src/server.js:8-16 | only an array can give an empty profiles string; an array of comma-free names is recovered by splitting the string at ',' |
| Server.ProfilesDefault | src/server.js:8-16 | falsy profiles (absent or empty) give "default"; a non-empty profile string is used unchanged |
| Text.Split | src/server.js:12-14 | `split` gives at least one part and no part holds the separator |
| Text.SplitJoin | src/server.js:12-14 | splitting a join of separator-free items gives the items back |

## Left out

- I/O is left out: the sqlite driver, the file-system check in `existsDB`, `initialize`, `getDataBaseInstance`, the `debug` and `console.error` logging, and the console messages of the use cases other than `getCars` and `synchronize`.
- Asynchrony is left out. Each `await` is taken to settle before the next statement, and sqlite runs a connection's statements in the order issued.
- Store.Database.GetCarsFromUser: the join order is taken as links outside and cars inside. SQL leaves the order unspecified without ORDER BY.
- Reads (`getUser`, `getAsyncSQL`) return the query promise, so a failed read is rethrown to the caller. On the in-memory tables of the model a SELECT cannot fail, so that path is not modelled.
- The error path of `createTables` (log, then `throw new Error(error)`) is not modelled. `CREATE TABLE if not exists` on the model's tables cannot fail.
- Store.Database.DeleteCar: `deleteCar` is not defined in `src/database.js`. The call is journaled, and nothing is stated about the tables.
- Store.Database.DeleteUser: `deleteUser` is not defined in `src/database.js`. The call is journaled, and nothing is stated about the tables.
- Store.Database.SetDateTimeFromServer: `setDateTimeFromServer` is not defined in `src/database.js`. The call is journaled, and the `SyncProperties` row it would write is not modelled.
- Store.Database.GetConflictsUsers: not defined in `src/database.js`. It is taken to return the whole ConflictUsers table, and likewise GetConflictsCars and GetConflictsConflictUserOwnCar for their tables.
- `lastSynchronization` in `src/CarMarket.js` is left out. It calls `getLastSynchronization`, which is not defined, and formats a `Date` with `toUTCString`. `getAllUsers` is not called by the modelled code.
- The `server.mock` branch of the `SyncService` constructor is left out. `conf/settings.js` has no `server` entry, so reading `config.server.mock` would throw. The model's configuration holds only the database part.
- `conf/default.json`, which `CarMarketSync` loads by default, is not part of this model. Both constructors take the default configuration as a parameter. `conf/settings.js` exports the entry named by `NODE_ENV` (`develop` by default) out of three: `Market.DevelopSettings` and `Market.TestSettings` model the first two. The third, `production`, is an empty object with no `database` part, and is not modelled. The `test` database name there is written `:memory:,`, with a trailing comma.
- `src/CarMarket.js` requires `./Database`, while the file is `database.js`. Module resolution is outside the model.
- The use cases' messages that interpolate `car.model` of getCar's list (`editCar`'s old and new details) and addCar's `Id <undefined>` are console output and are not modelled.
- The network part of `src/server.js` (`requestWithCallback`, `requestWithPromise`, `request`), `src/items.js`, `app.js`, `launch.js` and the command line are I/O and are left out.
- Server.EncodeURIComponent: a lone surrogate, on which JavaScript throws a URIError, is not modelled. Dafny's `char` is a Unicode scalar value.
- Server.BuildProfilesString: only absent values, strings and arrays of strings are modelled as `profiles`. Other falsy values such as `0`, `false` and `null` behave like an absent value. Non-string array elements are not modelled.

## Findings

| source | as written | input that shows it | evidently intended | confidence | as-written member | corrected member |
|---|---|---|---|---|---|---|
| src/database.js:79-86 | `addUser` calls `this.executeAsyncSQL`, which Database does not define. Its arguments are evaluated first, so the INSERT is issued, then the call throws a TypeError and the connection is never closed | `register("ana", "pw")` on an empty store: LocalUsers gains the row, the promise rejects with "executeAsyncSQL is not a function", and one handle stays open | settle the INSERT with `insertAsyncSQL`, as `addCar` does: log a key violation and close the handle | not executed | Store.Database.AddUserAsWritten | Store.Database.AddUser |

The front ends (`Market.CarMarket.Register`, `MarketSync.CarMarketSync.Register`)
call `Store.Database.AddUserAsWritten`, so the model keeps the rejection and the
open connection that `register` shows today. `Store.Database.AddUser` is the
intended `addUser`: it leaves the store in `Store.AddUserState` and closes its
connection, and `Market.RegisterState`'s store differs from that state only in
the count of open connections.
