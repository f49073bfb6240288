/** The local replica store of src/database.js: the LocalUsers, LocalCars and
    LocalUserOwnCar tables with their provenance flags, the three Conflict
    tables, and the Database object's operations on them. */
module Store {
  import opened Common
  import opened Schema

  /** The provenance columns isOnServer, isModified, isActive. */
  datatype Flags = Flags(isOnServer: int, isModified: int, isActive: int)

  /** What every local INSERT and UPDATE of database.js writes:
      not on the server, modified, active. */
  const LocalWrite: Flags := Flags(0, 1, 1)

  datatype UserRow = UserRow(username: string, password: string, flags: Flags)
  datatype CarRow = CarRow(uuid: string, model: string, value: string, flags: Flags)
  datatype LinkRow = LinkRow(user: string, carId: string, flags: Flags)
  datatype ConflictUserRow = ConflictUserRow(username: string, password: string, isActive: int)
  datatype ConflictCarRow = ConflictCarRow(uuid: string, isActive: int)
  datatype ConflictLinkRow = ConflictLinkRow(user: string, carId: string, isActive: int)

  /** The `newDetails` object given to updateCar. */
  datatype CarDetails = CarDetails(uuid: string, model: string, value: string)

  /** The `database` entry of a configuration: where the sqlite file lives. */
  datatype DbConfig = DbConfig(path: string, name: string)

  /** A configuration object; only its `database` entry is read by the core. */
  datatype Config = Config(database: DbConfig)

  datatype SqlError = PrimaryKeyViolation(table: string)

  /** How one SQL statement settled. */
  datatype StatementResult = Done | Failed(error: SqlError)

  /** The TypeError JavaScript raises when a member that is not a function is called. */
  datatype Rejection = NotAFunction(member: string)

  /** A call to a Database method that src/database.js does not define. */
  datatype ForeignCall =
    | DeleteCarCall(carId: string)
    | DeleteUserCall(username: string)
    | SetDateTimeFromServerCall(time: int)

  /** Everything the store holds, as one value. */
  datatype StoreState = StoreState(
    users: seq<UserRow>,
    cars: seq<CarRow>,
    links: seq<LinkRow>,
    conflictUsers: seq<ConflictUserRow>,
    conflictCars: seq<ConflictCarRow>,
    conflictLinks: seq<ConflictLinkRow>,
    created: set<string>,
    openHandles: nat,
    foreignCalls: seq<ForeignCall>)

  // ---------------------------------------------------------------------
  // Keys

  predicate HasUser(rows: seq<UserRow>, username: string)
  {
    exists i :: 0 <= i < |rows| && rows[i].username == username
  }

  predicate HasCar(rows: seq<CarRow>, uuid: string)
  {
    exists i :: 0 <= i < |rows| && rows[i].uuid == uuid
  }

  /** `username TEXT PRIMARY KEY`: no two LocalUsers rows share a username. */
  predicate UsersKeyed(rows: seq<UserRow>)
  {
    forall i, j :: 0 <= i < j < |rows| ==> rows[i].username != rows[j].username
  }

  /** `uuid TEXT PRIMARY KEY`: no two LocalCars rows share a uuid. */
  predicate CarsKeyed(rows: seq<CarRow>)
  {
    forall i, j :: 0 <= i < j < |rows| ==> rows[i].uuid != rows[j].uuid
  }

  predicate ConflictUsersKeyed(rows: seq<ConflictUserRow>)
  {
    forall i, j :: 0 <= i < j < |rows| ==> rows[i].username != rows[j].username
  }

  predicate ConflictCarsKeyed(rows: seq<ConflictCarRow>)
  {
    forall i, j :: 0 <= i < j < |rows| ==> rows[i].uuid != rows[j].uuid
  }

  /** `PRIMARY KEY(user, carId)` of ConflictUserOwnCar. LocalUserOwnCar has
      no key, so nothing constrains its rows. */
  predicate ConflictLinksKeyed(rows: seq<ConflictLinkRow>)
  {
    forall i, j :: 0 <= i < j < |rows| ==>
      (rows[i].user, rows[i].carId) != (rows[j].user, rows[j].carId)
  }

  /** Every primary key of the schema holds. */
  predicate Keyed(s: StoreState)
  {
    && UsersKeyed(s.users)
    && CarsKeyed(s.cars)
    && ConflictUsersKeyed(s.conflictUsers)
    && ConflictCarsKeyed(s.conflictCars)
    && ConflictLinksKeyed(s.conflictLinks)
  }

  // ---------------------------------------------------------------------
  // Statements as functions on table contents

  /** INSERT INTO LocalUsers: the row is appended, or refused when its key is taken. */
  function InsertUserRows(rows: seq<UserRow>, row: UserRow): (r: seq<UserRow>)
    ensures HasUser(r, row.username)
    ensures forall u :: u in r <==> u in rows || (u == row && !HasUser(rows, row.username))
    ensures UsersKeyed(rows) ==> UsersKeyed(r)
  {
    if HasUser(rows, row.username) then rows
    else
      assert (rows + [row])[|rows|] == row;
      rows + [row]
  }

  /** INSERT INTO LocalCars: the row is appended, or refused when its key is taken. */
  function InsertCarRows(rows: seq<CarRow>, row: CarRow): (r: seq<CarRow>)
    ensures HasCar(r, row.uuid)
    ensures forall c :: c in r <==> c in rows || (c == row && !HasCar(rows, row.uuid))
    ensures CarsKeyed(rows) ==> CarsKeyed(r)
  {
    if HasCar(rows, row.uuid) then rows
    else
      assert (rows + [row])[|rows|] == row;
      rows + [row]
  }

  /** How an INSERT into a keyed table settles. */
  function InsertResult(duplicate: bool, table: string): StatementResult
  {
    if duplicate then Failed(PrimaryKeyViolation(table)) else Done
  }

  /** `SELECT * FROM LocalUsers WHERE username = ?` read with `db.get`:
      the first matching row, if any. */
  function FindUser(rows: seq<UserRow>, username: string): (r: Option<UserRow>)
    ensures r.Some? <==> HasUser(rows, username)
    ensures r.Some? ==> r.value in rows && r.value.username == username
  {
    if rows == [] then None
    else if rows[0].username == username then Some(rows[0])
    else
      var r := FindUser(rows[1..], username);
      assert r.Some? ==> r.value in rows[1..] && r.value in rows;
      assert HasUser(rows[1..], username) ==> HasUser(rows, username) by {
        if HasUser(rows[1..], username) {
          var i :| 0 <= i < |rows| - 1 && rows[1..][i].username == username;
          assert rows[i + 1].username == username;
        }
      }
      r
  }

  /** `SELECT * FROM LocalCars WHERE uuid = ?` read with `db.all`: every
      matching row, in table order. */
  function CarsWithUuid(rows: seq<CarRow>, uuid: string): (r: seq<CarRow>)
    ensures forall c :: c in r <==> c in rows && c.uuid == uuid
  {
    if rows == [] then []
    else
      var rest := CarsWithUuid(rows[1..], uuid);
      assert forall c :: c in rows <==> c == rows[0] || c in rows[1..];
      if rows[0].uuid == uuid then [rows[0]] + rest else rest
  }

  /** `SELECT LocalCars.* FROM LocalCars, LocalUserOwnCar WHERE
      LocalUserOwnCar.user = ? AND LocalUserOwnCar.carId = LocalCars.uuid`,
      evaluated as a nested loop with the link table outside: for each link
      of `user`, in table order, the cars it points to. */
  function CarsOfUser(links: seq<LinkRow>, cars: seq<CarRow>, user: string): (r: seq<CarRow>)
    ensures forall c :: c in r <==> c in cars && LinkedTo(links, user, c.uuid)
  {
    if links == [] then []
    else
      var init := links[..|links| - 1];
      var last := links[|links| - 1];
      var r := CarsOfUser(init, cars, user)
        + (if last.user == user then CarsWithUuid(cars, last.carId) else []);
      assert forall c :: c in r <==> c in cars && LinkedTo(links, user, c.uuid) by {
        forall c ensures c in r <==> c in cars && LinkedTo(links, user, c.uuid) {
          assert LinkedTo(init, user, c.uuid) ==> LinkedTo(links, user, c.uuid) by {
            if LinkedTo(init, user, c.uuid) {
              var k :| 0 <= k < |init| && init[k].user == user && init[k].carId == c.uuid;
              assert links[k] == init[k];
            }
          }
          if LinkedTo(links, user, c.uuid) && !(last.user == user && last.carId == c.uuid) {
            var k :| 0 <= k < |links| && links[k].user == user && links[k].carId == c.uuid;
            assert k < |init| && init[k] == links[k];
          }
        }
      }
      r
  }

  /** Some link of `user` points at the car with `uuid`. */
  predicate LinkedTo(links: seq<LinkRow>, user: string, uuid: string)
  {
    exists k :: 0 <= k < |links| && links[k].user == user && links[k].carId == uuid
  }

  /** One row of LocalCars after the UPDATE of updateCar. */
  function UpdatedRow(row: CarRow, d: CarDetails): CarRow
  {
    if row.uuid == d.uuid then CarRow(d.uuid, d.model, d.value, LocalWrite) else row
  }

  /** `UPDATE LocalCars SET model = ?, value = ?, isOnServer = 0, isModified = 1,
      isActive = 1 WHERE uuid = ?`: the matching rows get the new details and
      the local-write flags, every other row stays as it was, none is added. */
  function UpdatedCars(rows: seq<CarRow>, d: CarDetails): (r: seq<CarRow>)
    ensures |r| == |rows|
    ensures forall i :: 0 <= i < |rows| ==> r[i] == UpdatedRow(rows[i], d)
  {
    if rows == [] then [] else [UpdatedRow(rows[0], d)] + UpdatedCars(rows[1..], d)
  }

  /** What `Promise.all(statements)` rejects with: the first failing statement's
      error (sqlite runs a connection's statements in the order issued). */
  function FirstFailure(results: seq<StatementResult>): (e: Option<SqlError>)
    ensures e.None? <==> forall i :: 0 <= i < |results| ==> results[i].Done?
    ensures e.Some? ==> exists i :: 0 <= i < |results| && results[i] == Failed(e.value)
                                    && forall j :: 0 <= j < i ==> results[j].Done?
  {
    if results == [] then None
    else if results[0].Failed? then Some(results[0].error)
    else
      var e := FirstFailure(results[1..]);
      assert e.Some? ==> exists i :: 1 <= i < |results| && results[i] == Failed(e.value)
                                    && forall j :: 0 <= j < i ==> results[j].Done? by {
        if e.Some? {
          var k :| 0 <= k < |results| - 1 && results[1..][k] == Failed(e.value)
                   && forall j :: 0 <= j < k ==> results[1..][j].Done?;
          assert forall j :: 1 <= j < k + 1 ==> results[j] == results[1..][j - 1];
        }
      }
      e
  }

  // ---------------------------------------------------------------------
  // Whole-store transitions

  /** The row addUser inserts: `VALUES (?, ?, 0, 1, 1)`. */
  function NewUserRow(username: string, password: string): UserRow
  {
    UserRow(username, password, LocalWrite)
  }

  /** The store after addUser's INSERT. */
  function AddUserState(s: StoreState, username: string, password: string): (r: StoreState)
    ensures HasUser(r.users, username)
    ensures Keyed(s) ==> Keyed(r)
  {
    s.(users := InsertUserRows(s.users, NewUserRow(username, password)))
  }

  /** The store after addUser as written: the INSERT has taken effect and
      the handle opened for it is never closed. */
  function AddUserAsWrittenState(s: StoreState, username: string, password: string): (r: StoreState)
    ensures HasUser(r.users, username)
    ensures r.openHandles == s.openHandles + 1
    ensures Keyed(s) ==> Keyed(r)
  {
    AddUserState(s, username, password).(openHandles := s.openHandles + 1)
  }

  /** The store after addCar's two INSERTs with the generated id. */
  function AddCarState(s: StoreState, user: string, uuid: string, model: string, value: string): (r: StoreState)
    ensures HasCar(r.cars, uuid) && LinkedTo(r.links, user, uuid)
    ensures Keyed(s) ==> Keyed(r)
  {
    assert (s.links + [LinkRow(user, uuid, LocalWrite)])[|s.links|].carId == uuid;
    s.(cars := InsertCarRows(s.cars, CarRow(uuid, model, value, LocalWrite)),
       links := s.links + [LinkRow(user, uuid, LocalWrite)])
  }

  /** The store after updateCar's UPDATE. */
  function UpdateCarState(s: StoreState, d: CarDetails): (r: StoreState)
    ensures |r.cars| == |s.cars|
    ensures Keyed(s) ==> Keyed(r)
  {
    var r := s.(cars := UpdatedCars(s.cars, d));
    if Keyed(s) then UpdateKeepsKeys(s.cars, d); r else r
  }

  // ---------------------------------------------------------------------
  // The positional INSERT tuples against the schema's column order

  /** The values a positional `INSERT INTO LocalUsers VALUES (...)` binds for
      a row, each labelled with the row field it carries. */
  function UserTuple(r: UserRow): seq<(string, Value)>
  {
    [("username", TextValue(r.username)), ("password", TextValue(r.password)),
     ("isOnServer", IntValue(r.flags.isOnServer)), ("isModified", IntValue(r.flags.isModified)),
     ("isActive", IntValue(r.flags.isActive))]
  }

  function CarTuple(r: CarRow): seq<(string, Value)>
  {
    [("uuid", TextValue(r.uuid)), ("model", TextValue(r.model)), ("value", TextValue(r.value)),
     ("isOnServer", IntValue(r.flags.isOnServer)), ("isModified", IntValue(r.flags.isModified)),
     ("isActive", IntValue(r.flags.isActive))]
  }

  function LinkTuple(r: LinkRow): seq<(string, Value)>
  {
    [("user", TextValue(r.user)), ("carId", TextValue(r.carId)),
     ("isOnServer", IntValue(r.flags.isOnServer)), ("isModified", IntValue(r.flags.isModified)),
     ("isActive", IntValue(r.flags.isActive))]
  }

  /** A tuple fits a table when it has one value per column and the k-th value
      carries the field the k-th column is named after. */
  predicate FitsColumns(tuple: seq<(string, Value)>, t: TableSql)
  {
    |tuple| == |t.columns| && forall k :: 0 <= k < |tuple| ==> tuple[k].0 == t.columns[k].name
  }

  /** The three positional INSERTs of database.js rely on the schema's column
      order; their tuples fit the tables they go into. */
  lemma InsertTuplesFitSchema(u: UserRow, c: CarRow, l: LinkRow)
    ensures FitsColumns(UserTuple(u), Users.local)
    ensures FitsColumns(CarTuple(c), Cars.local)
    ensures FitsColumns(LinkTuple(l), UserOwnCar.local)
  {
  }

  /** `VALUES (?, ?, 0, 1, 1)`: the constants land in isOnServer, isModified
      and isActive, in that order. */
  lemma LocalWriteTuple(username: string, password: string)
    ensures UserTuple(NewUserRow(username, password))[2..] ==
      [("isOnServer", IntValue(0)), ("isModified", IntValue(1)), ("isActive", IntValue(1))]
  {
  }

  // ---------------------------------------------------------------------
  // What the statements guarantee

  /** db.get after an INSERT into LocalUsers: the first row with the name is
      unchanged when it existed, and is the new row otherwise. */
  lemma {:induction false} FindUserAppend(rows: seq<UserRow>, row: UserRow, username: string)
    ensures FindUser(rows + [row], username) ==
      if HasUser(rows, username) then FindUser(rows, username)
      else if row.username == username then Some(row) else None
    decreases |rows|
  {
    if rows != [] {
      assert (rows + [row])[1..] == rows[1..] + [row];
      FindUserAppend(rows[1..], row, username);
      if rows[0].username != username {
        assert HasUser(rows, username) == HasUser(rows[1..], username) by {
          if HasUser(rows, username) {
            var i :| 0 <= i < |rows| && rows[i].username == username;
            assert rows[1..][i - 1].username == username;
          }
          if HasUser(rows[1..], username) {
            var i :| 0 <= i < |rows| - 1 && rows[1..][i].username == username;
            assert rows[i + 1].username == username;
          }
        }
      }
    }
  }

  /** An INSERT never overwrites an existing user: looking the name up
      afterwards gives the old row when there was one, the new row otherwise. */
  lemma InsertedUserLookup(rows: seq<UserRow>, row: UserRow)
    ensures FindUser(InsertUserRows(rows, row), row.username) ==
      if HasUser(rows, row.username) then FindUser(rows, row.username) else Some(row)
  {
    FindUserAppend(rows, row, row.username);
  }

  /** With uuid as primary key, `getCar` finds at most one row, and finds one
      exactly when a car has that uuid. */
  lemma {:induction false} KeyedLookupAtMostOne(rows: seq<CarRow>, uuid: string)
    requires CarsKeyed(rows)
    ensures |CarsWithUuid(rows, uuid)| <= 1
    ensures |CarsWithUuid(rows, uuid)| == 1 <==> HasCar(rows, uuid)
    decreases |rows|
  {
    if rows != [] {
      KeyedLookupAtMostOne(rows[1..], uuid);
      if rows[0].uuid == uuid {
        assert forall k :: 0 <= k < |rows| - 1 ==> rows[1..][k].uuid != uuid by {
          forall k | 0 <= k < |rows| - 1 ensures rows[1..][k].uuid != uuid {
            assert rows[1..][k] == rows[k + 1];
          }
        }
        assert !HasCar(rows[1..], uuid);
        assert HasCar(rows, uuid);
      } else {
        assert HasCar(rows, uuid) == HasCar(rows[1..], uuid) by {
          if HasCar(rows, uuid) {
            var i :| 0 <= i < |rows| && rows[i].uuid == uuid;
            assert rows[1..][i - 1].uuid == uuid;
          }
          if HasCar(rows[1..], uuid) {
            var i :| 0 <= i < |rows| - 1 && rows[1..][i].uuid == uuid;
            assert rows[i + 1].uuid == uuid;
          }
        }
      }
    }
  }

  /** No car has the uuid: the lookup is empty. */
  lemma {:induction false} NoneWithAbsentUuid(rows: seq<CarRow>, uuid: string)
    requires !HasCar(rows, uuid)
    ensures CarsWithUuid(rows, uuid) == []
    decreases |rows|
  {
    if rows != [] {
      assert rows[0].uuid != uuid;
      assert !HasCar(rows[1..], uuid) by {
        forall k | 0 <= k < |rows| - 1 ensures rows[1..][k].uuid != uuid {
          assert rows[1..][k] == rows[k + 1];
        }
      }
      NoneWithAbsentUuid(rows[1..], uuid);
    }
  }

  /** Filtering a table with one more row. */
  lemma {:induction false} CarsWithUuidAppend(rows: seq<CarRow>, row: CarRow, uuid: string)
    ensures CarsWithUuid(rows + [row], uuid) ==
      CarsWithUuid(rows, uuid) + (if row.uuid == uuid then [row] else [])
    decreases |rows|
  {
    if rows != [] {
      assert (rows + [row])[1..] == rows[1..] + [row];
      CarsWithUuidAppend(rows[1..], row, uuid);
    }
  }

  /** The join after a new link: the old listing, then the cars of the new link. */
  lemma CarsOfUserNewLink(links: seq<LinkRow>, cars: seq<CarRow>, link: LinkRow, user: string)
    ensures CarsOfUser(links + [link], cars, user) ==
      CarsOfUser(links, cars, user) + (if link.user == user then CarsWithUuid(cars, link.carId) else [])
  {
    assert (links + [link])[..|links|] == links;
  }

  /** A car no link points at does not change the join. */
  lemma {:induction false} CarsOfUserUnlinkedCar(links: seq<LinkRow>, cars: seq<CarRow>, row: CarRow, user: string)
    requires forall k :: 0 <= k < |links| ==> links[k].carId != row.uuid
    ensures CarsOfUser(links, cars + [row], user) == CarsOfUser(links, cars, user)
    decreases |links|
  {
    if links != [] {
      var last := links[|links| - 1];
      CarsOfUserUnlinkedCar(links[..|links| - 1], cars, row, user);
      CarsWithUuidAppend(cars, row, last.carId);
    }
  }

  /** After addCar with an id no car and no link uses yet, the user's listing
      is the old listing followed by exactly the new car. */
  lemma AddedCarIsListed(s: StoreState, user: string, uuid: string, model: string, value: string)
    requires !HasCar(s.cars, uuid)
    requires forall k :: 0 <= k < |s.links| ==> s.links[k].carId != uuid
    ensures CarsOfUser(AddCarState(s, user, uuid, model, value).links,
                       AddCarState(s, user, uuid, model, value).cars, user)
            == CarsOfUser(s.links, s.cars, user) + [CarRow(uuid, model, value, LocalWrite)]
  {
    var row := CarRow(uuid, model, value, LocalWrite);
    var link := LinkRow(user, uuid, LocalWrite);
    var r := AddCarState(s, user, uuid, model, value);
    assert r.cars == s.cars + [row] && r.links == s.links + [link];
    CarsOfUserNewLink(s.links, s.cars + [row], link, user);
    CarsOfUserUnlinkedCar(s.links, s.cars, row, user);
    CarsWithUuidAppend(s.cars, row, uuid);
    NoneWithAbsentUuid(s.cars, uuid);
  }

  /** How many links of `user` point at a car that exists. */
  function LinkedCount(links: seq<LinkRow>, cars: seq<CarRow>, user: string): nat
  {
    if links == [] then 0
    else
      var last := links[|links| - 1];
      LinkedCount(links[..|links| - 1], cars, user)
        + (if last.user == user && HasCar(cars, last.carId) then 1 else 0)
  }

  /** LocalUserOwnCar has no key, so a repeated (user, carId) link lists the
      car once per link: the listing has one entry per link of `user` whose car exists. */
  lemma {:induction false} CarsOfUserLength(links: seq<LinkRow>, cars: seq<CarRow>, user: string)
    requires CarsKeyed(cars)
    ensures |CarsOfUser(links, cars, user)| == LinkedCount(links, cars, user)
    decreases |links|
  {
    if links != [] {
      var last := links[|links| - 1];
      CarsOfUserLength(links[..|links| - 1], cars, user);
      KeyedLookupAtMostOne(cars, last.carId);
    }
  }

  /** updateCar keeps every uuid, so the key holds afterwards. */
  lemma UpdateKeepsKeys(rows: seq<CarRow>, d: CarDetails)
    requires CarsKeyed(rows)
    ensures CarsKeyed(UpdatedCars(rows, d))
  {
    var r := UpdatedCars(rows, d);
    forall i, j | 0 <= i < j < |r| ensures r[i].uuid != r[j].uuid {
      assert r[i].uuid == rows[i].uuid && r[j].uuid == rows[j].uuid;
    }
  }

  /** No row matches: the UPDATE changes nothing and creates nothing. */
  lemma UpdateOfAbsentCar(rows: seq<CarRow>, d: CarDetails)
    requires !HasCar(rows, d.uuid)
    ensures UpdatedCars(rows, d) == rows
  {
    var r := UpdatedCars(rows, d);
    forall i | 0 <= i < |rows| ensures r[i] == rows[i] {
      assert rows[i].uuid != d.uuid;
    }
  }

  /** Updating twice with the same details is updating once. */
  lemma UpdateIdempotent(rows: seq<CarRow>, d: CarDetails)
    ensures UpdatedCars(UpdatedCars(rows, d), d) == UpdatedCars(rows, d)
  {
  }

  /** After updateCar on an existing uuid, getCar yields exactly the updated row. */
  lemma {:induction false} UpdatedCarReadBack(rows: seq<CarRow>, d: CarDetails)
    requires CarsKeyed(rows)
    requires HasCar(rows, d.uuid)
    ensures CarsWithUuid(UpdatedCars(rows, d), d.uuid) == [CarRow(d.uuid, d.model, d.value, LocalWrite)]
    decreases |rows|
  {
    var updated := CarRow(d.uuid, d.model, d.value, LocalWrite);
    var tail := rows[1..];
    assert UpdatedCars(rows, d) == [UpdatedRow(rows[0], d)] + UpdatedCars(tail, d);
    assert CarsKeyed(tail) by {
      forall i, j | 0 <= i < j < |tail| ensures tail[i].uuid != tail[j].uuid {
        assert tail[i] == rows[i + 1] && tail[j] == rows[j + 1];
      }
    }
    if rows[0].uuid == d.uuid {
      assert !HasCar(tail, d.uuid) by {
        forall k | 0 <= k < |tail| ensures tail[k].uuid != d.uuid {
          assert tail[k] == rows[k + 1];
        }
      }
      UpdateOfAbsentCar(tail, d);
      NoneWithAbsentUuid(tail, d.uuid);
      assert UpdatedCars(rows, d) == [updated] + tail;
      assert ([updated] + tail)[1..] == tail;
    } else {
      assert HasCar(tail, d.uuid) by {
        var i :| 0 <= i < |rows| && rows[i].uuid == d.uuid;
        assert tail[i - 1] == rows[i];
      }
      UpdatedCarReadBack(tail, d);
      assert ([rows[0]] + UpdatedCars(tail, d))[1..] == UpdatedCars(tail, d);
    }
  }

  // ---------------------------------------------------------------------
  // The sqlite file and the Database object

  /** The sqlite database file: one field per table, the tables created so
      far, the handles opened and not yet closed, and the calls made to store
      methods whose definitions are not part of this model. */
  class LocalStore {
    var users: seq<UserRow>
    var cars: seq<CarRow>
    var links: seq<LinkRow>
    var conflictUsers: seq<ConflictUserRow>
    var conflictCars: seq<ConflictCarRow>
    var conflictLinks: seq<ConflictLinkRow>
    var created: set<string>
    var openHandles: nat
    var foreignCalls: seq<ForeignCall>

    function Snapshot(): StoreState
      reads this
    {
      StoreState(users, cars, links, conflictUsers, conflictCars, conflictLinks,
                 created, openHandles, foreignCalls)
    }

    ghost predicate Valid()
      reads this
    {
      Keyed(Snapshot())
    }

    /** The file as found on disk. */
    constructor (initial: StoreState)
      requires Keyed(initial)
      ensures Valid() && Snapshot() == initial
    {
      users, cars, links := initial.users, initial.cars, initial.links;
      conflictUsers, conflictCars, conflictLinks := initial.conflictUsers, initial.conflictCars, initial.conflictLinks;
      created, openHandles, foreignCalls := initial.created, initial.openHandles, initial.foreignCalls;
    }

    /** `sqlite.open`: one more handle is open. */
    method Open()
      modifies this`openHandles
      ensures openHandles == old(openHandles) + 1
    {
      openHandles := openHandles + 1;
    }

    /** `db.close()`. */
    method Close()
      requires openHandles > 0
      modifies this`openHandles
      ensures openHandles == old(openHandles) - 1
    {
      openHandles := openHandles - 1;
    }

    /** `CREATE TABLE if not exists`: creating an existing table changes nothing. */
    method CreateTable(t: TableSql)
      modifies this`created
      ensures created == old(created) + {t.name}
    {
      created := created + {t.name};
    }

    method InsertUser(row: UserRow) returns (result: StatementResult)
      requires Valid()
      modifies this`users
      ensures Valid()
      ensures users == InsertUserRows(old(users), row)
      ensures result == InsertResult(HasUser(old(users), row.username), "LocalUsers")
    {
      result := InsertResult(HasUser(users, row.username), "LocalUsers");
      users := InsertUserRows(users, row);
    }

    method InsertCar(row: CarRow) returns (result: StatementResult)
      requires Valid()
      modifies this`cars
      ensures Valid()
      ensures cars == InsertCarRows(old(cars), row)
      ensures result == InsertResult(HasCar(old(cars), row.uuid), "LocalCars")
    {
      result := InsertResult(HasCar(cars, row.uuid), "LocalCars");
      cars := InsertCarRows(cars, row);
    }

    /** LocalUserOwnCar has no key, and sqlite leaves foreign keys unchecked
        unless told otherwise, so this INSERT always succeeds. */
    method InsertLink(row: LinkRow) returns (result: StatementResult)
      modifies this`links
      ensures links == old(links) + [row]
      ensures result == Done
    {
      links := links + [row];
      result := Done;
    }

    method UpdateCars(d: CarDetails)
      requires Valid()
      modifies this`cars
      ensures Valid()
      ensures cars == UpdatedCars(old(cars), d)
    {
      UpdateKeepsKeys(cars, d);
      cars := UpdatedCars(cars, d);
    }

    method Record(call: ForeignCall)
      modifies this`foreignCalls
      ensures foreignCalls == old(foreignCalls) + [call]
    {
      foreignCalls := foreignCalls + [call];
    }
  }

  /** The statements `createTables` issues, in order: SyncProperties first,
      then the local and the conflict table of each entry of `tables`. */
  function TableStatements(defs: seq<TableDef>): seq<TableSql>
  {
    if defs == [] then [] else TableStatements(defs[..|defs| - 1]) + [defs[|defs| - 1].local, defs[|defs| - 1].conflict]
  }

  /** Six statements for the three entries, Local before Conflict for each. */
  lemma StatementsOfTables()
    ensures TableStatements(Tables) ==
      [Users.local, Users.conflict, Cars.local, Cars.conflict, UserOwnCar.local, UserOwnCar.conflict]
  {
    assert TableStatements([Users]) == [Users.local, Users.conflict] by {
      assert [Users][..0] == [];
    }
    assert TableStatements([Users, Cars]) == [Users.local, Users.conflict, Cars.local, Cars.conflict] by {
      assert [Users, Cars][..1] == [Users];
    }
    assert Tables[..2] == [Users, Cars];
  }

  lemma {:induction false} NamesOfSeven(a: TableSql, b: TableSql, c: TableSql, d: TableSql,
                                       e: TableSql, f: TableSql, g: TableSql)
    ensures TableNames([a, b, c, d, e, f, g]) == {a.name, b.name, c.name, d.name, e.name, f.name, g.name}
  {
    var issued := [a, b, c, d, e, f, g];
    var names := {a.name, b.name, c.name, d.name, e.name, f.name, g.name};
    forall n | n in names ensures n in TableNames(issued) {
      assert forall i :: 0 <= i < 7 ==> issued[i] in issued;
    }
    TableNamesExactly(issued);
    forall n | n in TableNames(issued) ensures n in names {
      var t :| t in issued && t.name == n;
    }
  }

  /** The seven tables createTables leaves in the file. */
  lemma CreatedTableNames()
    ensures TableNames([SyncProperties] + TableStatements(Tables)) ==
      {SyncProperties.name, Users.local.name, Users.conflict.name, Cars.local.name,
       Cars.conflict.name, UserOwnCar.local.name, UserOwnCar.conflict.name}
  {
    StatementsOfTables();
    NamesOfSeven(SyncProperties, Users.local, Users.conflict, Cars.local, Cars.conflict,
                 UserOwnCar.local, UserOwnCar.conflict);
    assert [SyncProperties] + TableStatements(Tables) ==
      [SyncProperties, Users.local, Users.conflict, Cars.local, Cars.conflict,
       UserOwnCar.local, UserOwnCar.conflict];
  }

  /** The names of the tables the statements create. */
  function TableNames(statements: seq<TableSql>): (names: set<string>)
    ensures forall t :: t in statements ==> t.name in names
  {
    if statements == [] then {}
    else
      var init := statements[..|statements| - 1];
      var last := statements[|statements| - 1];
      assert forall t :: t in statements ==> t in init || t == last by {
        assert statements == init + [last];
      }
      TableNames(init) + {last.name}
  }

  /** A name is created exactly when some statement creates it. */
  lemma {:induction false} TableNamesExactly(statements: seq<TableSql>)
    ensures forall n :: n in TableNames(statements) <==> exists t :: t in statements && t.name == n
  {
    if statements != [] {
      var init := statements[..|statements| - 1];
      var last := statements[|statements| - 1];
      TableNamesExactly(init);
      assert TableNames(statements) == TableNames(init) + {last.name};
      forall n | n in TableNames(statements) ensures exists t :: t in statements && t.name == n {
        if n != last.name {
          var t :| t in init && t.name == n;
          assert t in statements;
        }
      }
    }
  }

  /** One more entry of `tables` adds its Local and its Conflict statement. */
  lemma TableStatementsStep(defs: seq<TableDef>, i: nat)
    requires i < |defs|
    ensures TableStatements(defs[..i + 1]) == TableStatements(defs[..i]) + [defs[i].local, defs[i].conflict]
  {
    assert defs[..i + 1][..i] == defs[..i];
  }

  lemma {:induction false} TableNamesConcat(a: seq<TableSql>, b: seq<TableSql>)
    ensures TableNames(a + b) == TableNames(a) + TableNames(b)
    decreases |b|
  {
    if b == [] {
      assert a + b == a;
    } else {
      assert (a + b)[..|a + b| - 1] == a + b[..|b| - 1];
      assert (a + b)[|a + b| - 1] == b[|b| - 1];
      TableNamesConcat(a, b[..|b| - 1]);
    }
  }

  /** The Database object: its configuration and the file it opens. */
  class Database {
    const config: DbConfig
    const store: LocalStore

    constructor (configuration: DbConfig, store: LocalStore)
      ensures config == configuration && this.store == store
    {
      config := configuration;
      this.store := store;
    }

    /** `config.path + config.name`: the path comes first and the name follows
        directly, with no separator added between them. */
    function GetDataBasePath(): (p: string)
      ensures |p| == |config.path| + |config.name|
      ensures p[..|config.path|] == config.path && p[|config.path|..] == config.name
    {
      config.path + config.name
    }

    /** SyncProperties, then for each entry of `tables` its Local and its
        Conflict table: seven tables, existing tables left as they are. */
    method CreateTables() returns (issued: seq<TableSql>)
      modifies store`created
      ensures issued == [SyncProperties] + TableStatements(Tables)
      ensures store.created == old(store.created) + TableNames(issued)
    {
      store.CreateTable(SyncProperties);
      issued := [SyncProperties];
      assert TableNames(issued) == {SyncProperties.name} by {
        assert issued[..0] == [];
      }
      var tablePromises := CreateEach(Tables);
      TableNamesConcat(issued, tablePromises);
      issued := issued + tablePromises;
    }

    /** The `forEach` of createTables: the Local, then the Conflict table of
        each entry in turn. */
    method CreateEach(defs: seq<TableDef>) returns (tablePromises: seq<TableSql>)
      modifies store`created
      ensures tablePromises == TableStatements(defs)
      ensures store.created == old(store.created) + TableNames(tablePromises)
    {
      tablePromises := [];
      var i := 0;
      while i < |defs|
        invariant 0 <= i <= |defs|
        invariant tablePromises == TableStatements(defs[..i])
        invariant store.created == old(store.created) + TableNames(tablePromises)
      {
        var table := defs[i];
        TableStatementsStep(defs, i);
        store.CreateTable(table.local);
        store.CreateTable(table.conflict);
        TableNamesConcat(tablePromises, [table.local, table.conflict]);
        assert TableNames([table.local, table.conflict]) == {table.local.name, table.conflict.name} by {
          assert [table.local, table.conflict][..1] == [table.local];
          assert [table.local][..0] == [];
        }
        tablePromises := tablePromises + [table.local, table.conflict];
        i := i + 1;
      }
      assert defs[..|defs|] == defs;
    }

    /** The settling chain of insertAsyncSQL (and of updateCar): the first
        failure is logged and not rethrown, and the handle is closed. */
    method InsertAsyncSQL(results: seq<StatementResult>) returns (logged: Option<SqlError>)
      requires store.openHandles > 0
      modifies store`openHandles
      ensures store.openHandles == old(store.openHandles) - 1
      ensures logged == FirstFailure(results)
    {
      logged := FirstFailure(results);
      store.Close();
    }

    /** getUser: the LocalUsers row keyed `username`, or nothing. */
    method GetUser(username: string) returns (user: Option<UserRow>)
      requires store.Valid()
      ensures user.Some? <==> HasUser(store.users, username)
      ensures user.Some? ==> user.value in store.users && user.value.username == username
    {
      user := FindUser(store.users, username);
    }

    /** addUser, with its INSERT settled by insertAsyncSQL: a new user gets the
        row (username, password, 0, 1, 1); an existing user's row is kept and
        the key violation is logged, not thrown; the handle is closed. */
    method AddUser(username: string, password: string) returns (logged: Option<SqlError>)
      requires store.Valid()
      modifies store
      ensures store.Valid()
      ensures store.Snapshot() == AddUserState(old(store.Snapshot()), username, password)
      ensures logged == if HasUser(old(store.users), username)
                        then Some(PrimaryKeyViolation("LocalUsers")) else None
    {
      store.Open();
      var inserted := store.InsertUser(NewUserRow(username, password));
      logged := InsertAsyncSQL([inserted]);
    }

    /** addUser as written: the INSERT is issued while the arguments of
        `this.executeAsyncSQL(...)` are evaluated, then the call fails because
        Database has no such method; the handle is never closed. */
    method AddUserAsWritten(username: string, password: string) returns (rejection: Rejection)
      requires store.Valid()
      modifies store
      ensures store.Valid()
      ensures store.Snapshot() == AddUserAsWrittenState(old(store.Snapshot()), username, password)
      ensures rejection == NotAFunction("executeAsyncSQL")
    {
      store.Open();
      var _ := store.InsertUser(NewUserRow(username, password));
      rejection := NotAFunction("executeAsyncSQL");
    }

    /** addCar: the car object receives the generated uuid; the LocalCars row
        (uuid, model, value, 0, 1, 1) and the link (user, uuid, 0, 1, 1) are
        inserted; a taken uuid is logged and leaves LocalCars as it was. */
    method AddCar(user: string, car: CarObject, uuid: string) returns (logged: Option<SqlError>)
      requires store.Valid()
      modifies store, car
      ensures store.Valid()
      ensures car.uuid == Some(uuid)
      ensures store.Snapshot() == AddCarState(old(store.Snapshot()), user, uuid, car.model, car.value)
      ensures logged == if HasCar(old(store.cars), uuid)
                        then Some(PrimaryKeyViolation("LocalCars")) else None
    {
      store.Open();
      car.uuid := Some(uuid);
      var carInserted := store.InsertCar(CarRow(uuid, car.model, car.value, LocalWrite));
      var linkInserted := store.InsertLink(LinkRow(user, uuid, LocalWrite));
      logged := InsertAsyncSQL([carInserted, linkInserted]);
    }

    /** getCarsFromUser: the cars some link of `user` points at. */
    method GetCarsFromUser(user: string) returns (rows: seq<CarRow>)
      ensures rows == CarsOfUser(store.links, store.cars, user)
      ensures forall c :: c in rows <==> c in store.cars && LinkedTo(store.links, user, c.uuid)
    {
      rows := CarsOfUser(store.links, store.cars, user);
    }

    /** getCar: the list of LocalCars rows with that uuid, which holds at most one row. */
    method GetCar(uuid: string) returns (rows: seq<CarRow>)
      requires store.Valid()
      ensures |rows| <= 1
      ensures rows != [] <==> HasCar(store.cars, uuid)
      ensures forall c :: c in rows <==> c in store.cars && c.uuid == uuid
    {
      rows := CarsWithUuid(store.cars, uuid);
      KeyedLookupAtMostOne(store.cars, uuid);
    }

    /** updateCar: only the row with the given uuid changes, to the new model
        and value with flags (0, 1, 1); no row is created. */
    method UpdateCar(newDetails: CarDetails)
      requires store.Valid()
      modifies store
      ensures store.Valid()
      ensures store.Snapshot() == UpdateCarState(old(store.Snapshot()), newDetails)
    {
      store.Open();
      store.UpdateCars(newDetails);
      var _ := InsertAsyncSQL([Done]);
    }

    /** The conflict lists read by SyncService; database.js does not define
        these readers, and the model takes each to return its whole table. */
    method GetConflictsUsers() returns (rows: seq<ConflictUserRow>)
      ensures rows == store.conflictUsers
    {
      rows := store.conflictUsers;
    }

    method GetConflictsCars() returns (rows: seq<ConflictCarRow>)
      ensures rows == store.conflictCars
    {
      rows := store.conflictCars;
    }

    method GetConflictsConflictUserOwnCar() returns (rows: seq<ConflictLinkRow>)
      ensures rows == store.conflictLinks
    {
      rows := store.conflictLinks;
    }

    /** deleteCar is not defined in database.js: the call is recorded and
        nothing is promised about the tables. */
    method DeleteCar(carId: string)
      requires store.Valid()
      modifies store
      ensures store.Valid()
      ensures store.foreignCalls == old(store.foreignCalls) + [DeleteCarCall(carId)]
    {
      store.Record(DeleteCarCall(carId));
    }

    /** deleteUser is not defined in database.js either. */
    method DeleteUser(username: string)
      requires store.Valid()
      modifies store
      ensures store.Valid()
      ensures store.foreignCalls == old(store.foreignCalls) + [DeleteUserCall(username)]
    {
      store.Record(DeleteUserCall(username));
    }

    /** setDateTimeFromServer is not defined in database.js either. */
    method SetDateTimeFromServer(time: int)
      requires store.Valid()
      modifies store
      ensures store.Valid()
      ensures store.foreignCalls == old(store.foreignCalls) + [SetDateTimeFromServerCall(time)]
    {
      store.Record(SetDateTimeFromServerCall(time));
    }
  }

  /** The `car` argument of addCar, whose `uuid` addCar sets. */
  class CarObject {
    var uuid: Option<string>
    const model: string
    const value: string

    constructor (model: string, value: string)
      ensures uuid == None && this.model == model && this.value == value
    {
      uuid := None;
      this.model := model;
      this.value := value;
    }
  }
}
