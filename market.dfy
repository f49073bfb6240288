/** src/CarMarket.js: the use cases of the car market on top of the local
    store, each guarded by a lookup. */
module Market {
  import opened Common
  import opened Text
  import opened Store
  import opened Listing
  import opened Sync

  /** conf/settings.js for NODE_ENV `develop` (the default) and `test`. */
  const DevelopSettings := Config(DbConfig("", "car.db"))
  const TestSettings := Config(DbConfig("", ":memory:,"))

  // ---------------------------------------------------------------------
  // What each guarded use case does to the store

  /** register: the user is added only when no user has the name, through
      addUser as written, which leaves one handle open. */
  function RegisterState(s: StoreState, usr: string, password: string): (r: StoreState)
    ensures HasUser(r.users, usr)
    ensures Keyed(s) ==> Keyed(r)
    ensures r.openHandles == s.openHandles + (if HasUser(s.users, usr) then 0 else 1)
  {
    if HasUser(s.users, usr) then s else AddUserAsWrittenState(s, usr, password)
  }

  /** How register settles: normally for a registered name, and with
      addUser's TypeError otherwise. */
  function RegisterOutcome(s: StoreState, usr: string): Option<Rejection>
  {
    if HasUser(s.users, usr) then None else Some(NotAFunction("executeAsyncSQL"))
  }

  /** addCar: the car and its link are added only for a registered user. */
  function AddCarForUser(s: StoreState, usr: string, uuid: string, model: string, value: string): (r: StoreState)
    ensures HasCar(r.cars, uuid) <==> HasCar(s.cars, uuid) || HasUser(s.users, usr)
    ensures Keyed(s) ==> Keyed(r)
  {
    if HasUser(s.users, usr) then AddCarState(s, usr, uuid, model, value) else s
  }

  /** The console lines getCars prints from state `s`. */
  function CarsReport(s: StoreState, usr: string): (lines: seq<string>)
    ensures |lines| == if HasUser(s.users, usr) then 2 else 1
    ensures HasUser(s.users, usr) ==>
      (lines[1] == "No cars founded." <==> CarsOfUser(s.links, s.cars, usr) == [])
  {
    if HasUser(s.users, usr)
    then ["Obtaining the cars of <" + usr + ">...", CarsMessage(CarsOfUser(s.links, s.cars, usr))]
    else ["The user <" + usr + "> is not registered."]
  }

  /** Registering never overwrites an account: afterwards the name is
      registered, with the old row when it existed and the new password
      otherwise. */
  lemma RegisterKeepsExistingAccount(s: StoreState, usr: string, password: string)
    ensures HasUser(RegisterState(s, usr, password).users, usr)
    ensures FindUser(RegisterState(s, usr, password).users, usr) ==
      if HasUser(s.users, usr) then FindUser(s.users, usr) else Some(NewUserRow(usr, password))
  {
    if !HasUser(s.users, usr) {
      InsertedUserLookup(s.users, NewUserRow(usr, password));
    }
  }

  /** A second registration under the same name changes nothing, whatever
      its password. */
  lemma RegisterIdempotent(s: StoreState, usr: string, password: string, again: string)
    ensures RegisterState(RegisterState(s, usr, password), usr, again) == RegisterState(s, usr, password)
  {
    RegisterKeepsExistingAccount(s, usr, password);
  }

  /** A car added for a registered user under a fresh uuid is the last car
      getCars lists for that user; for an unregistered user nothing changes. */
  lemma AddedCarIsReported(s: StoreState, usr: string, uuid: string, model: string, value: string)
    requires !HasCar(s.cars, uuid)
    requires forall k :: 0 <= k < |s.links| ==> s.links[k].carId != uuid
    ensures var t := AddCarForUser(s, usr, uuid, model, value);
      if HasUser(s.users, usr)
      then CarsOfUser(t.links, t.cars, usr) ==
             CarsOfUser(s.links, s.cars, usr) + [CarRow(uuid, model, value, LocalWrite)]
      else t == s
  {
    if HasUser(s.users, usr) {
      AddedCarIsListed(s, usr, uuid, model, value);
    }
  }

  /** For a registered user with cars whose fields hold no line break, the
      second line of the report splits into the header and one line per car. */
  lemma CarsReportLines(s: StoreState, usr: string)
    requires HasUser(s.users, usr)
    requires CarsOfUser(s.links, s.cars, usr) != []
    requires forall c :: c in s.cars ==> OneLine(c)
    ensures var cars := CarsOfUser(s.links, s.cars, usr);
      |CarsReport(s, usr)| == 2 &&
      Split(CarsReport(s, usr)[1], '\n') ==
        ["Cars founded:"] + Lines(cars)
  {
    var cars := CarsOfUser(s.links, s.cars, usr);
    assert forall i :: 0 <= i < |cars| ==> cars[i] in s.cars;
    ListingLines(cars);
  }

  class CarMarket {
    var config: Config
    var database: Database
    var sync: SyncService

    /** The market, its database and its sync service share one configuration
        and one store. */
    ghost predicate Valid()
      reads this, database.store
    {
      database.config == config.database &&
      sync.config == config &&
      sync.database.store == database.store &&
      database.store.Valid()
    }

    /** A missing configuration falls back to `defaults`, the settings module. */
    constructor (configuration: Option<Config>, defaults: Config, store: LocalStore)
      requires store.Valid()
      ensures Valid()
      ensures config == if configuration.Some? then configuration.value else defaults
      ensures database.store == store
    {
      var chosen := if configuration.Some? then configuration.value else defaults;
      config := chosen;
      database := new Database(chosen.database, store);
      sync := new SyncService(chosen, store);
    }

    /** load: a missing configuration is an error and changes nothing; otherwise
        config, database and sync are replaced by new ones over `store`. */
    method Load(configuration: Option<Config>, store: LocalStore) returns (error: Option<string>)
      requires store.Valid()
      modifies this
      ensures error.Some? <==> configuration.None?
      ensures error.Some? ==>
        (error.value == "Error. No configuration founded." &&
         config == old(config) && database == old(database) && sync == old(sync))
      ensures error.None? ==>
        (Valid() && config == configuration.value && database.store == store &&
         fresh(database) && fresh(sync))
    {
      if configuration.Some? {
        config := configuration.value;
        database := new Database(config.database, store);
        sync := new SyncService(config, store);
        error := None;
      } else {
        error := Some("Error. No configuration founded.");
      }
    }

    /** checkUser: `!!user` is true exactly when a row has the name. */
    method CheckUser(usr: string) returns (found: bool)
      requires Valid()
      ensures found <==> HasUser(database.store.users, usr)
    {
      var user := database.GetUser(usr);
      found := user.Some?;
    }

    /** checkCar: getCar answers with a list, and a list is truthy even when
        empty, so the answer is always yes. */
    method CheckCar(carId: string) returns (found: bool)
      requires Valid()
      ensures found
    {
      var car := database.GetCar(carId);
      found := true;
    }

    /** register: a new name is inserted and then the call rejects, before
        "has been registered" is printed. */
    method Register(usr: string, password: string) returns (rejection: Option<Rejection>)
      requires Valid()
      modifies database.store
      ensures Valid()
      ensures rejection == RegisterOutcome(old(database.store.Snapshot()), usr)
      ensures database.store.Snapshot() == RegisterState(old(database.store.Snapshot()), usr, password)
    {
      var registered := CheckUser(usr);
      if registered {
        rejection := None;
      } else {
        var thrown := database.AddUserAsWritten(usr, password);
        rejection := Some(thrown);
      }
    }

    /** addCar, with `uuid` standing for the generator's next value. */
    method AddCar(usr: string, car: CarObject, uuid: string)
      requires Valid()
      modifies database.store, car
      ensures Valid()
      ensures database.store.Snapshot() ==
        AddCarForUser(old(database.store.Snapshot()), usr, uuid, car.model, car.value)
      ensures car.uuid == if HasUser(old(database.store.users), usr) then Some(uuid) else old(car.uuid)
    {
      var registered := CheckUser(usr);
      if registered {
        var _ := database.AddCar(usr, car, uuid);
      }
    }

    /** getCars: the console lines, the listing built car by car. */
    method GetCars(usr: string) returns (lines: seq<string>)
      requires Valid()
      ensures lines == CarsReport(database.store.Snapshot(), usr)
    {
      var registered := CheckUser(usr);
      if registered {
        lines := ["Obtaining the cars of <" + usr + ">..."];
        var cars := database.GetCarsFromUser(usr);
        if |cars| > 0 {
          var result := BuildListing(cars);
          lines := lines + [result];
        } else {
          lines := lines + ["No cars founded."];
        }
      } else {
        lines := ["The user <" + usr + "> is not registered."];
      }
    }

    /** editCar: since checkCar always holds, the UPDATE is always issued;
        it changes the car with that uuid, if any. */
    method EditCar(newDetails: CarDetails)
      requires Valid()
      modifies database.store
      ensures Valid()
      ensures database.store.Snapshot() == UpdateCarState(old(database.store.Snapshot()), newDetails)
    {
      var known := CheckCar(newDetails.uuid);
      if known {
        var car := database.GetCar(newDetails.uuid);
        database.UpdateCar(newDetails);
        var updatedCar := database.GetCar(newDetails.uuid);
      }
    }

    /** deleteCar: the list getCar answers with is truthy, so the deletion is
        always requested, for a known uuid or not. */
    method DeleteCar(carId: string)
      requires Valid()
      modifies database.store
      ensures Valid()
      ensures database.store.foreignCalls == old(database.store.foreignCalls) + [DeleteCarCall(carId)]
    {
      var car := database.GetCar(carId);
      database.DeleteCar(carId);
    }

    /** deleteUser: the deletion is requested only for a registered user. */
    method DeleteUser(usr: string)
      requires Valid()
      modifies database.store
      ensures Valid()
      ensures HasUser(old(database.store.users), usr) ==>
        database.store.foreignCalls == old(database.store.foreignCalls) + [DeleteUserCall(usr)]
      ensures !HasUser(old(database.store.users), usr) ==>
        database.store.Snapshot() == old(database.store.Snapshot())
    {
      var registered := CheckUser(usr);
      if registered {
        database.DeleteUser(usr);
      }
    }

    /** synchronize, through the sync service; `now` is the local clock. */
    method Synchronize(now: int) returns (message: string)
      requires Valid()
      modifies database.store
      ensures Valid()
      ensures message == SyncMessage(old(database.store.Snapshot()))
      ensures database.store.foreignCalls ==
        old(database.store.foreignCalls) + SyncCalls(old(database.store.Snapshot()), now)
    {
      message := sync.Synchronize(now);
    }
  }
}
