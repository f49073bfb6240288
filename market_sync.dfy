/** src/CarMarketSync.js: the newer front end over the same store, without a
    sync service and with account checks still to come. */
module MarketSync {
  import opened Common
  import opened Store
  import opened Listing

  /** The `credentials` argument of addCar; only the username is read. */
  datatype Credentials = Credentials(username: string, password: string)

  /** userRegistered answers whether the name is still free: `!user` holds
      exactly when getUser found no row, and a row has no `length`. */
  function NameAvailable(s: StoreState, username: string): (available: bool)
    ensures available <==> FindUser(s.users, username).None?
  {
    !HasUser(s.users, username)
  }

  /** register: the user is added only when the name is free, through
      addUser as written, which leaves one handle open. */
  function RegisterState(s: StoreState, name: string, password: string): (r: StoreState)
    ensures !NameAvailable(r, name)
    ensures Keyed(s) ==> Keyed(r)
    ensures r.openHandles == s.openHandles + (if NameAvailable(s, name) then 1 else 0)
  {
    if NameAvailable(s, name) then AddUserAsWrittenState(s, name, password) else s
  }

  /** How register settles: with addUser's TypeError for a free name. */
  function RegisterOutcome(s: StoreState, name: string): Option<Rejection>
  {
    if NameAvailable(s, name) then Some(NotAFunction("executeAsyncSQL")) else None
  }

  /** The console lines getCars prints from state `s`. */
  function CarsReport(s: StoreState, username: string): (lines: seq<string>)
    ensures |lines| == if HasUser(s.users, username) then 2 else 1
    ensures HasUser(s.users, username) ==>
      (lines[1] == "No cars founded." <==> CarsOfUser(s.links, s.cars, username) == [])
  {
    if HasUser(s.users, username)
    then ["Obtaining the cars of " + username + "...", CarsMessage(CarsOfUser(s.links, s.cars, username))]
    else ["The user " + username + " is not registered."]
  }

  /** Right after a registration the name is no longer available, so logUser
      answers no for the user just registered. */
  lemma RegisteredNameIsTaken(s: StoreState, name: string, password: string)
    ensures !NameAvailable(RegisterState(s, name, password), name)
    ensures NameAvailable(s, name) ==>
      FindUser(RegisterState(s, name, password).users, name) == Some(NewUserRow(name, password))
  {
    if NameAvailable(s, name) {
      InsertedUserLookup(s.users, NewUserRow(name, password));
    }
  }

  class CarMarketSync {
    var conf: Config
    var database: Database

    ghost predicate Valid()
      reads this, database.store
    {
      database.config == conf.database && database.store.Valid()
    }

    /** A missing configuration falls back to `defaults`, conf/default.json. */
    constructor (configuration: Option<Config>, defaults: Config, store: LocalStore)
      requires store.Valid()
      ensures Valid()
      ensures conf == if configuration.Some? then configuration.value else defaults
      ensures database.store == store
    {
      var chosen := if configuration.Some? then configuration.value else defaults;
      conf := chosen;
      database := new Database(chosen.database, store);
    }

    /** load: no check on the configuration; a new database over `store`. */
    method Load(configuration: Config, store: LocalStore)
      requires store.Valid()
      modifies this
      ensures Valid() && conf == configuration && database.store == store && fresh(database)
    {
      conf := configuration;
      database := new Database(conf.database, store);
    }

    method UserRegistered(username: string) returns (available: bool)
      requires Valid()
      ensures available <==> !HasUser(database.store.users, username)
    {
      var user := database.GetUser(username);
      available := user.None?;
    }

    /** logUser: the password is not checked; the answer is userRegistered's. */
    method LogUser(username: string, password: string) returns (answer: bool)
      requires Valid()
      ensures answer <==> NameAvailable(database.store.Snapshot(), username)
    {
      answer := UserRegistered(username);
    }

    /** register: a free name is inserted and then the call rejects, before
        "has been registered" is printed. */
    method Register(name: string, password: string) returns (rejection: Option<Rejection>)
      requires Valid()
      modifies database.store
      ensures Valid()
      ensures rejection == RegisterOutcome(old(database.store.Snapshot()), name)
      ensures database.store.Snapshot() == RegisterState(old(database.store.Snapshot()), name, password)
    {
      var isUserAvailable := UserRegistered(name);
      if isUserAvailable {
        var thrown := database.AddUserAsWritten(name, password);
        rejection := Some(thrown);
      } else {
        rejection := None;
      }
    }

    /** addCar: only the username of the credentials is used; `uuid` stands
        for the generator's next value. */
    method AddCar(credentials: Credentials, car: CarObject, uuid: string)
      requires Valid()
      modifies database.store, car
      ensures Valid()
      ensures database.store.Snapshot() ==
        if HasUser(old(database.store.users), credentials.username)
        then AddCarState(old(database.store.Snapshot()), credentials.username, uuid, car.model, car.value)
        else old(database.store.Snapshot())
      ensures car.uuid ==
        if HasUser(old(database.store.users), credentials.username) then Some(uuid) else old(car.uuid)
    {
      var isLogged := database.GetUser(credentials.username);
      if isLogged.Some? {
        var _ := database.AddCar(credentials.username, car, uuid);
      }
    }

    /** getCars: the console lines, the listing built car by car. */
    method GetCars(username: string) returns (lines: seq<string>)
      requires Valid()
      ensures lines == CarsReport(database.store.Snapshot(), username)
    {
      var user := database.GetUser(username);
      if user.Some? {
        lines := ["Obtaining the cars of " + username + "..."];
        var cars := database.GetCarsFromUser(username);
        if |cars| > 0 {
          var result := BuildListing(cars);
          lines := lines + [result];
        } else {
          lines := lines + ["No cars founded."];
        }
      } else {
        lines := ["The user " + username + " is not registered."];
      }
    }

    /** editCar: no existence check; the UPDATE is issued for any uuid. */
    method EditCar(newDetails: CarDetails)
      requires Valid()
      modifies database.store
      ensures Valid()
      ensures database.store.Snapshot() == UpdateCarState(old(database.store.Snapshot()), newDetails)
    {
      var car := database.GetCar(newDetails.uuid);
      database.UpdateCar(newDetails);
      var updatedCar := database.GetCar(newDetails.uuid);
    }

    /** deleteCar: getCar's list is truthy, so the deletion is always requested. */
    method DeleteCar(carId: string)
      requires Valid()
      modifies database.store
      ensures Valid()
      ensures database.store.foreignCalls == old(database.store.foreignCalls) + [DeleteCarCall(carId)]
    {
      var car := database.GetCar(carId);
      database.DeleteCar(carId);
    }

    /** deleteUser: the deletion is requested only when getUser finds the row. */
    method DeleteUser(username: string)
      requires Valid()
      modifies database.store
      ensures Valid()
      ensures HasUser(old(database.store.users), username) ==>
        database.store.foreignCalls == old(database.store.foreignCalls) + [DeleteUserCall(username)]
      ensures !HasUser(old(database.store.users), username) ==>
        database.store.Snapshot() == old(database.store.Snapshot())
    {
      var user := database.GetUser(username);
      if user.Some? {
        database.DeleteUser(username);
      }
    }
  }
}
