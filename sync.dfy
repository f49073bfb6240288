/** src/SyncService.js: the gate that lets a synchronisation go ahead only
    when the local conflict tables do not block it. */
module Sync {
  import opened Store

  /** checkConflicts: conflicts block synchronisation only when every one of
      the three conflict tables holds at least one row. */
  predicate BlocksSync(s: StoreState): (blocked: bool)
    ensures blocked <==> exists u, c, l :: u in s.conflictUsers && c in s.conflictCars && l in s.conflictLinks
  {
    var blocked := |s.conflictUsers| > 0 && |s.conflictCars| > 0 && |s.conflictLinks| > 0;
    assert blocked ==> s.conflictUsers[0] in s.conflictUsers && s.conflictCars[0] in s.conflictCars
                       && s.conflictLinks[0] in s.conflictLinks;
    blocked
  }

  /** The store calls a synchronisation makes from state `s` at local time `now`. */
  function SyncCalls(s: StoreState, now: int): (calls: seq<ForeignCall>)
    ensures |calls| <= 1
    ensures calls == [] <==> BlocksSync(s)
    ensures calls != [] ==> calls == [SetDateTimeFromServerCall(now)]
  {
    if BlocksSync(s) then [] else [SetDateTimeFromServerCall(now)]
  }

  /** The console line synchronize prints from state `s`. */
  function SyncMessage(s: StoreState): string
  {
    if BlocksSync(s) then "Conflicts founded." else "No conflicts founded."
  }

  /** A conflict of a single kind does not stop the server time from being
      written: the three counts are joined with `&&`, not `||`. */
  lemma SingleKindOfConflictDoesNotBlock(s: StoreState, now: int)
    requires |s.conflictUsers| > 0
    requires s.conflictCars == [] || s.conflictLinks == []
    ensures SyncCalls(s, now) == [SetDateTimeFromServerCall(now)]
  {
  }

  /** Only the conflict tables decide the gate: users, cars, links, created
      tables, handles and earlier calls play no part. */
  lemma GateReadsOnlyConflictTables(s: StoreState, t: StoreState, now: int)
    requires s.conflictUsers == t.conflictUsers
    requires s.conflictCars == t.conflictCars
    requires s.conflictLinks == t.conflictLinks
    ensures SyncCalls(s, now) == SyncCalls(t, now)
    ensures SyncMessage(s) == SyncMessage(t)
  {
  }

  class SyncService {
    const config: Config
    const database: Database

    constructor (configuration: Config, store: LocalStore)
      ensures config == configuration
      ensures database.config == configuration.database && database.store == store
    {
      config := configuration;
      database := new Database(configuration.database, store);
    }

    method CheckConflicts() returns (conflicts: bool)
      ensures conflicts <==> BlocksSync(database.store.Snapshot())
    {
      var users := database.GetConflictsUsers();
      var cars := database.GetConflictsCars();
      var conflictUserOwnCar := database.GetConflictsConflictUserOwnCar();
      conflicts := |users| > 0 && |cars| > 0 && |conflictUserOwnCar| > 0;
    }

    /** `now` stands for `new Date().getTime()`, the local clock. */
    method Synchronize(now: int) returns (message: string)
      requires database.store.Valid()
      modifies database.store
      ensures database.store.Valid()
      ensures message == SyncMessage(old(database.store.Snapshot()))
      ensures database.store.foreignCalls ==
        old(database.store.foreignCalls) + SyncCalls(old(database.store.Snapshot()), now)
      ensures BlocksSync(old(database.store.Snapshot())) ==>
        database.store.Snapshot() == old(database.store.Snapshot())
    {
      var conflicts := CheckConflicts();
      if conflicts {
        message := "Conflicts founded.";
      } else {
        message := "No conflicts founded.";
        database.SetDateTimeFromServer(now);
      }
    }
  }
}
