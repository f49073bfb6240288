/** The table definitions of src/database.schema.js: for each table its
    columns in declaration order, its primary key and its foreign keys. */
module Schema {
  datatype SqlType = TextType | IntType

  datatype Column = Column(name: string, sqlType: SqlType)

  /** `FOREIGN KEY(column) REFERENCES table(refColumn)` */
  datatype ForeignKey = ForeignKey(column: string, table: string, refColumn: string)

  /** One `CREATE TABLE if not exists` statement. */
  datatype TableSql = TableSql(
    name: string,
    columns: seq<Column>,
    primaryKey: seq<string>,
    foreignKeys: seq<ForeignKey>,
    withoutRowid: bool)

  /** An entry of the `tables` list: a base name with its conflict and local tables. */
  datatype TableDef = TableDef(name: string, conflict: TableSql, local: TableSql)

  /** A value bound to a statement parameter or stored in a cell. */
  datatype Value = TextValue(text: string) | IntValue(number: int)

  /** The provenance columns that close every local table, in this order. */
  const FlagColumns: seq<Column> :=
    [Column("isOnServer", IntType), Column("isModified", IntType), Column("isActive", IntType)]

  const SyncProperties: TableSql :=
    TableSql("SyncProperties", [Column("lastSync", IntType)], [], [], false)

  const UserPayload: seq<Column> := [Column("username", TextType), Column("password", TextType)]

  const Users: TableDef := TableDef(
    "Users",
    TableSql("ConflictUsers", UserPayload + [Column("isActive", IntType)], ["username"], [], true),
    TableSql("LocalUsers", UserPayload + FlagColumns, ["username"], [], true))

  const CarPayload: seq<Column> :=
    [Column("uuid", TextType), Column("model", TextType), Column("value", TextType)]

  const Cars: TableDef := TableDef(
    "Cars",
    TableSql("ConflictCars", [Column("uuid", TextType), Column("isActive", IntType)], ["uuid"], [], true),
    TableSql("LocalCars", CarPayload + FlagColumns, ["uuid"], [], true))

  const LinkPayload: seq<Column> := [Column("user", TextType), Column("carId", TextType)]

  const LinkForeignKeys: seq<ForeignKey> :=
    [ForeignKey("user", "LocalUsers", "username"), ForeignKey("carId", "LocalCars", "uuid")]

  const UserOwnCar: TableDef := TableDef(
    "UserOwnCar",
    TableSql("ConflictUserOwnCar", LinkPayload + [Column("isActive", IntType)],
             ["user", "carId"], LinkForeignKeys, false),
    TableSql("LocalUserOwnCar", LinkPayload + FlagColumns, [], LinkForeignKeys, false))

  /** The ordered `tables` list. */
  const Tables: seq<TableDef> := [Users, Cars, UserOwnCar]

  function ColumnNames(columns: seq<Column>): (names: seq<string>)
    ensures |names| == |columns|
    ensures forall i :: 0 <= i < |columns| ==> names[i] == columns[i].name
  {
    if columns == [] then [] else [columns[0].name] + ColumnNames(columns[1..])
  }

  /** A local table: its payload columns, then the three provenance flags. */
  predicate IsLocalShape(t: TableSql, payload: seq<Column>)
  {
    t.columns == payload + FlagColumns
  }

  /** A conflict table: its key columns (for users also the password) and
      `isActive`, and no `isOnServer` or `isModified` column. */
  predicate IsConflictShape(t: TableSql)
  {
    && |t.columns| >= 2
    && t.columns[|t.columns| - 1] == Column("isActive", IntType)
    && forall k :: 0 <= k < |t.columns| ==> t.columns[k].name != "isOnServer" && t.columns[k].name != "isModified"
  }

  /** Every local table of `tables` ends with the flag columns in the order
      isOnServer, isModified, isActive, at the last three positions. */
  lemma LocalTablesEndWithFlags()
    ensures IsLocalShape(Users.local, UserPayload)
    ensures IsLocalShape(Cars.local, CarPayload)
    ensures IsLocalShape(UserOwnCar.local, LinkPayload)
    ensures forall t :: t in Tables ==>
      var n := |t.local.columns|;
      n >= 3 && ColumnNames(t.local.columns[n - 3..]) == ["isOnServer", "isModified", "isActive"]
  {
  }

  /** The conflict tables carry no provenance flags besides isActive. */
  lemma ConflictTablesHoldOnlyKeyAndActive()
    ensures forall t :: t in Tables ==> IsConflictShape(t.conflict)
    ensures ColumnNames(Users.conflict.columns) == ["username", "password", "isActive"]
    ensures ColumnNames(Cars.conflict.columns) == ["uuid", "isActive"]
    ensures ColumnNames(UserOwnCar.conflict.columns) == ["user", "carId", "isActive"]
  {
  }

  /** Keys: users by username, cars by uuid, conflicting links by the pair;
      the local link table has no primary key. */
  lemma PrimaryKeys()
    ensures Users.local.primaryKey == ["username"] && Users.conflict.primaryKey == ["username"]
    ensures Cars.local.primaryKey == ["uuid"] && Cars.conflict.primaryKey == ["uuid"]
    ensures UserOwnCar.conflict.primaryKey == ["user", "carId"]
    ensures UserOwnCar.local.primaryKey == []
    ensures forall t :: t in Tables ==> forall c :: c in t.local.primaryKey ==> c in ColumnNames(t.local.columns)
  {
  }

  /** Both link tables point `user` at LocalUsers.username and `carId` at LocalCars.uuid. */
  lemma LinkForeignKeysReferenceLocalTables()
    ensures UserOwnCar.local.foreignKeys == UserOwnCar.conflict.foreignKeys == LinkForeignKeys
    ensures forall f :: f in LinkForeignKeys ==>
      (f.table == Users.local.name && f.refColumn in Users.local.primaryKey) ||
      (f.table == Cars.local.name && f.refColumn in Cars.local.primaryKey)
  {
  }

  /** The order of `tables`, and the single INT column of SyncProperties. */
  lemma TableOrder()
    ensures |Tables| == 3
    ensures Tables[0].name == "Users" && Tables[1].name == "Cars" && Tables[2].name == "UserOwnCar"
    ensures SyncProperties.columns == [Column("lastSync", IntType)]
    ensures SyncProperties.primaryKey == []
  {
  }

  /** The name `createTables` prints for each table (`Local` or `Conflict`
      followed by the entry's name) is the name the statement creates. */
  lemma CreatedNamesMatchStatements()
    ensures forall t :: t in Tables ==>
      t.local.name == "Local" + t.name && t.conflict.name == "Conflict" + t.name
  {
    assert Users.local.name == "Local" + Users.name && Users.conflict.name == "Conflict" + Users.name;
    assert Cars.local.name == "Local" + Cars.name && Cars.conflict.name == "Conflict" + Cars.name;
    assert UserOwnCar.local.name == "Local" + UserOwnCar.name
        && UserOwnCar.conflict.name == "Conflict" + UserOwnCar.name;
  }
}
