/** The data-access layer: one SQL statement per operation on the `users`
    table. The table is kept in memory as a map from id to row, with the
    AUTO_INCREMENT counter beside it. Rows are never removed: deletion sets
    the `isDeleted` flag, and reads and the full-row update only see rows
    whose flag is 0 ("live" rows). */
module UserDao {
  import opened Results
  import opened JsValue
  import opened UserModel

  /** A row of `users`: the generated id, the five business columns and the
      soft-delete flag. */
  datatype Row = Row(id: int, fields: UserFields, isDeleted: bool)

  /** The object the driver returns for a row of `SELECT *`: the columns in
      table order, with the flag as the number 0 or 1. */
  function RowProps(row: Row): seq<Prop>
  {
    [Prop("id", Num(row.id as real)), Prop("email", row.fields.email), Prop("name", row.fields.name),
     Prop("age", row.fields.age), Prop("city", row.fields.city), Prop("zipCode", row.fields.zipCode),
     Prop("isDeleted", Num(if row.isDeleted then 1.0 else 0.0))]
  }

  /** Reading a business column off the row object gives that field. */
  lemma RowPropsGet(row: Row, k: string)
    requires k in FieldKeys
    ensures Get(RowProps(row), k) == FieldAt(row.fields, k)
  {
    var p := RowProps(row);
    GetLast(p[..6], p[6], k);
    GetLast(p[..5], p[5], k);
    GetLast(p[..4], p[4], k);
    GetLast(p[..3], p[3], k);
    GetLast(p[..2], p[2], k);
    GetLast(p[..1], p[1], k);
    assert p[..6] + [p[6]] == p;
    assert p[..5] + [p[5]] == p[..6];
    assert p[..4] + [p[4]] == p[..5];
    assert p[..3] + [p[3]] == p[..4];
    assert p[..2] + [p[2]] == p[..3];
    assert p[..1] + [p[1]] == p[..2];
  }

  /** The error the driver throws, before sending anything, when a bind
      parameter is `undefined`. */
  const BindUndefined: string := "Bind parameters must not contain undefined. To pass SQL NULL specify JS null"

  /** The error executing a statement with these bind parameters throws, if
      any: the driver's own check first, then `fault`, the error the server
      answers with (lost connection, rejected value), which this model takes
      as given. */
  function StatementError(params: seq<Value>, fault: Option<string>): Option<string>
  {
    if Undefined in params then Some(BindUndefined) else fault
  }

  /** The row id a bound parameter selects in `WHERE id = ?`: MySQL compares
      the integer column with the number the parameter denotes. A value that
      denotes no integer selects no row. */
  function KeyOf(id: Value): Option<int>
  {
    match Numeric(id)
    case Some(n) => if IsInteger(n) then Some(n.Floor) else None
    case None => None
  }

  /** `WHERE id = ?` matches a row. */
  predicate IsStored(rows: map<int, Row>, key: Option<int>)
  {
    key.Some? && key.value in rows
  }

  /** `WHERE id = ? AND isDeleted = 0` matches a row. */
  predicate IsLive(rows: map<int, Row>, key: Option<int>)
  {
    IsStored(rows, key) && !rows[key.value].isDeleted
  }

  /** Each row sits under its own id. */
  predicate WellKeyed(rows: map<int, Row>)
  {
    forall k | k in rows :: rows[k].id == k
  }

  /** `SELECT * FROM users WHERE isDeleted = 0`, as a scan of the ids below
      `below` in primary-key order. The statement has no `ORDER BY`; this
      order is the store's usual scan order, assumed here. */
  function ScanLive(rows: map<int, Row>, below: int): seq<Row>
    decreases below
  {
    if below <= 1 then []
    else ScanLive(rows, below - 1) + (if below - 1 in rows && !rows[below - 1].isDeleted then [rows[below - 1]] else [])
  }

  /** The scan returns live rows of the table, each under its id, in
      ascending id order, and every live row with an id in range. */
  lemma {:induction false} ScanLiveListsLiveRows(rows: map<int, Row>, below: int)
    requires WellKeyed(rows)
    ensures forall i | 0 <= i < |ScanLive(rows, below)| ::
      ScanLive(rows, below)[i].id in rows && rows[ScanLive(rows, below)[i].id] == ScanLive(rows, below)[i] &&
      !ScanLive(rows, below)[i].isDeleted && 1 <= ScanLive(rows, below)[i].id < below
    ensures forall k | k in rows && !rows[k].isDeleted && 1 <= k < below :: rows[k] in ScanLive(rows, below)
    ensures forall i, j | 0 <= i < j < |ScanLive(rows, below)| :: ScanLive(rows, below)[i].id < ScanLive(rows, below)[j].id
    decreases below
  {
    if below > 1 {
      ScanLiveListsLiveRows(rows, below - 1);
      var prefix := ScanLive(rows, below - 1);
      assert forall i | 0 <= i < |prefix| :: ScanLive(rows, below)[i] == prefix[i];
    }
  }

  /** `SELECT * FROM users WHERE id = ? AND isDeleted = 0`, first row. */
  function Find(rows: map<int, Row>, key: Option<int>): Option<Row>
  {
    if IsLive(rows, key) then Some(rows[key.value]) else None
  }

  /** How `getAllUsers` settles: the scan, unless the server fails the statement. */
  function Listing(rows: map<int, Row>, below: int, fault: Option<string>): Outcome<seq<Row>>
  {
    if fault.Some? then Threw(fault.value) else Done(ScanLive(rows, below))
  }

  /** How `getUserById` settles: the live row with that id or nothing,
      unless executing the statement throws. */
  function Lookup(rows: map<int, Row>, userId: Value, fault: Option<string>): Outcome<Option<Row>>
  {
    match StatementError([userId], fault)
    case Some(e) => Threw(e)
    case None => Done(Find(rows, KeyOf(userId)))
  }

  /** `INSERT INTO users (email, name, age, city, zipCode) VALUES (...)`
      under the generated id: the flag takes its default 0. */
  function Inserted(rows: map<int, Row>, id: int, fields: UserFields): (r: map<int, Row>)
    requires forall k | k in rows :: k < id
    ensures id !in rows && r.Keys == rows.Keys + {id} && |r| == |rows| + 1
    ensures forall k | k in rows :: r[k] == rows[k]
    ensures IsLive(r, Some(id)) && r[id].fields == fields
  {
    rows[id := Row(id, fields, false)]
  }

  /** `UPDATE users SET email = ?, name = ?, age = ?, city = ?, zipCode = ?
      WHERE id = ? AND isDeleted = 0`. */
  function Overwritten(rows: map<int, Row>, key: Option<int>, fields: UserFields): (r: map<int, Row>)
    ensures r.Keys == rows.Keys
    ensures forall k | k in rows :: r[k].id == rows[k].id && r[k].isDeleted == rows[k].isDeleted
    ensures forall k | k in rows && !IsLive(rows, Some(k)) :: r[k] == rows[k]
    ensures forall k | k in rows && key != Some(k) :: r[k] == rows[k]
    ensures IsLive(rows, key) ==> r[key.value].fields == fields
  {
    if IsLive(rows, key) then rows[key.value := rows[key.value].(fields := fields)] else rows
  }

  /** `UPDATE users SET isDeleted = 1 WHERE id = ?`: the flag is set whatever
      it was, and no row is removed. */
  function SoftDeleted(rows: map<int, Row>, key: Option<int>): (r: map<int, Row>)
    ensures r.Keys == rows.Keys && |r| == |rows|
    ensures forall k | k in rows && key != Some(k) :: r[k] == rows[k]
    ensures IsStored(rows, key) ==> r[key.value] == rows[key.value].(isDeleted := true)
    ensures !IsLive(r, key)
    ensures IsStored(r, key) == IsStored(rows, key)
  {
    if IsStored(rows, key) then rows[key.value := rows[key.value].(isDeleted := true)] else rows
  }

  /** After a soft delete the row can no longer be found by id, and the
      listing no longer includes it, although the row is still stored. */
  lemma SoftDeleteHides(rows: map<int, Row>, below: int, key: Option<int>)
    requires WellKeyed(rows) && IsStored(rows, key)
    ensures IsStored(SoftDeleted(rows, key), key)
    ensures Find(SoftDeleted(rows, key), key) == None
    ensures forall row | row in ScanLive(SoftDeleted(rows, key), below) :: row.id != key.value
  {
    var after := SoftDeleted(rows, key);
    assert WellKeyed(after);
    ScanLiveListsLiveRows(after, below);
  }

  class UserTable {
    var rows: map<int, Row>
    /** The next AUTO_INCREMENT value. */
    var nextId: int

    ghost predicate Valid()
      reads this
    {
      1 <= nextId && WellKeyed(rows) && forall k | k in rows :: 1 <= k < nextId
    }

    constructor ()
      ensures Valid() && rows == map[] && nextId == 1
    {
      rows := map[];
      nextId := 1;
    }

    /** `getAllUsers`: the live rows, in primary-key order. */
    method GetAllUsers(fault: Option<string>) returns (r: Outcome<seq<Row>>)
      requires Valid()
      ensures r == Listing(rows, nextId, fault)
      ensures r.Done? ==> forall row | row in r.value :: row.id in rows && rows[row.id] == row && !row.isDeleted
      ensures r.Done? ==> forall k | k in rows && !rows[k].isDeleted :: rows[k] in r.value
      ensures r.Done? ==> forall i, j | 0 <= i < j < |r.value| :: r.value[i].id < r.value[j].id
    {
      if fault.Some? {
        return Threw(fault.value);
      }
      var listing := ScanLive(rows, nextId);
      ScanLiveListsLiveRows(rows, nextId);
      r := Done(listing);
    }

    /** `getUserById`: the live row with that id, or nothing (`rows[0]` of an
        empty result is `undefined`). */
    method GetUserById(userId: Value, fault: Option<string>) returns (r: Outcome<Option<Row>>)
      requires Valid()
      ensures r == Lookup(rows, userId, fault)
      ensures r.Done? ==> (r.value.Some? <==> IsLive(rows, KeyOf(userId)))
      ensures r.Done? && r.value.Some? ==> r.value.value == rows[KeyOf(userId).value] && r.value.value.id == KeyOf(userId).value
    {
      var err := StatementError([userId], fault);
      if err.Some? {
        return Threw(err.value);
      }
      r := Done(Find(rows, KeyOf(userId)));
    }

    /** `createUser`: inserts the user's five fields under the next id,
        writes that id into the user object and returns the same object. */
    method CreateUser(user: User, fault: Option<string>) returns (r: Outcome<User>)
      requires Valid()
      modifies this, user
      ensures Valid()
      ensures user.Fields() == old(user.Fields())
      ensures var err := StatementError(FieldParams(old(user.Fields())), fault);
        if err.Some? then
          r == Threw(err.value) && rows == old(rows) && nextId == old(nextId) && user.id == old(user.id)
        else
          && r == Done(user)
          && user.id == Num(old(nextId) as real)
          && rows == Inserted(old(rows), old(nextId), old(user.Fields()))
          && nextId == old(nextId) + 1
    {
      var err := StatementError(FieldParams(user.Fields()), fault);
      if err.Some? {
        return Threw(err.value);
      }
      rows := Inserted(rows, nextId, user.Fields());
      user.id := Num(nextId as real);
      nextId := nextId + 1;
      r := Done(user);
    }

    /** `updateUser`: overwrites the five fields of the live row with that id
        and returns the user object when a row matched, else `null`. */
    method UpdateUser(userId: Value, user: User, fault: Option<string>) returns (r: Outcome<Option<User>>)
      requires Valid()
      modifies this
      ensures Valid() && nextId == old(nextId)
      ensures var err := StatementError(FieldParams(user.Fields()) + [userId], fault);
        if err.Some? then
          r == Threw(err.value) && rows == old(rows)
        else
          && rows == Overwritten(old(rows), KeyOf(userId), user.Fields())
          && r == Done(if IsLive(old(rows), KeyOf(userId)) then Some(user) else None)
    {
      var err := StatementError(FieldParams(user.Fields()) + [userId], fault);
      if err.Some? {
        return Threw(err.value);
      }
      var matched := IsLive(rows, KeyOf(userId));
      rows := Overwritten(rows, KeyOf(userId), user.Fields());
      r := Done(if matched then Some(user) else None);
    }

    /** `softDeleteUser`: flags the row with that id, live or not, and tells
        whether a row matched. */
    method SoftDeleteUser(userId: Value, fault: Option<string>) returns (r: Outcome<bool>)
      requires Valid()
      modifies this
      ensures Valid() && nextId == old(nextId)
      ensures var err := StatementError([userId], fault);
        if err.Some? then
          r == Threw(err.value) && rows == old(rows)
        else
          rows == SoftDeleted(old(rows), KeyOf(userId)) && r == Done(IsStored(old(rows), KeyOf(userId)))
    {
      var err := StatementError([userId], fault);
      if err.Some? {
        return Threw(err.value);
      }
      var matched := IsStored(rows, KeyOf(userId));
      rows := SoftDeleted(rows, KeyOf(userId));
      r := Done(matched);
    }
  }
}
