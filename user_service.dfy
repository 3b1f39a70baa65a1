/** The service layer: it builds `User` objects from exactly the five
    business fields, forces the path id onto updates, and implements the
    partial update as read, merge (`{...existing, ...partialData}`), write.
    Each operation is given twice: as a pure effect on the table's rows (the
    specification) and as a method over the table object that is proved to
    have that effect. */
module UserService {
  import opened Results
  import opened JsValue
  import opened UserModel
  import opened UserDao

  /** What a call does to the table's rows, and how it settles. */
  datatype Effect<T> = Effect(rows: map<int, Row>, outcome: Outcome<T>)

  /** The TypeError thrown by reading `userData.email` when `userData` is
      `undefined` or `null`. */
  function ReadError(data: Value): string
  {
    "Cannot read properties of " + (if data.Null? then "null" else "undefined") + " (reading 'email')"
  }

  /** One field of the merge: the partial data's value if it has the key,
      the existing value otherwise. */
  function Pick(existing: UserFields, partial: seq<Prop>, k: string): Value
    requires k in FieldKeys
  {
    if HasKey(partial, k) then Get(partial, k) else FieldAt(existing, k)
  }

  /** The five fields a partial update writes, defined field by field. */
  function Merge(existing: UserFields, partialData: Value): UserFields
  {
    var p := OwnProps(partialData);
    UserFields(Pick(existing, p, "email"), Pick(existing, p, "name"), Pick(existing, p, "age"),
               Pick(existing, p, "city"), Pick(existing, p, "zipCode"))
  }

  /** Reading the five fields off `{...existing, ...partialData}`, where
      `existing` is the row object the driver returned, gives `Merge`. */
  lemma SpreadIsMerge(row: Row, partialData: Value)
    ensures FieldsOf(Obj(Spread(RowProps(row), OwnProps(partialData)))) == Merge(row.fields, partialData)
  {
    var a, b := RowProps(row), OwnProps(partialData);
    SpreadGet(a, b, "email");
    RowPropsGet(row, "email");
    SpreadGet(a, b, "name");
    RowPropsGet(row, "name");
    SpreadGet(a, b, "age");
    RowPropsGet(row, "age");
    SpreadGet(a, b, "city");
    RowPropsGet(row, "city");
    SpreadGet(a, b, "zipCode");
    RowPropsGet(row, "zipCode");
  }

  /** The partial data's fields win; absent keys leave the existing value. */
  lemma MergeFieldwise(existing: UserFields, partialData: Value, k: string)
    requires k in FieldKeys
    ensures HasKey(OwnProps(partialData), k) ==> FieldAt(Merge(existing, partialData), k) == Property(partialData, k)
    ensures !HasKey(OwnProps(partialData), k) ==> FieldAt(Merge(existing, partialData), k) == FieldAt(existing, k)
  {
  }

  /** `{age: 31}` changes the age and nothing else. */
  lemma MergeOneField(existing: UserFields, age: Value)
    ensures Merge(existing, Obj([Prop("age", age)])) == existing.(age := age)
  {
    var p := [Prop("age", age)];
    assert p[..0] == [];
    forall k | k in FieldKeys && k != "age"
      ensures !HasKey(p, k)
    {
      assert p[0].key != k;
    }
  }

  /** Partial data that carries all five keys replaces every field, exactly
      as a full update with the same payload does. */
  lemma MergeAllFields(existing: UserFields, partialData: Value)
    requires forall k | k in FieldKeys :: HasKey(OwnProps(partialData), k)
    ensures Merge(existing, partialData) == FieldsOf(partialData)
  {
  }

  /** Merging the same partial data twice is merging it once. */
  lemma MergeIdempotent(existing: UserFields, partialData: Value)
    ensures Merge(Merge(existing, partialData), partialData) == Merge(existing, partialData)
  {
  }

  /** Removing a property whose key is not `k` leaves `o[k]` unchanged,
      wherever the property stood. */
  lemma {:induction false} GetSkip(a: seq<Prop>, extra: Prop, b: seq<Prop>, k: string)
    requires extra.key != k
    ensures Get(a + [extra] + b, k) == Get(a + b, k)
  {
    if b == [] {
      assert a + [extra] + b == a + [extra];
      assert a + b == a;
      GetLast(a, extra, k);
    } else {
      var init, last := b[..|b| - 1], b[|b| - 1];
      GetSkip(a, extra, init, k);
      assert a + [extra] + b == (a + [extra] + init) + [last];
      assert a + b == (a + init) + [last];
      GetLast(a + [extra] + init, last, k);
      GetLast(a + init, last, k);
    }
  }

  /** A key outside the five, at any position of the payload, changes
      nothing the service builds a User from: extra payload keys (a
      client-supplied `id`, say) are dropped. */
  lemma ExtraKeyDropped(a: seq<Prop>, extra: Prop, b: seq<Prop>)
    requires extra.key !in FieldKeys
    ensures FieldsOf(Obj(a + [extra] + b)) == FieldsOf(Obj(a + b))
  {
    forall k | k in FieldKeys
      ensures Get(a + [extra] + b, k) == Get(a + b, k)
    {
      GetSkip(a, extra, b, k);
    }
  }

  /** `createUser`: a User built from the five fields is inserted under the
      next id and comes back carrying that id. */
  function CreateEffect(rows: map<int, Row>, nextId: int, userData: Value, fault: Option<string>): (e: Effect<UserView>)
    requires forall k | k in rows :: k < nextId
    ensures e.outcome.Threw? ==> e.rows == rows
    ensures e.outcome.Done? ==> e.outcome.value == UserView(Num(nextId as real), FieldsOf(userData))
    ensures e.outcome.Done? ==> e.rows == Inserted(rows, nextId, FieldsOf(userData))
  {
    if userData.Undefined? || userData.Null? then Effect(rows, Threw(ReadError(userData)))
    else
      var fields := FieldsOf(userData);
      match StatementError(FieldParams(fields), fault)
      case Some(err) => Effect(rows, Threw(err))
      case None => Effect(Inserted(rows, nextId, fields), Done(UserView(Num(nextId as real), fields)))
  }

  /** The DAO's `updateUser(userId, user)` for a user whose id was set to
      `userId` and whose fields are `fields`. */
  function WriteEffect(rows: map<int, Row>, userId: Value, fields: UserFields, fault: Option<string>): (e: Effect<Option<UserView>>)
    ensures e.outcome.Threw? ==> e.rows == rows
    ensures e.outcome.Done? ==> e.rows == Overwritten(rows, KeyOf(userId), fields)
    ensures e.outcome.Done? ==> (e.outcome.value.Some? <==> IsLive(rows, KeyOf(userId)))
    ensures e.outcome.Done? && e.outcome.value.Some? ==> e.outcome.value.value == UserView(userId, fields)
  {
    match StatementError(FieldParams(fields) + [userId], fault)
    case Some(err) => Effect(rows, Threw(err))
    case None =>
      Effect(Overwritten(rows, KeyOf(userId), fields),
             Done(if IsLive(rows, KeyOf(userId)) then Some(UserView(userId, fields)) else None))
  }

  /** `updateUser`: the payload's five fields, under the path id. */
  function UpdateEffect(rows: map<int, Row>, userId: Value, userData: Value, fault: Option<string>): (e: Effect<Option<UserView>>)
    ensures userData.Undefined? || userData.Null? ==> e == Effect(rows, Threw(ReadError(userData)))
    ensures e.outcome.Threw? ==> e.rows == rows
    ensures e.outcome.Done? ==> e.rows == Overwritten(rows, KeyOf(userId), FieldsOf(userData))
    ensures e.outcome.Done? ==> (e.outcome.value.Some? <==> IsLive(rows, KeyOf(userId)))
    ensures e.outcome.Done? && e.outcome.value.Some? ==> e.outcome.value.value == UserView(userId, FieldsOf(userData))
  {
    if userData.Undefined? || userData.Null? then Effect(rows, Threw(ReadError(userData)))
    else WriteEffect(rows, userId, FieldsOf(userData), fault)
  }

  /** `deleteUser`: the soft delete, reporting whether a row matched. */
  function DeleteEffect(rows: map<int, Row>, userId: Value, fault: Option<string>): (e: Effect<bool>)
    ensures e.outcome.Threw? ==> e.rows == rows
    ensures e.outcome.Done? ==> e.rows == SoftDeleted(rows, KeyOf(userId))
    ensures e.outcome.Done? ==> e.outcome.value == IsStored(rows, KeyOf(userId))
  {
    match StatementError([userId], fault)
    case Some(err) => Effect(rows, Threw(err))
    case None => Effect(SoftDeleted(rows, KeyOf(userId)), Done(IsStored(rows, KeyOf(userId))))
  }

  /** `partialUpdateUser`: read the live row (`readFault` for that
      statement), stop with `null` if there is none, otherwise write the
      merge of the row and the partial data under the path id (`writeFault`
      for that statement). */
  function PartialEffect(rows: map<int, Row>, userId: Value, partialData: Value,
                         readFault: Option<string>, writeFault: Option<string>): (e: Effect<Option<UserView>>)
    ensures e.outcome.Threw? ==> e.rows == rows
    ensures StatementError([userId], readFault).None? && !IsLive(rows, KeyOf(userId)) ==> e == Effect(rows, Done(None))
    ensures e.outcome.Done? ==> (e.outcome.value.Some? <==> IsLive(rows, KeyOf(userId)))
    ensures e.outcome.Done? && e.outcome.value.Some? ==>
      IsLive(rows, KeyOf(userId)) &&
      e.outcome.value.value == UserView(userId, Merge(rows[KeyOf(userId).value].fields, partialData)) &&
      e.rows == Overwritten(rows, KeyOf(userId), e.outcome.value.value.fields)
  {
    match StatementError([userId], readFault)
    case Some(err) => Effect(rows, Threw(err))
    case None =>
      if !IsLive(rows, KeyOf(userId)) then Effect(rows, Done(None))
      else WriteEffect(rows, userId, Merge(rows[KeyOf(userId).value].fields, partialData), writeFault)
  }

  /** In a store that fails no statement, a partial update of a live row
      whose stored fields are all defined, with partial data parsed from
      JSON, writes the merge under the path id and returns it; with no live
      row it writes nothing and returns `null`. */
  lemma PartialUpdateWrites(rows: map<int, Row>, userId: Value, partialData: Value)
    requires !userId.Undefined? && NoUndefined(OwnProps(partialData))
    requires IsLive(rows, KeyOf(userId)) ==> Undefined !in FieldParams(rows[KeyOf(userId).value].fields)
    ensures var e := PartialEffect(rows, userId, partialData, None, None);
      if IsLive(rows, KeyOf(userId)) then
        var merged := Merge(rows[KeyOf(userId).value].fields, partialData);
        e == Effect(Overwritten(rows, KeyOf(userId), merged), Done(Some(UserView(userId, merged))))
      else e == Effect(rows, Done(None))
  {
    var key := KeyOf(userId);
    if IsLive(rows, key) {
      var merged := Merge(rows[key.value].fields, partialData);
      MergeDefined(rows[key.value].fields, partialData);
      assert Undefined !in FieldParams(merged) + [userId];
    }
  }

  /** Merging defined fields with partial data parsed from JSON binds no
      `undefined`. */
  lemma MergeDefined(existing: UserFields, partialData: Value)
    requires Undefined !in FieldParams(existing) && NoUndefined(OwnProps(partialData))
    ensures Undefined !in FieldParams(Merge(existing, partialData))
  {
    var p := OwnProps(partialData);
    if HasKey(p, "email") { GetPresent(p, "email"); }
    if HasKey(p, "name") { GetPresent(p, "name"); }
    if HasKey(p, "age") { GetPresent(p, "age"); }
    if HasKey(p, "city") { GetPresent(p, "city"); }
    if HasKey(p, "zipCode") { GetPresent(p, "zipCode"); }
  }

  /** Once the read has found a live row, the partial update is the write
      of the merge. */
  lemma PartialEffectWrites(rows: map<int, Row>, userId: Value, partialData: Value,
                            readFault: Option<string>, writeFault: Option<string>)
    requires StatementError([userId], readFault).None? && IsLive(rows, KeyOf(userId))
    ensures PartialEffect(rows, userId, partialData, readFault, writeFault) ==
      WriteEffect(rows, userId, Merge(rows[KeyOf(userId).value].fields, partialData), writeFault)
  {
  }

  /** Applying the same partial update a second time leaves the table as
      the first application left it, and settles the same way if it
      succeeds. */
  lemma PartialUpdateIdempotent(rows: map<int, Row>, userId: Value, partialData: Value,
                                readFault: Option<string>, writeFault: Option<string>,
                                readFault2: Option<string>, writeFault2: Option<string>)
    requires PartialEffect(rows, userId, partialData, readFault, writeFault).outcome.Done?
    ensures var once := PartialEffect(rows, userId, partialData, readFault, writeFault);
      var twice := PartialEffect(once.rows, userId, partialData, readFault2, writeFault2);
      twice.rows == once.rows && (twice.outcome.Done? ==> twice.outcome == once.outcome)
  {
    var key := KeyOf(userId);
    var once := PartialEffect(rows, userId, partialData, readFault, writeFault);
    if IsLive(rows, key) {
      var merged := Merge(rows[key.value].fields, partialData);
      MergeIdempotent(rows[key.value].fields, partialData);
      assert once.rows == Overwritten(rows, key, merged);
      assert once.rows[key.value].fields == merged;
    }
  }

  /** In a store that fails no statement, a partial update carrying all five
      fields has the same effect and result as a full update with the same
      payload. */
  lemma PartialWithAllFieldsIsUpdate(rows: map<int, Row>, userId: Value, partialData: Value)
    requires partialData.Obj?
    requires forall k | k in FieldKeys :: HasKey(partialData.props, k) && Get(partialData.props, k) != Undefined
    ensures PartialEffect(rows, userId, partialData, None, None) == UpdateEffect(rows, userId, partialData, None)
  {
    var key := KeyOf(userId);
    if IsLive(rows, key) {
      MergeAllFields(rows[key.value].fields, partialData);
    } else if !userId.Undefined? {
      var fields := FieldsOf(partialData);
      assert Undefined !in FieldParams(fields) + [userId];
    }
  }

  /** A user created through the service is then found by the id it came
      back with, holding the five fields of the payload. */
  lemma CreateThenFind(rows: map<int, Row>, nextId: int, userData: Value, fault: Option<string>)
    requires forall k | k in rows :: k < nextId
    requires CreateEffect(rows, nextId, userData, fault).outcome.Done?
    ensures var e := CreateEffect(rows, nextId, userData, fault);
      Find(e.rows, KeyOf(e.outcome.value.id)) == Some(Row(nextId, FieldsOf(userData), false))
  {
    var e := CreateEffect(rows, nextId, userData, fault);
    assert Numeric(e.outcome.value.id) == Some(nextId as real);
  }

  /** Deleting twice reports success both times when the row exists. */
  lemma DeleteTwice(rows: map<int, Row>, userId: Value)
    requires IsStored(rows, KeyOf(userId)) && !userId.Undefined?
    ensures DeleteEffect(rows, userId, None).outcome == Done(true)
    ensures DeleteEffect(DeleteEffect(rows, userId, None).rows, userId, None).outcome == Done(true)
  {
  }

  method GetAllUsers(table: UserTable, fault: Option<string>) returns (r: Outcome<seq<Row>>)
    requires table.Valid()
    ensures r == Listing(table.rows, table.nextId, fault)
  {
    r := table.GetAllUsers(fault);
  }

  method GetUserById(table: UserTable, userId: Value, fault: Option<string>) returns (r: Outcome<Option<Row>>)
    requires table.Valid()
    ensures r == Lookup(table.rows, userId, fault)
  {
    r := table.GetUserById(userId, fault);
  }

  method CreateUser(table: UserTable, userData: Value, fault: Option<string>) returns (r: Outcome<User>)
    requires table.Valid()
    modifies table
    ensures table.Valid()
    ensures var e := CreateEffect(old(table.rows), old(table.nextId), userData, fault);
      && table.rows == e.rows
      && (r.Threw? <==> e.outcome.Threw?)
      && (r.Threw? ==> r.message == e.outcome.message)
      && (r.Done? ==> fresh(r.value) && r.value.View() == e.outcome.value)
    ensures table.nextId == if r.Done? then old(table.nextId) + 1 else old(table.nextId)
  {
    if userData.Undefined? || userData.Null? {
      return Threw(ReadError(userData));
    }
    var user := new User(Property(userData, "email"), Property(userData, "name"), Property(userData, "age"),
                         Property(userData, "city"), Property(userData, "zipCode"));
    r := table.CreateUser(user, fault);
  }

  method UpdateUser(table: UserTable, userId: Value, userData: Value, fault: Option<string>) returns (r: Outcome<Option<User>>)
    requires table.Valid()
    modifies table
    ensures table.Valid() && table.nextId == old(table.nextId)
    ensures var e := UpdateEffect(old(table.rows), userId, userData, fault);
      && table.rows == e.rows
      && (r.Threw? <==> e.outcome.Threw?)
      && (r.Threw? ==> r.message == e.outcome.message)
      && (r.Done? ==> (r.value.Some? <==> e.outcome.value.Some?))
      && (r.Done? && r.value.Some? ==> fresh(r.value.value) && r.value.value.View() == e.outcome.value.value)
  {
    if userData.Undefined? || userData.Null? {
      return Threw(ReadError(userData));
    }
    var user := new User(Property(userData, "email"), Property(userData, "name"), Property(userData, "age"),
                         Property(userData, "city"), Property(userData, "zipCode"));
    user.id := userId;
    r := table.UpdateUser(userId, user, fault);
  }

  method DeleteUser(table: UserTable, userId: Value, fault: Option<string>) returns (r: Outcome<bool>)
    requires table.Valid()
    modifies table
    ensures table.Valid() && table.nextId == old(table.nextId)
    ensures var e := DeleteEffect(old(table.rows), userId, fault);
      table.rows == e.rows && r == e.outcome
  {
    r := table.SoftDeleteUser(userId, fault);
  }

  method PartialUpdateUser(table: UserTable, userId: Value, partialData: Value,
                           readFault: Option<string>, writeFault: Option<string>) returns (r: Outcome<Option<User>>)
    requires table.Valid()
    modifies table
    ensures table.Valid() && table.nextId == old(table.nextId)
    ensures var e := PartialEffect(old(table.rows), userId, partialData, readFault, writeFault);
      && table.rows == e.rows
      && (r.Threw? <==> e.outcome.Threw?)
      && (r.Threw? ==> r.message == e.outcome.message)
      && (r.Done? ==> (r.value.Some? <==> e.outcome.value.Some?))
      && (r.Done? && r.value.Some? ==> fresh(r.value.value) && r.value.value.View() == e.outcome.value.value)
  {
    var existing := GetUserById(table, userId, readFault);
    if existing.Threw? {
      return Threw(existing.message);
    }
    if existing.value.None? {
      return Done(None);
    }
    PartialEffectWrites(table.rows, userId, partialData, readFault, writeFault);
    r := WriteMerged(table, userId, existing.value.value, partialData, writeFault);
  }

  /** The write half of `partialUpdateUser`: spread the partial data over
      the row that was read, build a User from the result, and update. */
  method WriteMerged(table: UserTable, userId: Value, row: Row, partialData: Value, writeFault: Option<string>)
    returns (r: Outcome<Option<User>>)
    requires table.Valid()
    modifies table
    ensures table.Valid() && table.nextId == old(table.nextId)
    ensures var e := WriteEffect(old(table.rows), userId, Merge(row.fields, partialData), writeFault);
      && table.rows == e.rows
      && (r.Threw? <==> e.outcome.Threw?)
      && (r.Threw? ==> r.message == e.outcome.message)
      && (r.Done? ==> (r.value.Some? <==> e.outcome.value.Some?))
      && (r.Done? && r.value.Some? ==> fresh(r.value.value) && r.value.value.View() == e.outcome.value.value)
  {
    var updated := Spread(RowProps(row), OwnProps(partialData));
    SpreadIsMerge(row, partialData);
    var user := new User(Get(updated, "email"), Get(updated, "name"), Get(updated, "age"),
                         Get(updated, "city"), Get(updated, "zipCode"));
    user.id := userId;
    assert user.Fields() == FieldsOf(Obj(updated)) == Merge(row.fields, partialData);
    r := table.UpdateUser(userId, user, writeFault);
  }
}
