/** The HTTP handlers of `/users`: each validates its input, calls the
    service, and answers with a status code and a body. The pure reply
    functions state which status each outcome gets; the handler methods are
    proved to write exactly that reply into the response object. */
module UserController {
  import opened Results
  import opened JsValue
  import opened UserModel
  import opened UserValidator
  import opened UserDao
  import UserService

  /** What `res.send(text)`, `res.send()` and `res.json(value)` put in the
      response body. */
  datatype Body = NoBody | Text(text: string) | Json(json: Value)

  /** The status line and body a handler answers with. */
  datatype Reply = Reply(status: int, body: Body)

  const NotFound: string := "User not found"

  /** The response object a handler writes into. */
  class Response {
    var statusCode: int
    var body: Body

    /** A response nothing has been written to: status 200, no body. */
    constructor ()
      ensures Sent() == Reply(200, NoBody)
    {
      statusCode := 200;
      body := NoBody;
    }

    /** The reply as written so far. */
    function Sent(): Reply
      reads this
    {
      Reply(statusCode, body)
    }

    /** `res.status(code)`. */
    method Status(code: int)
      modifies this
      ensures statusCode == code && body == old(body)
    {
      statusCode := code;
    }

    /** `res.send(text)`. */
    method Send(text: string)
      modifies this
      ensures statusCode == old(statusCode) && body == Text(text)
    {
      body := Text(text);
    }

    /** `res.send()`. */
    method SendNothing()
      modifies this
      ensures statusCode == old(statusCode) && body == NoBody
    {
      body := NoBody;
    }

    /** `res.json(value)`. */
    method SendJson(value: Value)
      modifies this
      ensures statusCode == old(statusCode) && body == Json(value)
    {
      body := Json(value);
    }
  }

  /** The JSON array `res.json(rows)` sends for the driver's row objects. */
  function RowsJson(rows: seq<Row>): seq<Value>
  {
    seq(|rows|, i requires 0 <= i < |rows| => Obj(RowProps(rows[i])))
  }

  /** The answer to a request the validator refused: 400 and the first
      issue's message. */
  function Rejection(issue: Issue): Reply
  {
    Reply(400, Text(Message(issue)))
  }

  /** The answer when the service throws: 500 and the error's message. */
  function Failure(message: string): Reply
  {
    Reply(500, Text(message))
  }

  /** `GET /users`. */
  function ListReply(o: Outcome<seq<Row>>): (r: Reply)
    ensures r.status == 500 <==> o.Threw?
    ensures r.status == 500 ==> r.body == Text(o.message)
    ensures r.status == 200 <==> o.Done?
    ensures r.status == 200 ==>
      && r.body.Json? && r.body.json.Arr? && |r.body.json.items| == |o.value|
      && (forall i | 0 <= i < |o.value| :: r.body.json.items[i] == Obj(RowProps(o.value[i])))
  {
    match o
    case Threw(m) => Failure(m)
    case Done(rows) => Reply(200, Json(Arr(RowsJson(rows))))
  }

  /** `GET /users/:userId`: 400 for a refused id, 500 when the lookup
      throws, 404 when no live row matches, else 200 and the row. */
  function GetReply(check: Verdict, o: Outcome<Option<Row>>): (r: Reply)
    ensures r.status == 400 <==> check.Rejected?
    ensures r.status == 400 ==> r.body == Text(Message(check.issue))
    ensures r.status == 500 <==> check.Accepted? && o.Threw?
    ensures r.status == 500 ==> r.body == Text(o.message)
    ensures r.status == 404 <==> check.Accepted? && o == Done(None)
    ensures r.status == 404 ==> r.body == Text(NotFound)
    ensures r.status == 200 <==> check.Accepted? && o.Done? && o.value.Some?
    ensures r.status == 200 ==> r.body == Json(Obj(RowProps(o.value.value)))
  {
    if check.Rejected? then Rejection(check.issue)
    else
      match o
      case Threw(m) => Failure(m)
      case Done(None) => Reply(404, Text(NotFound))
      case Done(Some(row)) => Reply(200, Json(Obj(RowProps(row))))
  }

  /** `POST /users`: 400 for a refused payload, 500 when the insert
      throws, else 201 and the created user with its id. */
  function CreateReply(check: Verdict, o: Outcome<UserView>): (r: Reply)
    ensures r.status == 400 <==> check.Rejected?
    ensures r.status == 400 ==> r.body == Text(Message(check.issue))
    ensures r.status == 500 <==> check.Accepted? && o.Threw?
    ensures r.status == 500 ==> r.body == Text(o.message)
    ensures r.status == 201 <==> check.Accepted? && o.Done?
    ensures r.status == 201 ==> r.body == Json(ViewJson(o.value))
  {
    if check.Rejected? then Rejection(check.issue)
    else
      match o
      case Threw(m) => Failure(m)
      case Done(view) => Reply(201, Json(ViewJson(view)))
  }

  /** `PUT` and `PATCH /users/:userId`: 400 for a refused payload, 500 when
      the service throws, 404 when no live row was updated, else 200 and the
      user as written. */
  function SaveReply(check: Verdict, o: Outcome<Option<UserView>>): (r: Reply)
    ensures r.status == 400 <==> check.Rejected?
    ensures r.status == 400 ==> r.body == Text(Message(check.issue))
    ensures r.status == 500 <==> check.Accepted? && o.Threw?
    ensures r.status == 500 ==> r.body == Text(o.message)
    ensures r.status == 404 <==> check.Accepted? && o == Done(None)
    ensures r.status == 404 ==> r.body == Text(NotFound)
    ensures r.status == 200 <==> check.Accepted? && o.Done? && o.value.Some?
    ensures r.status == 200 ==> r.body == Json(ViewJson(o.value.value))
  {
    if check.Rejected? then Rejection(check.issue)
    else
      match o
      case Threw(m) => Failure(m)
      case Done(None) => Reply(404, Text(NotFound))
      case Done(Some(view)) => Reply(200, Json(ViewJson(view)))
  }

  /** `DELETE /users/:userId`: 400 for a refused id, 500 when the update
      throws, 404 when no row matched, else 204 with no body. */
  function DeleteReply(check: Verdict, o: Outcome<bool>): (r: Reply)
    ensures r.status == 400 <==> check.Rejected?
    ensures r.status == 400 ==> r.body == Text(Message(check.issue))
    ensures r.status == 500 <==> check.Accepted? && o.Threw?
    ensures r.status == 500 ==> r.body == Text(o.message)
    ensures r.status == 404 <==> check.Accepted? && o == Done(false)
    ensures r.status == 404 ==> r.body == Text(NotFound)
    ensures r.status == 204 <==> check.Accepted? && o == Done(true)
    ensures r.status == 204 ==> r.body == NoBody
  {
    if check.Rejected? then Rejection(check.issue)
    else
      match o
      case Threw(m) => Failure(m)
      case Done(false) => Reply(404, Text(NotFound))
      case Done(true) => Reply(204, NoBody)
  }

  method ListUsers(table: UserTable, res: Response, fault: Option<string>)
    requires table.Valid() && res.Sent() == Reply(200, NoBody)
    modifies res
    ensures res.Sent() == ListReply(Listing(table.rows, table.nextId, fault))
  {
    var users := UserService.GetAllUsers(table, fault);
    match users
    case Threw(m) =>
      res.Status(500);
      res.Send(m);
    case Done(rows) =>
      res.SendJson(Arr(RowsJson(rows)));
  }

  method GetUser(table: UserTable, res: Response, userId: string, fault: Option<string>)
    requires table.Valid() && res.Sent() == Reply(200, NoBody)
    modifies res
    ensures res.Sent() == GetReply(ValidateId(Str(userId)), Lookup(table.rows, Str(userId), fault))
  {
    var check := ValidateId(Str(userId));
    if check.Rejected? {
      res.Status(400);
      res.Send(Message(check.issue));
      return;
    }
    var user := UserService.GetUserById(table, Str(userId), fault);
    match user
    case Threw(m) =>
      res.Status(500);
      res.Send(m);
    case Done(None) =>
      res.Status(404);
      res.Send(NotFound);
    case Done(Some(row)) =>
      res.SendJson(Obj(RowProps(row)));
  }

  method CreateUser(table: UserTable, res: Response, body: Value, fault: Option<string>)
    requires table.Valid() && res.Sent() == Reply(200, NoBody)
    modifies table, res
    ensures table.Valid()
    ensures ValidateUser(body).Rejected? ==> unchanged(table)
    ensures var e := UserService.CreateEffect(old(table.rows), old(table.nextId), body, fault);
      && (ValidateUser(body).Accepted? ==> table.rows == e.rows)
      && (ValidateUser(body).Accepted? ==>
            table.nextId == if e.outcome.Done? then old(table.nextId) + 1 else old(table.nextId))
      && res.Sent() == CreateReply(ValidateUser(body), e.outcome)
  {
    var check := ValidateUser(body);
    if check.Rejected? {
      res.Status(400);
      res.Send(Message(check.issue));
      return;
    }
    var user := UserService.CreateUser(table, body, fault);
    match user
    case Threw(m) =>
      res.Status(500);
      res.Send(m);
    case Done(u) =>
      res.Status(201);
      res.SendJson(ViewJson(u.View()));
  }

  method UpdateUser(table: UserTable, res: Response, userId: string, body: Value, fault: Option<string>)
    requires table.Valid() && res.Sent() == Reply(200, NoBody)
    modifies table, res
    ensures table.Valid() && table.nextId == old(table.nextId)
    ensures ValidateUser(body).Rejected? ==> unchanged(table)
    ensures var e := UserService.UpdateEffect(old(table.rows), Str(userId), body, fault);
      && (ValidateUser(body).Accepted? ==> table.rows == e.rows)
      && res.Sent() == SaveReply(ValidateUser(body), e.outcome)
  {
    var check := ValidateUser(body);
    if check.Rejected? {
      res.Status(400);
      res.Send(Message(check.issue));
      return;
    }
    var user := UserService.UpdateUser(table, Str(userId), body, fault);
    match user
    case Threw(m) =>
      res.Status(500);
      res.Send(m);
    case Done(None) =>
      res.Status(404);
      res.Send(NotFound);
    case Done(Some(u)) =>
      res.SendJson(ViewJson(u.View()));
  }

  method DeleteUser(table: UserTable, res: Response, userId: string, fault: Option<string>)
    requires table.Valid() && res.Sent() == Reply(200, NoBody)
    modifies table, res
    ensures table.Valid() && table.nextId == old(table.nextId)
    ensures ValidateId(Str(userId)).Rejected? ==> unchanged(table)
    ensures var e := UserService.DeleteEffect(old(table.rows), Str(userId), fault);
      && (ValidateId(Str(userId)).Accepted? ==> table.rows == e.rows)
      && res.Sent() == DeleteReply(ValidateId(Str(userId)), e.outcome)
  {
    var check := ValidateId(Str(userId));
    if check.Rejected? {
      res.Status(400);
      res.Send(Message(check.issue));
      return;
    }
    var success := UserService.DeleteUser(table, Str(userId), fault);
    match success
    case Threw(m) =>
      res.Status(500);
      res.Send(m);
    case Done(false) =>
      res.Status(404);
      res.Send(NotFound);
    case Done(true) =>
      res.Status(204);
      res.SendNothing();
  }

  method PartialUpdateUser(table: UserTable, res: Response, userId: string, body: Value,
                           readFault: Option<string>, writeFault: Option<string>)
    requires table.Valid() && res.Sent() == Reply(200, NoBody)
    modifies table, res
    ensures table.Valid() && table.nextId == old(table.nextId)
    ensures ValidatePartialUser(body).Rejected? ==> unchanged(table)
    ensures var e := UserService.PartialEffect(old(table.rows), Str(userId), body, readFault, writeFault);
      && (ValidatePartialUser(body).Accepted? ==> table.rows == e.rows)
      && res.Sent() == SaveReply(ValidatePartialUser(body), e.outcome)
  {
    var check := ValidatePartialUser(body);
    if check.Rejected? {
      res.Status(400);
      res.Send(Message(check.issue));
      return;
    }
    var user := UserService.PartialUpdateUser(table, Str(userId), body, readFault, writeFault);
    match user
    case Threw(m) =>
      res.Status(500);
      res.Send(m);
    case Done(None) =>
      res.Status(404);
      res.Send(NotFound);
    case Done(Some(u)) =>
      res.SendJson(ViewJson(u.View()));
  }

  // Request sequences, with a store that fails no statement.

  /** A payload the full schema accepts binds no `undefined`. */
  lemma AcceptedPayloadBinds(body: Value)
    requires body.Obj? && ValidateUser(body).Accepted?
    ensures Undefined !in FieldParams(FieldsOf(body))
  {
    AcceptedHasEveryField(body, "email");
    AcceptedHasEveryField(body, "name");
    AcceptedHasEveryField(body, "age");
    AcceptedHasEveryField(body, "city");
    AcceptedHasEveryField(body, "zipCode");
  }

  /** `POST /users` with a valid payload answers 201 with the new id, and
      `GET /users/<that id>` then answers 200 with the stored row. */
  lemma CreateThenGet(rows: map<int, Row>, nextId: nat, body: Value)
    requires forall k | k in rows :: k < nextId
    requires body.Obj? && ValidateUser(body).Accepted?
    requires nextId <= MaxSafe
    ensures var e := UserService.CreateEffect(rows, nextId, body, None);
      && CreateReply(ValidateUser(body), e.outcome) == Reply(201, Json(ViewJson(UserView(Num(nextId as real), FieldsOf(body)))))
      && ValidateId(Str(Decimal(nextId))) == Accepted
      && GetReply(Accepted, Lookup(e.rows, Str(Decimal(nextId)), None)) ==
         Reply(200, Json(Obj(RowProps(Row(nextId, FieldsOf(body), false)))))
  {
    AcceptedPayloadBinds(body);
    DigitIdAccepted(Decimal(nextId));
    DigitStringParses(Decimal(nextId));
    assert KeyOf(Str(Decimal(nextId))) == Some(nextId);
  }

  /** Once `DELETE /users/:userId` has answered 204, `GET` and `PATCH` of
      that id answer 404, and the `PATCH` writes nothing. */
  lemma DeleteThenNotFound(rows: map<int, Row>, userId: string, fault: Option<string>, patch: Value, writeFault: Option<string>)
    requires DeleteReply(Accepted, UserService.DeleteEffect(rows, Str(userId), fault).outcome).status == 204
    requires ValidatePartialUser(patch).Accepted?
    ensures var after := UserService.DeleteEffect(rows, Str(userId), fault).rows;
      && GetReply(Accepted, Lookup(after, Str(userId), None)) == Reply(404, Text(NotFound))
      && UserService.PartialEffect(after, Str(userId), patch, None, writeFault).rows == after
      && SaveReply(Accepted, UserService.PartialEffect(after, Str(userId), patch, None, writeFault).outcome) ==
         Reply(404, Text(NotFound))
  {
    var after := UserService.DeleteEffect(rows, Str(userId), fault).rows;
    assert after == SoftDeleted(rows, KeyOf(Str(userId)));
    assert !IsLive(after, KeyOf(Str(userId)));
  }

  /** A valid `PUT` answers 200 when a live row has that id and 404
      otherwise; it never fails on the driver's own check. */
  lemma PutAnswers(rows: map<int, Row>, userId: string, body: Value)
    requires body.Obj? && ValidateUser(body).Accepted?
    ensures SaveReply(Accepted, UserService.UpdateEffect(rows, Str(userId), body, None).outcome).status ==
      if IsLive(rows, KeyOf(Str(userId))) then 200 else 404
  {
    AcceptedPayloadBinds(body);
    assert Undefined !in FieldParams(FieldsOf(body)) + [Str(userId)];
  }

  /** A valid `PATCH`, in a store that fails nothing, answers 200 with the
      merge of the live row and the partial data, and 404 when no live row
      has that id. The stored row holds no `undefined`, and neither does a
      body parsed from JSON. */
  lemma PatchAnswers(rows: map<int, Row>, userId: string, patch: Value)
    requires patch.Obj? && NoUndefined(patch.props) && ValidatePartialUser(patch).Accepted?
    requires IsLive(rows, KeyOf(Str(userId))) ==> Undefined !in FieldParams(rows[KeyOf(Str(userId)).value].fields)
    ensures SaveReply(Accepted, UserService.PartialEffect(rows, Str(userId), patch, None, None).outcome) ==
      if IsLive(rows, KeyOf(Str(userId))) then
        Reply(200, Json(ViewJson(UserView(Str(userId), UserService.Merge(rows[KeyOf(Str(userId)).value].fields, patch)))))
      else Reply(404, Text(NotFound))
  {
    UserService.PartialUpdateWrites(rows, Str(userId), patch);
  }

  /** The path id of `PUT` is never validated: with a store that fails
      nothing (a non-strict `sql_mode`), a valid payload sent to a path id
      that starts with a letter, such as `/users/invalid-id`, matches no row
      (MySQL reads such a string as 0) and answers 404, not 400. Under strict
      mode the UPDATE refuses the string instead; that is a `fault`, and the
      answer is 500. */
  lemma PutWithNonNumericId(rows: map<int, Row>, userId: string, body: Value)
    requires userId != "" && ('a' <= userId[0] <= 'z' || 'A' <= userId[0] <= 'Z')
    requires body.Obj? && ValidateUser(body).Accepted?
    ensures SaveReply(ValidateUser(body), UserService.UpdateEffect(rows, Str(userId), body, None).outcome) ==
      Reply(404, Text(NotFound))
  {
    NotNumeric(userId);
    PutAnswers(rows, userId, body);
  }
}
