# worko users API, modelled in Dafny

This project models the core of `worko_assignment_backend`, a REST service
for user records under `/users`. It covers the Joi validators, the MySQL
data-access layer with soft delete, the service that builds `User` objects
and merges partial updates, and the Express controller that maps every
outcome to an HTTP status and body.

Modules, one per layer:

- `Results` (`results.dfy`) holds `Option` and `Outcome`. `Outcome` is a value or a thrown error message.
- `JsValue` (`js_value.dfy`) holds JavaScript values. An object is its properties in the order the body lists them, and the last value for a key wins. The module also has property reads, assignment, object spread and numeric strings.
- `UserModel` (`user_model.dfy`) holds the five business fields, the `User` class and the JSON a `User` serialises to.
- `UserValidator` (`user_validator.dfy`) holds the three schemas as pure functions. Each returns `Accepted` or the first issue Joi reports, with Joi's default message.
- `UserDao` (`user_dao.dfy`) holds the `users` table as a class with a map of rows and an AUTO_INCREMENT counter. Its methods are the five DAO functions, each proved against a pure table function.
- `UserService` (`user_service.dfy`) holds each service operation twice: once as a pure effect on the rows, and once as a method over the table proved to have that effect. It also holds the partial-update merge and its lemmas.
- `UserController` (`user_controller.dfy`) holds a `Response` class, pure reply functions that fix the status table, handler methods proved to write exactly that reply, and lemmas about request sequences.

Three kinds of input are passed in as parameters. A failing SQL statement is an explicit `fault` argument, because the database server is not modelled. The request body is a `Value`. The path `userId` is a string.

## Model

| member | source | states |
|---|---|---|
| UserValidator.Validate | worko_assignment_backend/validators/userValidator.js:3-17 | an absent body passes, and object.base is reported exactly when the body is not an object; every other refusal names a real fault: a required key the object lacks, a key it lists that is not one of the five, a present field that breaks its rule, or too few keys |
| UserValidator.FieldIssue | worko_assignment_backend/validators/userValidator.js:4-8 | a field rule only ever reports a string or number rule of that same field |
| UserValidator.KeysIssue | worko_assignment_backend/validators/userValidator.js:3-17 | a reported issue is about one of the declared keys: either it is absent and the schema requires it, or it is present and breaks its rule |
| UserValidator.UnknownIssue | worko_assignment_backend/validators/userValidator.js:3-17 | a reported issue names a key the object lists and the schema does not declare |
| UserValidator.ValidateUser | worko_assignment_backend/validators/userValidator.js:21-23 | an absent body passes, a missing-key refusal names a key the object lacks, and the key-count rule never applies; ValidateUserAccepts states exactly what passes |
| UserValidator.ValidatePartialUser | worko_assignment_backend/validators/userValidator.js:29-31 | an absent body passes, no key is ever reported missing, and a key-count refusal happens only for `{}`; ValidatePartialUserAccepts states exactly what passes |
| UserValidator.ValidateId | worko_assignment_backend/validators/userValidator.js:25-27 | an absent id is refused as required, and an accepted id denotes an integer; ValidateIdAccepts states exactly what passes |
| UserValidator.AcceptedHasEveryField | worko_assignment_backend/validators/userValidator.js:4-8 | a payload validateUser accepts has each of the five fields present |
| UserModel.FieldsOf | worko_assignment_backend/services/userService.js:13 | each of the five User fields is the payload's property of that name, and undefined when the payload lacks it |
| UserValidator.ValidateUserAccepts | worko_assignment_backend/validators/userValidator.js:3-9 | validateUser accepts exactly an absent body or an object with all five keys, each valid, and no other key |
| UserValidator.ValidatePartialUserAccepts | worko_assignment_backend/validators/userValidator.js:11-17 | validatePartialUser accepts exactly an absent body or a non-empty object whose keys are among the five and whose present values are valid |
| UserValidator.KeysIssueNone | worko_assignment_backend/validators/userValidator.js:3-17 | the declared keys raise no issue iff every present key is valid and, for the full schema, every key is present |
| UserValidator.UnknownIssueNone | worko_assignment_backend/validators/userValidator.js:3-17 | no unknown-key issue iff every key of the object is one of the five |
| UserValidator.EmptyPartialRejected | worko_assignment_backend/validators/userValidator.js:17 | `{}` is refused by `.min(1)` with "value must have at least 1 key" |
| UserValidator.FullImpliesPartial | worko_assignment_backend/validators/userValidator.js:3-17 | every payload validateUser accepts is also accepted by validatePartialUser |
| UserValidator.AgeRule | worko_assignment_backend/validators/userValidator.js:6 | age passes iff it denotes a safe, non-negative integer, as a number or a numeric string |
| UserValidator.ZipCodeRule | worko_assignment_backend/validators/userValidator.js:8 | zipCode passes iff it is a string of exactly 5 characters |
| UserValidator.StringRules | worko_assignment_backend/validators/userValidator.js:4-7 | email passes iff it is a string matching the address grammar; name and city pass iff they are non-empty strings |
| UserValidator.InvalidAgeRejected | worko_assignment_backend/validators/userValidator.js:6 | the age "invalid-age" is refused as not a number |
| UserValidator.ValidateIdAccepts | worko_assignment_backend/validators/userValidator.js:19 | validateId accepts exactly values that denote a safe integer |
| UserValidator.DigitIdAccepted | worko_assignment_backend/validators/userValidator.js:25-27 | a path id made of digits, of safe size, is accepted |
| UserValidator.InvalidIdRejected | worko_assignment_backend/validators/userValidator.js:19 | the id "invalid-id" is refused with "value must be a number" |
| UserDao.ScanLiveListsLiveRows | worko_assignment_backend/dao/userDAO.js:5 | the scan yields only live rows, each under its own id, yields every live row, and yields them in ascending id order |
| UserDao.Inserted | worko_assignment_backend/dao/userDAO.js:17-20 | the insert adds exactly one live row under a fresh id, holding the five given fields; existing rows are unchanged |
| UserDao.Overwritten | worko_assignment_backend/dao/userDAO.js:27-30 | the update overwrites only the five fields of the live row with that id; ids, flags, deleted rows and other rows are unchanged |
| UserDao.SoftDeleted | worko_assignment_backend/dao/userDAO.js:36 | the flag is set on the row with that id whatever it was; no row is removed, the count is unchanged, and the row is no longer live |
| UserDao.SoftDeleteHides | worko_assignment_backend/dao/userDAO.js:34-38 | after a soft delete the row is still stored, getUserById finds nothing, and the listing excludes the id |
| UserDao.UserTable.GetAllUsers | worko_assignment_backend/dao/userDAO.js:3-7 | returns exactly the live rows, each once, or throws the server's error; the ascending id order is the store's assumed default |
| UserDao.UserTable.GetUserById | worko_assignment_backend/dao/userDAO.js:9-13 | returns a row iff a live row has that id, and then that row; an undefined id throws the driver's bind error |
| UserDao.UserTable.CreateUser | worko_assignment_backend/dao/userDAO.js:15-23 | inserts the user's fields under the next id, writes that id into the same user object and returns it; on error nothing changes |
| UserDao.UserTable.UpdateUser | worko_assignment_backend/dao/userDAO.js:25-32 | overwrites the live row's fields and returns the user iff a live row matched, else null; on error nothing changes |
| UserDao.UserTable.SoftDeleteUser | worko_assignment_backend/dao/userDAO.js:34-38 | flags the row and returns true iff a row with that id exists, deleted or not |
| UserService.ExtraKeyDropped | worko_assignment_backend/services/userService.js:13 | a payload key outside the five, at any position (a leading client-supplied `id`, say), does not change the User the service builds |
| UserService.SpreadIsMerge | worko_assignment_backend/services/userService.js:31-36 | the five fields read off `{...existing, ...partialData}` are the field-wise merge |
| UserService.MergeFieldwise | worko_assignment_backend/services/userService.js:31-36 | each merged field is the partial data's value if that key is present, the existing value otherwise |
| UserService.MergeOneField | worko_assignment_backend/services/userService.js:31-36 | `{age: ...}` changes the age and nothing else |
| UserService.MergeAllFields | worko_assignment_backend/services/userService.js:31-36 | partial data with all five keys replaces every field |
| UserService.MergeIdempotent | worko_assignment_backend/services/userService.js:31-36 | merging the same partial data twice equals merging it once |
| UserService.CreateEffect | worko_assignment_backend/services/userService.js:12-15 | a successful create inserts the payload's five fields under the next id and returns a user with that id; a failure changes nothing |
| UserService.WriteEffect | worko_assignment_backend/services/userService.js:19-20 | the write returns the user with the path id iff a live row matched, and otherwise leaves the rows unchanged |
| UserService.UpdateEffect | worko_assignment_backend/services/userService.js:17-21 | an absent body throws the property-read TypeError; otherwise the payload's fields are written under the forced path id, and null comes back when no live row matched |
| UserService.DeleteEffect | worko_assignment_backend/services/userService.js:23-25 | the DAO's soft delete, with its result unchanged |
| UserService.PartialEffect | worko_assignment_backend/services/userService.js:27-38 | with no live row there is no write and the result is null; a partial update that settles returns a user iff a live row has the id, and then it is the merge written under the path id |
| UserService.PartialUpdateWrites | worko_assignment_backend/services/userService.js:27-38 | with a store that fails nothing, a live row is overwritten with the merge and the merged user comes back; with no live row nothing is written and null comes back |
| UserService.PartialUpdateIdempotent | worko_assignment_backend/services/userService.js:27-38 | applying the same partial update twice leaves the table as applying it once |
| UserService.PartialWithAllFieldsIsUpdate | worko_assignment_backend/services/userService.js:17-38 | a partial update carrying all five fields has the same effect and result as updateUser with that payload |
| UserService.CreateThenFind | worko_assignment_backend/services/userService.js:12-15 | a created user is found afterwards under the id it came back with, holding the payload's fields |
| UserService.DeleteTwice | worko_assignment_backend/services/userService.js:23-25 | deleting an existing user twice returns true both times |
| UserService.GetAllUsers | worko_assignment_backend/services/userService.js:4-6 | returns the DAO's listing unchanged |
| UserService.GetUserById | worko_assignment_backend/services/userService.js:8-10 | returns the DAO's lookup unchanged |
| UserService.CreateUser | worko_assignment_backend/services/userService.js:12-15 | has exactly the create effect on the table and returns a fresh User whose state is the effect's result |
| UserService.UpdateUser | worko_assignment_backend/services/userService.js:17-21 | has exactly the update effect, with the id forced to the path id |
| UserService.DeleteUser | worko_assignment_backend/services/userService.js:23-25 | has exactly the delete effect and returns the DAO's result |
| UserService.PartialUpdateUser | worko_assignment_backend/services/userService.js:27-38 | reads, merges with a spread and writes; it has exactly the partial-update effect |
| UserService.WriteMerged | worko_assignment_backend/services/userService.js:31-37 | spreads the partial data over the row that was read, builds the User from the result and updates; it has exactly the write effect of the field-wise merge |
| UserController.ListReply | worko_assignment_backend/controllers/userController.js:5-12 | 200 with the rows as JSON iff the listing succeeds, 500 with the error message iff it throws |
| UserController.GetReply | worko_assignment_backend/controllers/userController.js:15-27 | 400 iff the id is refused, 500 iff the lookup throws, 404 "User not found" iff nothing matched, 200 with the row otherwise |
| UserController.CreateReply | worko_assignment_backend/controllers/userController.js:30-40 | 400 iff the payload is refused, 500 iff the service throws, 201 with the created user otherwise |
| UserController.SaveReply | worko_assignment_backend/controllers/userController.js:43-55 | 400 iff the payload is refused, 500 iff the service throws, 404 "User not found" iff the result is null, 200 with the user otherwise |
| UserController.DeleteReply | worko_assignment_backend/controllers/userController.js:58-70 | 400 iff the id is refused, 500 iff the service throws, 404 iff no row matched, 204 with no body iff one did |
| UserController.ListUsers | worko_assignment_backend/controllers/userController.js:5-12 | writes the list reply for the table's current listing |
| UserController.GetUser | worko_assignment_backend/controllers/userController.js:15-27 | writes the get reply for validateId's verdict and the lookup |
| UserController.CreateUser | worko_assignment_backend/controllers/userController.js:30-40 | a refused payload leaves the table untouched; otherwise the create effect happens and the id counter advances iff the insert succeeded; the reply is the create reply |
| UserController.UpdateUser | worko_assignment_backend/controllers/userController.js:43-55 | a refused payload leaves the table untouched; otherwise the update effect happens under the unvalidated path id and the id counter is unchanged; the reply is the save reply |
| UserController.DeleteUser | worko_assignment_backend/controllers/userController.js:58-70 | a refused id leaves the table untouched; otherwise the delete effect happens and the id counter is unchanged; the reply is the delete reply |
| UserController.PartialUpdateUser | worko_assignment_backend/controllers/userController.js:72-84 | a refused payload leaves the table untouched; otherwise the partial-update effect happens and the id counter is unchanged; the reply is the save reply |
| UserController.AcceptedPayloadBinds | worko_assignment_backend/controllers/userController.js:45-49 | a payload validateUser accepts binds no undefined parameter |
| UserController.CreateThenGet | worko_assignment_backend/controllers/userController.js:30-40 | a valid POST answers 201 with the new id, and a GET of that id then answers 200 with the stored row |
| UserController.DeleteThenNotFound | worko_assignment_backend/controllers/userController.js:58-70 | after a DELETE answered 204, GET and PATCH of that id answer 404, and the PATCH writes nothing |
| UserController.PutAnswers | worko_assignment_backend/controllers/userController.js:43-55 | with a store that fails nothing, a valid PUT answers 200 iff a live row has that id and 404 otherwise |
| UserController.PatchAnswers | worko_assignment_backend/controllers/userController.js:72-84 | with a store that fails nothing, a valid PATCH answers 200 with the merge of the live row and the partial data iff a live row has that id, and 404 otherwise |
| UserController.PutWithNonNumericId | worko_assignment_backend/controllers/userController.js:44-46 | the path id of PUT is not validated, so with a store that fails nothing (a non-strict `sql_mode`) a valid payload sent to an id that starts with a letter, such as `invalid-id`, answers 404, not 400 |

## Left out

- The authentication middleware (`middlewares/authMiddleware.js`) is not modelled. It decodes Basic credentials and compares them with environment variables; every handler here assumes the request got past it.
- The connection setup in `config/db.js` is not modelled: environment configuration, logging, and `process.exit` on a failed connection. A statement that fails for any other reason appears as the `fault` parameter.
- The Express bootstrap in `config/index.js` and the build configuration are not modelled. The routes file and `models/user.js` are not part of this model. The `User` constructor order (email, name, age, city, zipCode), and an id that is assigned after construction, are taken from how the service and its tests use it.
- Asynchrony is not modelled. Requests run one after another, so the read-then-write race in `partialUpdateUser` between two concurrent requests is not covered.
- KeyOf: MySQL's lenient string-to-number conversion is not modelled. For example, in a SELECT `'1abc'` matches id 1 with a warning. Under a strict `sql_mode` (the default since MySQL 5.7), the UPDATE of `updateUser` refuses such a string with error 1292 instead; the model expresses that only through the `fault` parameter, and the answer is then 500. Here a string that is not a plain decimal number matches no row, and booleans, arrays and objects match no row either.
- Column types are not modelled. A row stores the JavaScript values it was written with, so an age sent as `"31"` is read back as the string, not the number the INT column would return.
- IsEmail: Joi's email rule is replaced by a simpler address grammar. It checks one `@`, a non-empty local part, and a dotted domain with no spaces. Joi's TLD list and full RFC grammar are not included.
- IntegerIssue: numeric strings follow the grammar `[+-]digits[.digits]`, where the fraction may be empty (`1.` is accepted, as Joi accepts it). Surrounding whitespace, exponents and a leading-dot form such as `.5` are not included. Joi converts `.5` and then refuses it as not an integer, and refuses `.0` as unsafe; the model refuses both as not a number. Either way the value is refused. The `number.unsafe` check compares magnitude only; Joi's check that the string prints back the same is not included. This changes what is accepted: strings for negative zero, such as `-0` and `-0.0`, are refused by Joi as number.unsafe but accepted by the model as 0. So `GET /users/-0` answers 400 from the program and 404 here, and an age of `"-0"` passes here.
- ZipCodeRule: lengths count characters, not JavaScript's UTF-16 code units.
- Response serialisation is not modelled. `res.json` keeps the value itself, so `JSON.stringify` dropping `undefined` properties, and the headers Express sets, are out of scope.
- OwnProps: spreading a string or an array copies nothing here. In JavaScript it copies indexed properties. The validators refuse such bodies before the service sees them.
- Server faults on the two statements of a partial update are separate parameters (`readFault`, `writeFault`). Faults are not produced by any model of the server.
- UnknownIssue: a body's properties are kept in the order the body lists them. JavaScript enumerates integer-like keys first, in ascending order, and Joi walks the keys in that order. When a body has several unknown keys, the one named in the 400 message can therefore differ: for `{"x":1,"2":1}` Joi names `"2"`, and the model names `"x"`. Acceptance is not affected.
- UserDao.UserTable.GetAllUsers: `SELECT * ... WHERE isDeleted = 0` has no `ORDER BY`. The ascending id order of the listing is an assumed store default (InnoDB's primary-key scan), not something the statement promises. The set of rows returned does not depend on this assumption.
- UserDao.UserTable.CreateUser: a failed INSERT is assumed to use up no AUTO_INCREMENT id, so the counter stays where it was. InnoDB can consume an id on a failed insert, and the next user would then get a later id. Which rows are stored does not depend on this.
- UserController.CreateUser: its statement that the id counter advances only when the insert succeeds rests on the same assumption about failed INSERTs.
