/** The `User` value object the service builds before every write. Its
    constructor takes the five business fields in the order
    (email, name, age, city, zipCode); the id is assigned afterwards. */
module UserModel {
  import opened JsValue

  /** The five business fields of a user, as the JavaScript values they hold. */
  datatype UserFields = UserFields(email: Value, name: Value, age: Value, city: Value, zipCode: Value)

  /** A snapshot of a `User` object: its id and its five fields. */
  datatype UserView = UserView(id: Value, fields: UserFields)

  /** The five keys of a user payload, in the order the schemas declare them. */
  const FieldKeys: seq<string> := ["email", "name", "age", "city", "zipCode"]

  /** The field of `u` stored under the payload key `k`. */
  function FieldAt(u: UserFields, k: string): Value
    requires k in FieldKeys
  {
    if k == "email" then u.email
    else if k == "name" then u.name
    else if k == "age" then u.age
    else if k == "city" then u.city
    else u.zipCode
  }

  /** `new User(data.email, data.name, data.age, data.city, data.zipCode)`
      reads exactly the five keys; whatever else `data` holds is dropped. */
  function FieldsOf(data: Value): (u: UserFields)
    ensures forall k | k in FieldKeys :: FieldAt(u, k) == Property(data, k)
  {
    UserFields(Property(data, "email"), Property(data, "name"), Property(data, "age"),
               Property(data, "city"), Property(data, "zipCode"))
  }

  /** The values bound to the five `?` placeholders of the INSERT and UPDATE
      statements, in column order. */
  function FieldParams(u: UserFields): seq<Value>
  {
    [u.email, u.name, u.age, u.city, u.zipCode]
  }

  /** The JSON `res.json(user)` sends for a `User` object: the five fields in
      constructor order, then the id assigned after construction. */
  function ViewJson(v: UserView): Value
  {
    Obj([Prop("email", v.fields.email), Prop("name", v.fields.name), Prop("age", v.fields.age),
         Prop("city", v.fields.city), Prop("zipCode", v.fields.zipCode), Prop("id", v.id)])
  }

  class User {
    var id: Value
    var email: Value
    var name: Value
    var age: Value
    var city: Value
    var zipCode: Value

    constructor (email: Value, name: Value, age: Value, city: Value, zipCode: Value)
      ensures Fields() == UserFields(email, name, age, city, zipCode)
      ensures id == Undefined
    {
      this.id := Undefined;
      this.email := email;
      this.name := name;
      this.age := age;
      this.city := city;
      this.zipCode := zipCode;
    }

    function Fields(): UserFields
      reads this
    {
      UserFields(email, name, age, city, zipCode)
    }

    function View(): UserView
      reads this
    {
      UserView(id, Fields())
    }
  }
}
