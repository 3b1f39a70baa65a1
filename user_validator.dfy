/** The three Joi schemas of the validator module and the functions that
    apply them. Validation is pure: each check returns a verdict and changes
    nothing. Joi stops at the first violation (its default `abortEarly`),
    so a rejection carries exactly one issue, the one whose message the
    controller sends back. */
module UserValidator {
  import opened Results
  import opened JsValue
  import opened UserModel

  /** The Joi error kinds these schemas can raise, each with the path of
      the value at fault ("value" for the validated value itself). */
  datatype Issue =
    | Required(path: string)      // any.required
    | NotAString(path: string)    // string.base
    | EmptyString(path: string)   // string.empty
    | NotAnEmail(path: string)    // string.email
    | WrongLength(path: string)   // string.length, limit 5
    | NotANumber(path: string)    // number.base
    | Unsafe(path: string)        // number.unsafe
    | NotAnInteger(path: string)  // number.integer
    | Negative(path: string)      // number.min, limit 0
    | NotAnObject                  // object.base
    | NotAllowed(path: string)    // object.unknown
    | TooFewKeys                   // object.min, limit 1

  datatype Verdict = Accepted | Rejected(issue: Issue)

  function Quoted(path: string): string { "\"" + path + "\"" }

  /** Joi's default English message for an issue (`error.details[0].message`). */
  function Message(issue: Issue): string
  {
    match issue
    case Required(l) => Quoted(l) + " is required"
    case NotAString(l) => Quoted(l) + " must be a string"
    case EmptyString(l) => Quoted(l) + " is not allowed to be empty"
    case NotAnEmail(l) => Quoted(l) + " must be a valid email"
    case WrongLength(l) => Quoted(l) + " length must be 5 characters long"
    case NotANumber(l) => Quoted(l) + " must be a number"
    case Unsafe(l) => Quoted(l) + " must be a safe number"
    case NotAnInteger(l) => Quoted(l) + " must be an integer"
    case Negative(l) => Quoted(l) + " must be greater than or equal to 0"
    case NotAnObject => Quoted("value") + " must be of type object"
    case NotAllowed(l) => Quoted(l) + " is not allowed"
    case TooFewKeys => Quoted("value") + " must have at least 1 key"
  }

  /** A simplified address grammar standing in for Joi's `email()`: one '@'
      between a non-empty local part and a domain of at least two non-empty
      dot-separated labels, no spaces anywhere. */
  predicate IsEmail(s: string)
  {
    exists i | 0 <= i < |s| :: s[i] == '@' && IsLocalPart(s[..i]) && IsDomain(s[i + 1..])
  }

  predicate IsLocalPart(p: string)
  {
    p != [] && forall k | 0 <= k < |p| :: p[k] != '@' && p[k] != ' '
  }

  predicate IsDomain(d: string)
  {
    && |d| >= 3
    && d[0] != '.' && d[|d| - 1] != '.'
    && (exists k | 0 < k < |d| - 1 :: d[k] == '.')
    && (forall k | 0 <= k < |d| :: d[k] != '@' && d[k] != ' ')
    && (forall k | 0 <= k < |d| - 1 :: !(d[k] == '.' && d[k + 1] == '.'))
  }

  /** Largest integer a JavaScript number holds exactly (`Number.MAX_SAFE_INTEGER`). */
  const MaxSafe: int := 9007199254740991

  predicate IsSafe(n: real) { -MaxSafe as real <= n <= MaxSafe as real }

  /** `Joi.string()`: a string, and not the empty one. */
  function StringIssue(path: string, v: Value): Option<Issue>
  {
    if !v.Str? then Some(NotAString(path))
    else if v.s == "" then Some(EmptyString(path))
    else None
  }

  /** `Joi.number().integer()`, with `.min(0)` when `nonNegative`. Numeric
      strings are converted first (Joi's default `convert`). */
  function IntegerIssue(path: string, v: Value, nonNegative: bool): Option<Issue>
  {
    match Numeric(v)
    case None => Some(NotANumber(path))
    case Some(n) =>
      if !IsSafe(n) then Some(Unsafe(path))
      else if !IsInteger(n) then Some(NotAnInteger(path))
      else if nonNegative && n < 0.0 then Some(Negative(path))
      else None
  }

  /** The issues a present value can raise against its own rule, as
      opposed to the object-level ones (missing, unknown, too few keys). */
  predicate IsValueRule(issue: Issue)
  {
    || issue.NotAString? || issue.EmptyString? || issue.NotAnEmail? || issue.WrongLength?
    || issue.NotANumber? || issue.Unsafe? || issue.NotAnInteger? || issue.Negative?
  }

  /** The rule both object schemas attach to one of the five keys, applied
      to a value that is present. */
  function FieldIssue(key: string, v: Value): (r: Option<Issue>)
    requires key in FieldKeys
    ensures r.Some? ==> IsValueRule(r.value) && r.value.path == key
  {
    if key == "age" then IntegerIssue(key, v, true)
    else match StringIssue(key, v)
      case Some(issue) => Some(issue)
      case None =>
        if key == "email" && !IsEmail(v.s) then Some(NotAnEmail(key))
        else if key == "zipCode" && |v.s| != 5 then Some(WrongLength(key))
        else None
  }

  predicate FieldOk(key: string, v: Value)
    requires key in FieldKeys
  {
    FieldIssue(key, v).None?
  }

  /** The two object schemas differ in whether each key is `.required()`
      and in the `.min(1)` key count. */
  datatype ObjectSchema = ObjectSchema(required: bool, minKeys: nat)

  /** `userSchema`: all five keys required. */
  const UserSchema := ObjectSchema(true, 0)

  /** `partialUserSchema`: every key optional, at least one key. */
  const PartialUserSchema := ObjectSchema(false, 1)

  /** The first issue among `keys`, taken in the schema's declaration order.
      A key whose value is `undefined` is absent. */
  function KeysIssue(props: seq<Prop>, keys: seq<string>, required: bool): (r: Option<Issue>)
    requires forall k | k in keys :: k in FieldKeys
    ensures r.Some? ==> exists k | k in keys ::
      if Get(props, k) == Undefined then required && r.value == Required(k)
      else FieldIssue(k, Get(props, k)) == r
  {
    if keys == [] then None
    else
      var v := Get(props, keys[0]);
      if v.Undefined? then
        if required then Some(Required(keys[0])) else KeysIssue(props, keys[1..], required)
      else match FieldIssue(keys[0], v)
        case Some(issue) => Some(issue)
        case None => KeysIssue(props, keys[1..], required)
  }

  /** Some property of `props` is called `key`. */
  predicate Lists(props: seq<Prop>, key: string)
  {
    exists i | 0 <= i < |props| :: props[i].key == key
  }

  /** Some declared field is present in `props` and breaks a rule with `issue`. */
  predicate FaultyField(props: seq<Prop>, issue: Issue)
  {
    exists k | k in FieldKeys :: Get(props, k) != Undefined && FieldIssue(k, Get(props, k)) == Some(issue)
  }

  /** Joi rejects keys a schema does not declare; the first such key, in
      the order of the modelled properties, is reported. */
  function UnknownIssue(props: seq<Prop>): (r: Option<Issue>)
    ensures r.Some? ==> r.value.NotAllowed? && r.value.path !in FieldKeys
    ensures r.Some? ==> Lists(props, r.value.path)
  {
    if props == [] then None
    else if props[0].key !in FieldKeys then Some(NotAllowed(props[0].key))
    else UnknownIssue(props[1..])
  }

  /** Joi's object validation: the type, then the declared keys, then the
      undeclared ones, then the key-count rule. An absent (`undefined`)
      object passes, since neither schema is itself `.required()`. The key
      count is the number of properties; `.min(1)` only asks whether there is
      any. */
  function Validate(schema: ObjectSchema, body: Value): (v: Verdict)
    ensures body.Undefined? ==> v == Accepted
    ensures v == Rejected(NotAnObject) <==> !body.Undefined? && !body.Obj?
    ensures v == Rejected(TooFewKeys) ==> body.Obj? && |body.props| < schema.minKeys
    ensures v.Rejected? && v.issue.NotAllowed? ==>
      body.Obj? && v.issue.path !in FieldKeys && Lists(body.props, v.issue.path)
    ensures v.Rejected? && v.issue.Required? ==>
      schema.required && body.Obj? && v.issue.path in FieldKeys && Get(body.props, v.issue.path) == Undefined
    ensures v.Rejected? && IsValueRule(v.issue) ==> body.Obj? && FaultyField(body.props, v.issue)
  {
    if body.Undefined? then Accepted
    else if !body.Obj? then Rejected(NotAnObject)
    else if KeysIssue(body.props, FieldKeys, schema.required).Some? then
      Rejected(KeysIssue(body.props, FieldKeys, schema.required).value)
    else if UnknownIssue(body.props).Some? then Rejected(UnknownIssue(body.props).value)
    else if |body.props| < schema.minKeys then Rejected(TooFewKeys)
    else Accepted
  }

  /** `validateUser`: every field is required, and no key count applies. */
  function ValidateUser(user: Value): (v: Verdict)
    ensures user.Undefined? ==> v.Accepted?
    ensures v != Rejected(TooFewKeys)
    ensures v.Rejected? && v.issue.Required? ==> user.Obj? && Get(user.props, v.issue.path) == Undefined
  {
    Validate(UserSchema, user)
  }

  /** `validatePartialUser`: no field is required, but the object must not be empty. */
  function ValidatePartialUser(partialUser: Value): (v: Verdict)
    ensures partialUser.Undefined? ==> v.Accepted?
    ensures v.Rejected? ==> !v.issue.Required?
    ensures v == Rejected(TooFewKeys) ==> partialUser.Obj? && partialUser.props == []
  {
    Validate(PartialUserSchema, partialUser)
  }

  /** `idSchema = Joi.number().integer().required()`. */
  function ValidateId(id: Value): (v: Verdict)
    ensures id.Undefined? ==> v == Rejected(Required("value"))
    ensures v.Accepted? ==> Numeric(id).Some? && IsInteger(Numeric(id).value)
  {
    if id.Undefined? then Rejected(Required("value"))
    else match IntegerIssue("value", id, false)
      case Some(issue) => Rejected(issue)
      case None => Accepted
  }

  // What the schemas accept, stated without the order in which Joi looks.

  /** Every key of the object is one of the five. */
  predicate OnlyKnownKeys(props: seq<Prop>)
  {
    forall i | 0 <= i < |props| :: props[i].key in FieldKeys
  }

  /** Every one of `keys` that is present holds a valid value, and with
      `required` every one of them is present. */
  predicate KeysOk(props: seq<Prop>, keys: seq<string>, required: bool)
    requires forall k | k in keys :: k in FieldKeys
  {
    forall k | k in keys ::
      (required ==> Get(props, k) != Undefined) && (Get(props, k) != Undefined ==> FieldOk(k, Get(props, k)))
  }

  lemma {:induction false} KeysIssueNone(props: seq<Prop>, keys: seq<string>, required: bool)
    requires forall k | k in keys :: k in FieldKeys
    ensures KeysIssue(props, keys, required).None? <==> KeysOk(props, keys, required)
  {
    if keys != [] {
      KeysIssueNone(props, keys[1..], required);
      assert forall k | k in keys :: k == keys[0] || k in keys[1..];
    }
  }

  lemma {:induction false} UnknownIssueNone(props: seq<Prop>)
    ensures UnknownIssue(props).None? <==> OnlyKnownKeys(props)
  {
    if props != [] {
      UnknownIssueNone(props[1..]);
      assert forall i | 1 <= i < |props| :: props[i] == props[1..][i - 1];
    }
  }

  /** The full schema lets no declared field be absent. */
  lemma AcceptedHasEveryField(user: Value, k: string)
    requires user.Obj? && ValidateUser(user).Accepted? && k in FieldKeys
    ensures Get(user.props, k) != Undefined
  {
    ValidateUserAccepts(user);
  }

  /** validateUser accepts an object exactly when it holds all five keys,
      each valid, and no other key. */
  lemma ValidateUserAccepts(user: Value)
    ensures ValidateUser(user).Accepted? <==>
      user.Undefined? || (user.Obj? && OnlyKnownKeys(user.props) && KeysOk(user.props, FieldKeys, true))
  {
    if user.Obj? {
      KeysIssueNone(user.props, FieldKeys, true);
      UnknownIssueNone(user.props);
    }
  }

  /** validatePartialUser accepts an object exactly when it has at least one
      key, every key is one of the five, and every key present is valid. */
  lemma ValidatePartialUserAccepts(partialUser: Value)
    ensures ValidatePartialUser(partialUser).Accepted? <==>
      partialUser.Undefined? ||
      (partialUser.Obj? && partialUser.props != [] && OnlyKnownKeys(partialUser.props) &&
       KeysOk(partialUser.props, FieldKeys, false))
  {
    if partialUser.Obj? {
      KeysIssueNone(partialUser.props, FieldKeys, false);
      UnknownIssueNone(partialUser.props);
    }
  }

  /** The empty object is refused by `.min(1)` although no field is invalid. */
  lemma EmptyPartialRejected()
    ensures ValidatePartialUser(Obj([])) == Rejected(TooFewKeys)
  {
  }

  /** The full schema is stronger than the partial one. */
  lemma FullImpliesPartial(user: Value)
    requires ValidateUser(user).Accepted?
    ensures ValidatePartialUser(user).Accepted?
  {
    ValidateUserAccepts(user);
    ValidatePartialUserAccepts(user);
    if user.Obj? {
      assert Get(user.props, "email") != Undefined;
      assert user.props != [];
    }
  }

  /** age: a non-negative, safe integer, given as a number or a numeric string. */
  lemma AgeRule(v: Value)
    ensures FieldOk("age", v) <==>
      Numeric(v).Some? && IsInteger(Numeric(v).value) && IsSafe(Numeric(v).value) && Numeric(v).value >= 0.0
  {
  }

  /** zipCode: a string of exactly five characters. */
  lemma ZipCodeRule(v: Value)
    ensures FieldOk("zipCode", v) <==> v.Str? && |v.s| == 5
  {
  }

  /** email: a string in address form; name and city: non-empty strings. */
  lemma StringRules(v: Value)
    ensures FieldOk("email", v) <==> v.Str? && IsEmail(v.s)
    ensures FieldOk("name", v) <==> v.Str? && v.s != ""
    ensures FieldOk("city", v) <==> v.Str? && v.s != ""
  {
  }

  /** A string that starts with neither a sign nor a digit is not a number. */
  lemma NotNumeric(s: string)
    requires s != [] && !IsDigit(s[0]) && s[0] != '+' && s[0] != '-'
    ensures ParseNumber(s) == None
  {
    if s[0] != '.' {
      assert DotIndex(s) > 0;
      assert s[..DotIndex(s)][0] == s[0];
    }
  }

  /** A non-numeric age such as "invalid-age" is refused as not a number. */
  lemma InvalidAgeRejected()
    ensures FieldIssue("age", Str("invalid-age")) == Some(NotANumber("age"))
  {
    var s := "invalid-age";
    assert s[0] == 'i';
    NotNumeric(s);
    assert Numeric(Str(s)) == None;
  }

  /** validateId accepts exactly the safe integers, given as numbers or
      numeric strings. */
  lemma ValidateIdAccepts(id: Value)
    ensures ValidateId(id).Accepted? <==>
      Numeric(id).Some? && IsInteger(Numeric(id).value) && IsSafe(Numeric(id).value)
  {
  }

  /** A path id that is a string of digits of safe size is accepted. */
  lemma DigitIdAccepted(s: string)
    requires s != [] && AllDigits(s) && DigitsValue(s) <= MaxSafe
    ensures ValidateId(Str(s)) == Accepted
  {
    DigitStringParses(s);
  }

  /** A non-numeric path id such as "invalid-id" is refused as not a number. */
  lemma InvalidIdRejected()
    ensures ValidateId(Str("invalid-id")) == Rejected(NotANumber("value"))
  {
    var s := "invalid-id";
    assert s[0] == 'i';
    NotNumeric(s);
    assert Numeric(Str(s)) == None;
  }
}
