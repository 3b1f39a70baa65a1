/** The JavaScript values that flow through the service: request bodies,
    path parameters, the row objects the database driver returns. */
module JsValue {
  import opened Results

  datatype Value =
    | Undefined
    | Null
    | Bool(b: bool)
    | Num(n: real)
    | Str(s: string)
    | Arr(items: seq<Value>)
    | Obj(props: seq<Prop>)

  /** One own property of an object. An object is its properties in the
      order the body lists them (JavaScript's ordering of integer-like keys
      first is not modelled); when a key occurs twice (as `JSON.parse`
      allows), the key keeps its first position and the last value wins. */
  datatype Prop = Prop(key: string, val: Value)

  predicate HasKey(o: seq<Prop>, k: string)
  {
    o != [] && (o[|o| - 1].key == k || HasKey(o[..|o| - 1], k))
  }

  /** `o[k]`: the value under `k`, or `undefined` when there is none. */
  function Get(o: seq<Prop>, k: string): (v: Value)
    ensures !HasKey(o, k) ==> v == Undefined
  {
    if o == [] then Undefined
    else if o[|o| - 1].key == k then o[|o| - 1].val
    else Get(o[..|o| - 1], k)
  }

  /** No property holds `undefined`, as in every object `JSON.parse` builds. */
  predicate NoUndefined(o: seq<Prop>)
  {
    forall i | 0 <= i < |o| :: o[i].val != Undefined
  }

  /** In such an object, a key that is present reads as a defined value. */
  lemma {:induction false} GetPresent(o: seq<Prop>, k: string)
    requires NoUndefined(o) && HasKey(o, k)
    ensures Get(o, k) != Undefined
  {
    if o[|o| - 1].key != k {
      var init := o[..|o| - 1];
      assert forall i | 0 <= i < |init| :: init[i] == o[i];
      GetPresent(init, k);
    }
  }

  /** Appending a property makes its value the one read under its key. */
  lemma GetLast(o: seq<Prop>, p: Prop, k: string)
    ensures Get(o + [p], k) == if p.key == k then p.val else Get(o, k)
  {
    assert (o + [p])[..|o + [p]| - 1] == o;
  }

  /** `v.k` for a value that is not `undefined` or `null` (reading a
      property of those two throws; callers deal with that case). Only an
      object has the keys this service reads. */
  function Property(v: Value, k: string): Value
  {
    if v.Obj? then Get(v.props, k) else Undefined
  }

  /** The assignment `o[k] = v`: an existing key is overwritten where it
      stands, a new key is appended. */
  function Put(o: seq<Prop>, k: string, v: Value): (r: seq<Prop>)
    ensures Get(r, k) == v && HasKey(r, k)
    ensures forall j :: j != k ==> Get(r, j) == Get(o, j) && (HasKey(r, j) <==> HasKey(o, j))
  {
    if o == [] then [Prop(k, v)]
    else if o[|o| - 1].key == k then o[..|o| - 1] + [Prop(k, v)]
    else
      var r := Put(o[..|o| - 1], k, v) + [o[|o| - 1]];
      assert r[..|r| - 1] == Put(o[..|o| - 1], k, v);
      r
  }

  /** The own properties an object spread `...v` copies. Spreading
      `undefined`, `null`, a boolean or a number copies nothing. */
  function OwnProps(v: Value): seq<Prop>
  {
    if v.Obj? then v.props else []
  }

  /** `{...a, ...b}` on two objects: the properties of `b` assigned, in
      order, onto a copy of `a`. */
  function Spread(a: seq<Prop>, b: seq<Prop>): seq<Prop>
  {
    if b == [] then a
    else Put(Spread(a, b[..|b| - 1]), b[|b| - 1].key, b[|b| - 1].val)
  }

  /** In a spread, every key of `b` takes `b`'s value and every other key
      keeps `a`'s: this is the field-by-field meaning of `{...a, ...b}`. */
  lemma {:induction false} SpreadGet(a: seq<Prop>, b: seq<Prop>, k: string)
    ensures Get(Spread(a, b), k) == if HasKey(b, k) then Get(b, k) else Get(a, k)
    ensures HasKey(Spread(a, b), k) <==> HasKey(a, k) || HasKey(b, k)
  {
    if b != [] {
      SpreadGet(a, b[..|b| - 1], k);
    }
  }

  // Numbers written as strings.

  predicate IsDigit(c: char) { '0' <= c <= '9' }

  predicate AllDigits(s: string) { forall i | 0 <= i < |s| :: IsDigit(s[i]) }

  /** The value of a string of decimal digits. */
  function DigitsValue(s: string): nat
    requires AllDigits(s)
  {
    if s == [] then 0 else DigitsValue(s[..|s| - 1]) * 10 + (s[|s| - 1] as int - '0' as int)
  }

  function Pow10(n: nat): (p: nat)
    ensures p >= 1
  {
    if n == 0 then 1 else 10 * Pow10(n - 1)
  }

  /** The value of the digits after a decimal point. */
  function Fraction(digits: string): (r: real)
    requires AllDigits(digits)
    ensures digits == "" ==> r == 0.0
  {
    DigitsValue(digits) as real / Pow10(|digits|) as real
  }

  /** The position of the first '.' in `s`, or `|s|` when there is none. */
  function DotIndex(s: string): (i: nat)
    ensures i <= |s|
    ensures i < |s| ==> s[i] == '.'
    ensures forall j | 0 <= j < i :: s[j] != '.'
  {
    if s == [] || s[0] == '.' then 0 else 1 + DotIndex(s[1..])
  }

  /** The number a numeric string denotes: an optional sign, at least one
      digit, then optionally '.' and more digits. Any other string is not a
      number. */
  function ParseNumber(s: string): Option<real>
  {
    var negative := |s| > 0 && s[0] == '-';
    var unsigned := if |s| > 0 && (s[0] == '+' || s[0] == '-') then s[1..] else s;
    var dot := DotIndex(unsigned);
    var whole := unsigned[..dot];
    var fraction := if dot < |unsigned| then unsigned[dot + 1..] else "";
    if whole == "" || !AllDigits(whole) || !AllDigits(fraction) then None
    else
      var magnitude := DigitsValue(whole) as real + Fraction(fraction);
      Some(if negative then -magnitude else magnitude)
  }

  /** A string of digits denotes the natural number it spells. */
  lemma DigitStringParses(s: string)
    requires s != [] && AllDigits(s)
    ensures ParseNumber(s) == Some(DigitsValue(s) as real)
  {
    assert s[0] != '+' && s[0] != '-';
    NoDotInDigits(s);
    assert s[..DotIndex(s)] == s;
    assert Fraction("") == 0.0;
  }

  lemma NoDotInDigits(s: string)
    requires AllDigits(s)
    ensures DotIndex(s) == |s|
  {
    if DotIndex(s) < |s| {
      assert IsDigit(s[DotIndex(s)]);
    }
  }

  /** The decimal digits of `n`, as a number appears in a URL path. */
  function Decimal(n: nat): (s: string)
    ensures s != [] && AllDigits(s) && DigitsValue(s) == n
  {
    var last := [('0' as int + n % 10) as char];
    if n < 10 then last
    else
      var s := Decimal(n / 10) + last;
      assert s[..|s| - 1] == Decimal(n / 10);
      s
  }

  /** The number a value denotes where a number is expected: a number
      itself, or a numeric string. */
  function Numeric(v: Value): Option<real>
  {
    match v
    case Num(n) => Some(n)
    case Str(s) => ParseNumber(s)
    case _ => None
  }

  predicate IsInteger(n: real) { n.Floor as real == n }
}
