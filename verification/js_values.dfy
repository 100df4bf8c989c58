/** The JavaScript values that the configuration validators and the report
    command inspect, with the few pieces of JavaScript semantics they rely
    on: `typeof`, truthiness, `a || b`, property access (`v[k]` and `v?.[k]`),
    the string form of a value (used for property keys and by `+`) and `+`.

    Numbers are integers plus NaN: the validators and the report only test
    numbers for truthiness, `typeof` and add them. */
module JsValues {
  import opened Wrappers

  datatype JsValue =
    | Undef
    | Null
    | Bool(b: bool)
    | Num(n: int)
    | NaN
    | Str(s: string)
    | Arr(items: seq<JsValue>)
    | Obj(props: map<string, JsValue>)

  /** `JSON.parse`, a parameter wherever it is used: it throws on malformed
      text and otherwise gives a value without `undefined` in it. */
  type JsonParse = string -> Outcome<JsValue>

  /** `typeof v`; note that `typeof null` is "object". */
  function TypeOf(v: JsValue): (t: string)
    ensures t == "object" <==> v.Null? || v.Arr? || v.Obj?
    ensures t == "number" <==> v.Num? || v.NaN?
    ensures t == "string" <==> v.Str?
  {
    match v
    case Undef => "undefined"
    case Bool(_) => "boolean"
    case Num(_) => "number"
    case NaN => "number"
    case Str(_) => "string"
    case Null => "object"
    case Arr(_) => "object"
    case Obj(_) => "object"
  }

  /** JavaScript truthiness: undefined, null, false, 0, NaN and '' are falsy. */
  predicate Truthy(v: JsValue) {
    match v
    case Undef => false
    case Null => false
    case NaN => false
    case Bool(b) => b
    case Num(n) => n != 0
    case Str(s) => s != ""
    case Arr(_) => true
    case Obj(_) => true
  }

  /** `a || b` */
  function Or(a: JsValue, b: JsValue): (r: JsValue)
    ensures Truthy(a) ==> r == a
    ensures !Truthy(a) ==> r == b
  {
    if Truthy(a) then a else b
  }

  /** The message of the TypeError thrown by `v[key]` on null or undefined. */
  function ReadTypeError(v: JsValue, key: string): string
    requires v.Undef? || v.Null?
  {
    "Cannot read properties of " + (if v.Null? then "null" else "undefined")
    + " (reading '" + key + "')"
  }

  /** `v[key]` for a string key: throws on null and undefined; an object
      yields its own property, an array or a string its `length` or the
      element (for a string the one-character string) at the index whose
      decimal form is `key`; every other lookup yields undefined. */
  function Member(v: JsValue, key: string): (r: Outcome<JsValue>)
    ensures r.Throws? <==> v.Undef? || v.Null?
    ensures v.Obj? && key in v.props ==> r == Returns(v.props[key])
    ensures v.Obj? && key !in v.props ==> r == Returns(Undef)
    ensures (v.Bool? || v.Num? || v.NaN?) ==> r == Returns(Undef)
  {
    match v
    case Undef => Throws(ReadTypeError(v, key))
    case Null => Throws(ReadTypeError(v, key))
    case Obj(m) => Returns(if key in m then m[key] else Undef)
    case Arr(_) => Returns(ElementMember(v, key))
    case Str(_) => Returns(ElementMember(v, key))
    case _ => Returns(Undef)
  }

  /** `v[key]` on an array or a string. */
  function ElementMember(v: JsValue, key: string): JsValue
    requires v.Arr? || v.Str?
  {
    var n := if v.Arr? then |v.items| else |v.s|;
    if key == "length" then Num(n)
    else match ArrayIndex(key)
      case Some(i) =>
        if i >= n then Undef else if v.Arr? then v.items[i] else Str([v.s[i]])
      case None => Undef
  }

  /** The index a property key denotes: its value when it is a number's
      decimal form (digits only, no leading zero). */
  function ArrayIndex(key: string): (r: Option<nat>)
    ensures r.Some? ==> key != [] && IsDigit(key[0])
  {
    if key == [] || (key[0] == '0' && |key| > 1) then None else DigitsValue(key)
  }

  /** The value of a string of decimal digits; none if any character is
      not a digit. */
  function DigitsValue(s: string): (r: Option<nat>)
    ensures r.Some? && s != [] ==> IsDigit(s[0])
    decreases |s|
  {
    if s == [] then Some(0)
    else if !IsDigit(s[|s| - 1]) then None
    else
      match DigitsValue(s[..|s| - 1])
      case None => None
      case Some(v) => Some(v * 10 + (s[|s| - 1] as int - '0' as int))
  }

  /** Reading back the decimal form of a number gives the number. */
  lemma {:induction false} ArrayIndexOfDecimal(n: nat)
    ensures ArrayIndex(NatToDecimal(n)) == Some(n)
    decreases n
  {
    var s := NatToDecimal(n);
    if n >= 10 {
      ArrayIndexOfDecimal(n / 10);
      assert s[..|s| - 1] == NatToDecimal(n / 10);
      assert s[|s| - 1] == DigitChar(n % 10);
      assert DigitsValue(s) == Some(n / 10 * 10 + n % 10);
    } else {
      assert s[..0] == [] && DigitsValue([]) == Some(0);
    }
  }

  /** What arrays and strings yield: their length under "length", the
      element at an index under that index's decimal form, and undefined
      under any other key that does not start with a digit. */
  lemma ArrayAndStringMembers(v: JsValue, key: string)
    requires v.Arr? || v.Str?
    ensures key == "length" ==> Member(v, key) == Returns(Num(if v.Arr? then |v.items| else |v.s|))
    ensures v.Arr? ==> forall i | 0 <= i < |v.items| && key == NatToDecimal(i) :: Member(v, key) == Returns(v.items[i])
    ensures v.Str? ==> forall i | 0 <= i < |v.s| && key == NatToDecimal(i) :: Member(v, key) == Returns(Str([v.s[i]]))
    ensures key != "length" && (key == [] || !IsDigit(key[0])) ==> Member(v, key) == Returns(Undef)
  {
    forall i: nat | key == NatToDecimal(i) ensures ArrayIndex(key) == Some(i) {
      ArrayIndexOfDecimal(i);
    }
  }

  predicate IsDigit(c: char) {
    '0' <= c <= '9'
  }

  /** `v?.[key]`: undefined instead of a TypeError on null and undefined. */
  function OptionalMember(v: JsValue, key: string): (r: JsValue)
    ensures v.Undef? || v.Null? ==> r == Undef
    ensures !(v.Undef? || v.Null?) ==> Member(v, key) == Returns(r)
  {
    if v.Undef? || v.Null? then Undef else Member(v, key).value
  }

  function DigitChar(d: nat): (c: char)
    requires d < 10
    ensures IsDigit(c) && c as int - '0' as int == d
  {
    (d + '0' as int) as char
  }

  function NatToDecimal(n: nat): (s: string)
    ensures |s| > 0
    ensures n >= 10 <==> |s| > 1
    ensures s[0] == '0' <==> n == 0
    decreases n
  {
    if n < 10 then [DigitChar(n)] else NatToDecimal(n / 10) + [DigitChar(n % 10)]
  }

  function IntToDecimal(n: int): string {
    if n < 0 then "-" + NatToDecimal(-n) else NatToDecimal(n)
  }

  /** `String(v)`, which is also the property key that `o[v]` uses. */
  function ToStr(v: JsValue): string
    decreases v, 1
  {
    match v
    case Undef => "undefined"
    case Null => "null"
    case Bool(b) => if b then "true" else "false"
    case Num(n) => IntToDecimal(n)
    case NaN => "NaN"
    case Str(s) => s
    case Arr(items) => JoinItems(v, items)
    case Obj(_) => "[object Object]"
  }

  /** `items.join(',')` as `Array.prototype.toString` does it: null and
      undefined elements print as the empty string. */
  function JoinItems(owner: JsValue, items: seq<JsValue>): string
    requires owner.Arr? && items <= owner.items
    decreases owner, 0, |items|
  {
    if items == [] then ""
    else
      var last := items[|items| - 1];
      var shown := if last.Undef? || last.Null? then "" else ToStr(last);
      if |items| == 1 then shown else JoinItems(owner, items[..|items| - 1]) + "," + shown
  }

  /** The property key `o[v]` uses for the value `v`. */
  function PropertyKey(v: JsValue): string {
    ToStr(v)
  }

  /** ToPrimitive with the default hint: objects and arrays become their
      string form, every other value is already primitive. */
  function ToPrimitive(v: JsValue): (p: JsValue)
    ensures !p.Arr? && !p.Obj?
  {
    if v.Arr? || v.Obj? then Str(ToStr(v)) else v
  }

  /** ToNumber on a primitive that is not a string. */
  function ToNumber(p: JsValue): (r: JsValue)
    requires !p.Arr? && !p.Obj? && !p.Str?
    ensures r.Num? || r.NaN?
  {
    match p
    case Undef => NaN
    case Null => Num(0)
    case Bool(b) => Num(if b then 1 else 0)
    case Num(n) => Num(n)
    case NaN => NaN
  }

  /** The `+` operator: string concatenation when either operand is (or
      converts to) a string, numeric addition otherwise. */
  function JsAdd(a: JsValue, b: JsValue): (r: JsValue)
    ensures r.Num? || r.NaN? || r.Str?
    ensures a.Num? && b.Num? ==> r == Num(a.n + b.n)
  {
    var pa := ToPrimitive(a);
    var pb := ToPrimitive(b);
    if pa.Str? || pb.Str? then Str(ToStr(pa) + ToStr(pb))
    else
      match (ToNumber(pa), ToNumber(pb))
      case (Num(x), Num(y)) => Num(x + y)
      case _ => NaN
  }
}
