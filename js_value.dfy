/**
 * The JavaScript values that the rule library's option records, error
 * messages and request details are made of, with the few operators of the
 * language that the library applies to them (`typeof`, truthiness, `??`,
 * `||`, property lookup) and its small formatting helpers.
 *
 * Numbers are integers here: fractional numbers and their formatting are not
 * part of this model.
 */
module JsValue {

  datatype Value =
    | Undefined
    | Null
    | Bool(b: bool)
    | Num(n: int)
    | Str(s: string)
    | Arr(items: seq<Value>)
    | Obj(props: map<string, Value>)
    | Func(name: string)

  datatype Option<T> = None | Some(value: T)

  /** The `typeof` operator. */
  function TypeOf(v: Value): string {
    match v
    case Undefined => "undefined"
    case Null => "object"
    case Bool(_) => "boolean"
    case Num(_) => "number"
    case Str(_) => "string"
    case Arr(_) => "object"
    case Obj(_) => "object"
    case Func(_) => "function"
  }

  /** `typeof v !== "undefined"` */
  predicate Defined(v: Value) {
    !v.Undefined?
  }

  /** The values a condition treats as true. */
  predicate Truthy(v: Value) {
    match v
    case Undefined => false
    case Null => false
    case Bool(b) => b
    case Num(n) => n != 0
    case Str(s) => s != ""
    case _ => true
  }

  /** `v ?? d` */
  function Coalesce(v: Value, d: Value): Value {
    if v.Undefined? || v.Null? then d else v
  }

  /** `v || d` */
  function Or(v: Value, d: Value): Value {
    if Truthy(v) then v else d
  }

  /** `record[key]` on a record that is a map of own properties. */
  function Get(record: map<string, Value>, key: string): (v: Value)
    ensures key !in record ==> v == Undefined
  {
    if key in record then record[key] else Undefined
  }

  /** Decimal digits of a natural number. */
  function NatToString(n: nat): (s: string)
    decreases n
  {
    if n < 10 then [DigitChar(n)] else NatToString(n / 10) + [DigitChar(n % 10)]
  }

  function DigitChar(d: nat): char
    requires d < 10
  {
    "0123456789"[d]
  }

  /** The string template `${n}` for an integer. */
  function IntToString(n: int): string {
    if n < 0 then "-" + NatToString(-n) else NatToString(n)
  }

  /** `parts.join(sep)` */
  function Join(parts: seq<string>, sep: string): string
    decreases |parts|
  {
    if |parts| == 0 then ""
    else if |parts| == 1 then parts[0]
    else parts[0] + sep + Join(parts[1..], sep)
  }

  /** The value of `new Error(message)`, as far as `errorMessage` can see it. */
  function NewError(message: string): Value {
    Obj(map["message" := Str(message)])
  }

  /** `errorMessage(new Error(message))` is the message itself. */
  lemma ErrorMessageOfError(message: string)
    ensures ErrorMessage(NewError(message)) == message
  {
  }

  /**
   * `errorMessage(err)`: a truthy string is its own message, an object with a
   * string `message` property gives that property, and everything else,
   * every falsy value included, is "Unknown problem".
   */
  function ErrorMessage(err: Value): string {
    if Truthy(err) then
      match err
      case Str(s) => s
      case Obj(props) =>
        if "message" in props && props["message"].Str? then props["message"].s else "Unknown problem"
      case _ => "Unknown problem"
    else
      "Unknown problem"
  }

  /** The cases of `errorMessage`. */
  lemma ErrorMessageCases(err: Value)
    ensures err.Str? && err.s != "" ==> ErrorMessage(err) == err.s
    ensures !Truthy(err) ==> ErrorMessage(err) == "Unknown problem"
    ensures err.Obj? && "message" in err.props && err.props["message"].Str? ==>
      ErrorMessage(err) == err.props["message"].s
    ensures !err.Str? && !err.Obj? ==> ErrorMessage(err) == "Unknown problem"
  {
  }

  /**
   * `toString(value)`: strings as they are, numbers in decimal, booleans as
   * "true" or "false", and "<unsupported value>" for everything else.
   */
  function ToString(v: Value): string {
    match v
    case Str(s) => s
    case Num(n) => IntToString(n)
    case Bool(b) => if b then "true" else "false"
    case _ => "<unsupported value>"
  }

  /** The value that `NatToString` writes in decimal. */
  function DigitsValue(s: string): int
    decreases |s|
  {
    if |s| == 0 then 0 else DigitsValue(s[..|s| - 1]) * 10 + DigitValue(s[|s| - 1])
  }

  function DigitValue(c: char): int {
    if '0' <= c <= '9' then c as int - '0' as int else 0
  }

  /** Reading the decimal digits back gives the number that was written. */
  lemma {:induction false} NatToStringRoundTrip(n: nat)
    ensures DigitsValue(NatToString(n)) == n
    ensures forall i :: 0 <= i < |NatToString(n)| ==> '0' <= NatToString(n)[i] <= '9'
    decreases n
  {
    var s := NatToString(n);
    if n < 10 {
      assert s == [DigitChar(n)];
      assert s[..|s| - 1] == [];
    } else {
      NatToStringRoundTrip(n / 10);
      var p := NatToString(n / 10);
      assert s == p + [DigitChar(n % 10)];
      assert s[..|s| - 1] == p;
    }
  }

  /** The request properties that the SDK reads itself. */
  const KnownFields := ["ip", "method", "protocol", "host", "path", "headers", "body", "email", "cookies", "query"]

  predicate IsUnknownRequestProperty(key: string) {
    key !in KnownFields
  }

  /**
   * `extraProps(details)`: the properties of the request that are not known
   * fields, each rendered with `toString`. Known fields are left out.
   */
  method ExtraProps(details: map<string, Value>) returns (extra: map<string, string>)
    ensures extra.Keys == set key | key in details && IsUnknownRequestProperty(key)
    ensures forall key :: key in extra ==> extra[key] == ToString(details[key])
  {
    extra := map[];
    var todo := details.Keys;
    while todo != {}
      invariant todo <= details.Keys
      invariant extra.Keys == set key | key in details && key !in todo && IsUnknownRequestProperty(key)
      invariant forall key :: key in extra ==> key in details && extra[key] == ToString(details[key])
      decreases todo
    {
      var key :| key in todo;
      if IsUnknownRequestProperty(key) {
        extra := extra[key := ToString(details[key])];
      }
      todo := todo - {key};
    }
  }
}
