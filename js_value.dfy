/** JSON values as a request handler sees them after `req.json()`, and the
    JavaScript coercions the handlers apply to them. */
module JsValue {
  import opened Wrappers
  import opened JsText

  /** A property of a parsed request body.  `Obj` stands for objects and arrays
      and carries what `String(v)` renders them as; numbers are integers. */
  datatype Value = Undefined | Null | Str(s: string) | Bool(b: bool) | Num(n: int) | Obj(text: string)

  /** A parsed JSON object body: property name to value. */
  type Body = map<string, Value>

  /** `body?.name`: a missing property reads as `undefined`. */
  function Field(body: Body, name: string): (v: Value)
    ensures name !in body ==> v == Undefined
  {
    if name in body then body[name] else Undefined
  }

  /** `String(n)` for an integer: a minus sign exactly for a negative
      number, then the shortest decimal numeral of its magnitude. */
  function IntString(n: int): (r: string)
    ensures r != [] && (r[0] == '-' <==> n < 0)
    ensures var digits := if n < 0 then r[1..] else r;
      && digits != [] && AllDigits(digits)
      && DecValue(digits) == (if n < 0 then -n else n)
      && (digits[0] == '0' ==> n == 0)
  {
    if n >= 0 then
      var r := Dec(n);
      assert IsDigit(r[0]);
      r
    else
      var d := Dec(-n);
      assert ("-" + d)[1..] == d;
      "-" + d
  }

  /** JavaScript truthiness. */
  predicate Truthy(v: Value) {
    match v
    case Undefined => false
    case Null => false
    case Str(s) => s != ""
    case Bool(b) => b
    case Num(n) => n != 0
    case Obj(_) => true
  }

  /** `String(v)` for a value that is not `null` or `undefined`. */
  function Render(v: Value): string
    requires !v.Undefined? && !v.Null?
  {
    match v
    case Str(s) => s
    case Bool(b) => if b then "true" else "false"
    case Num(n) => IntString(n)
    case Obj(text) => text
  }

  /** `String(v ?? "")`. */
  function StringOrEmpty(v: Value): (r: string)
    ensures v.Str? ==> r == v.s
    ensures v.Undefined? || v.Null? ==> r == ""
  {
    if v.Undefined? || v.Null? then "" else Render(v)
  }

  /** `String(v || "")`: every falsy value becomes "". */
  function StringOrEmptyIfFalsy(v: Value): (r: string)
    ensures v.Str? ==> r == v.s
    ensures !Truthy(v) ==> r == ""
  {
    if Truthy(v) then Render(v) else ""
  }

  /** `typeof v === "string" && v` taken as a non-empty string. */
  function NonEmptyString(v: Value): (r: Option<string>)
    ensures r.Some? <==> v.Str? && v.s != ""
    ensures r.Some? ==> r.value == v.s
  {
    if v.Str? && v.s != "" then Some(v.s) else None
  }
}
