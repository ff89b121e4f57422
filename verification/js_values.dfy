/** JavaScript's dynamic values as far as the ledger code inspects them:
    truthiness, `||`, `String(v)`, the text `Array.prototype.join` and
    template literals give a value, and `Number(v)`. */
module JsValues {
  import opened JsNumbers
  import opened Strings

  /** A field of a record that came from JSON, a CSV row or a form. Objects
      and arrays never reach the operations modelled here as field values. */
  datatype Value = Undefined | Null | Bool(b: bool) | Number(n: Num) | Str(s: string)

  /** `!!v` */
  predicate Truthy(v: Value) {
    match v
    case Undefined => false
    case Null => false
    case Bool(b) => b
    case Number(n) => n.Fin? && n.val != 0.0
    case Str(s) => s != ""
  }

  /** `a || b`: the first operand when it is truthy, else the second. */
  function Or(a: Value, b: Value): (r: Value)
    ensures Truthy(a) ==> r == a
    ensures !Truthy(a) ==> r == b
  {
    if Truthy(a) then a else b
  }

  /** `String(v)`, and the text a template literal `${v}` inserts. */
  function ToStr(v: Value): string {
    match v
    case Undefined => "undefined"
    case Null => "null"
    case Bool(b) => if b then "true" else "false"
    case Number(n) => NumToString(n)
    case Str(s) => s
  }

  /** What `[..].join(',')` writes for one element: nothing for undefined
      and null, `String(v)` otherwise. */
  function JoinText(v: Value): (r: string)
    ensures v.Undefined? || v.Null? ==> r == ""
    ensures !(v.Undefined? || v.Null?) ==> r == ToStr(v)
  {
    if v.Undefined? || v.Null? then "" else ToStr(v)
  }

  /** `Number(v)`. */
  function ToNumber(v: Value): Num {
    match v
    case Undefined => NaN
    case Null => Fin(0.0)
    case Bool(b) => Fin(if b then 1.0 else 0.0)
    case Number(n) => n
    case Str(s) => StringToNumber(s)
  }

  /** `a === b`: equal types and values, except that NaN equals nothing. */
  predicate StrictEquals(a: Value, b: Value) {
    a == b && !(a.Number? && a.n.NaN?)
  }

  /** `parseFloat(v)`: the text of `String(v)` read as a decimal prefix. A
      number is read back as itself. */
  function ParseFloatValue(v: Value): Num {
    match v
    case Number(n) => n
    case Str(s) => ParseFloat(s)
    case _ => NaN
  }

  /** A plain object's own properties by name. */
  type Object = map<string, Value>

  /** `o[key]`: a missing property reads as undefined. */
  function Property(o: Object, key: string): (r: Value)
    ensures key !in o ==> r.Undefined?
  {
    if key in o then o[key] else Undefined
  }
}
