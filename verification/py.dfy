/**
 * The few Python built-ins the server's logic leans on, over JSON-shaped
 * values: truthiness, `int()`, `float()` and `str()`.
 *
 * Reading a number out of text and writing a float as text are left to the
 * `Conversions` record, a parameter of every server operation that uses them.
 */
module Py {
  import opened Wrappers
  import opened Text
  import opened Json

  /** Python's truth value of a decoded JSON value. */
  predicate Truthy(v: Value)
  {
    match v
    case Null => false
    case Bool(b) => b
    case Int(i) => i != 0
    case Float(x) => x != 0.0
    case Str(s) => s != ""
    case Array(items) => items != []
    case Object(ms) => ms != []
  }

  /** `int(x)` of a float: truncation toward zero. */
  function Trunc(x: real): (i: int)
    ensures 0.0 <= x ==> i as real <= x < i as real + 1.0
    ensures x < 0.0 ==> i as real - 1.0 < x <= i as real
  {
    if x >= 0.0 then x.Floor else -((-x).Floor)
  }

  /** The built-in conversions whose text side is not modelled. */
  datatype Conversions = Conversions(
    /** `float(s)` of a string; `None` where it raises. */
    floatOfText: string -> Option<real>,
    /** `int(s)` of a string; `None` where it raises. */
    intOfText: string -> Option<int>,
    /** `str(x)` of a float. */
    floatText: real -> string,
    /** `str(x)` of a list or a dict. */
    containerText: Value -> string)

  /** `int(v)`; `None` where Python raises. */
  function ToInt(conv: Conversions, v: Value): Option<int>
  {
    match v
    case Int(i) => Some(i)
    case Bool(b) => Some(if b then 1 else 0)
    case Float(x) => Some(Trunc(x))
    case Str(s) => conv.intOfText(s)
    case _ => None
  }

  /** `float(v)`; `None` where Python raises. */
  function ToFloat(conv: Conversions, v: Value): Option<real>
  {
    match v
    case Int(i) => Some(i as real)
    case Bool(b) => Some(if b then 1.0 else 0.0)
    case Float(x) => Some(x)
    case Str(s) => conv.floatOfText(s)
    case _ => None
  }

  /** `str(v)`. */
  function ToStr(conv: Conversions, v: Value): string
  {
    match v
    case Null => "None"
    case Bool(b) => if b then "True" else "False"
    case Int(i) => Decimal(i)
    case Float(x) => conv.floatText(x)
    case Str(s) => s
    case _ => conv.containerText(v)
  }
}
