/** Dynamic values as the pipeline's Python dictionaries and the edge function's
    parsed JSON hold them, with the few built-in operations the core relies on:
    key lookup with a default, truthiness, `len` and numeric comparison. */
module Values {

  /** A Python (or JSON) value. Python floats are modelled as ideal reals. */
  datatype Value =
    | Null
    | Bool(b: bool)
    | Int(i: int)
    | Float(f: real)
    | Str(s: string)
    | List(items: seq<Value>)
    | Dict(fields: map<string, Value>)

  /** A record: a dictionary with string keys. */
  type Row = map<string, Value>

  datatype Option<T> = None | Some(value: T)

  /** The exceptions the modelled code can raise. */
  datatype Error = TypeError | IndexError | ValueError(message: string)

  datatype Result<T> = Ok(value: T) | Err(error: Error)
  {
    predicate IsFailure() { Err? }

    function PropagateFailure<U>(): Result<U>
      requires Err?
    {
      Err(error)
    }

    function Extract(): T
      requires Ok?
    {
      value
    }
  }

  /** `r.get(key, default)` */
  function Get(r: Row, key: string, default: Value): Value
  {
    if key in r then r[key] else default
  }

  /** Python truthiness: None, False, zero and empty containers are false. */
  predicate Truthy(v: Value)
  {
    match v
    case Null => false
    case Bool(b) => b
    case Int(i) => i != 0
    case Float(f) => f != 0.0
    case Str(s) => s != []
    case List(items) => items != []
    case Dict(fields) => fields != map[]
  }

  /** JavaScript truthiness of a JSON field, `None` standing for `undefined`:
      unlike Python, empty arrays and objects are truthy. */
  predicate JsTruthy(v: Option<Value>)
  {
    match v
    case None => false
    case Some(Null) => false
    case Some(Bool(b)) => b
    case Some(Int(i)) => i != 0
    case Some(Float(f)) => f != 0.0
    case Some(Str(s)) => s != []
    case Some(List(_)) => true
    case Some(Dict(_)) => true
  }

  /** A JSON field as JavaScript reads it: `undefined` when absent. */
  function Field(r: Row, key: string): Option<Value>
  {
    if key in r then Some(r[key]) else None
  }

  /** The number a value stands for in a Python comparison or arithmetic
      (bools are integers); `None` where Python raises TypeError. */
  function AsNumber(v: Value): Option<real>
  {
    match v
    case Bool(b) => Some(if b then 1.0 else 0.0)
    case Int(i) => Some(i as real)
    case Float(f) => Some(f)
    case _ => None
  }

  /** `len(v)`; `None` where Python raises TypeError. */
  function Len(v: Value): Option<nat>
  {
    match v
    case Str(s) => Some(|s|)
    case List(items) => Some(|items|)
    case Dict(fields) => Some(|fields|)
    case _ => None
  }
}
