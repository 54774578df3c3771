/** JavaScript values as they reach the services (parsed JSON request bodies,
    rows returned by the store), the error-carrying results the services use in
    place of thrown exceptions, and sums of amounts. */
module Values {

  datatype Option<T> = None | Some(value: T)

  /** A service call either returns a value or throws an Error with a message. */
  datatype Result<T> = Ok(value: T) | Err(msg: string)

  /** A JavaScript value. Numbers are exact reals: NaN and the infinities are not
      values a JSON body can carry, so they are not part of the model. */
  datatype Value =
    | Undefined
    | Null
    | Bool(b: bool)
    | Num(x: real)
    | Str(s: string)
    | Arr(items: seq<Value>)
    | Obj(fields: map<string, Value>)

  /** Property read `v.name`: undefined when the property is absent. Strings,
      numbers, booleans and arrays have none of the record properties read here. */
  function Field(v: Value, name: string): Value
  {
    if v.Obj? && name in v.fields then v.fields[name] else Undefined
  }

  /** JavaScript truthiness (ToBoolean). */
  predicate Truthy(v: Value)
  {
    match v
    case Undefined => false
    case Null => false
    case Bool(b) => b
    case Num(x) => x != 0.0
    case Str(s) => s != ""
    case Arr(_) => true
    case Obj(_) => true
  }

  /** Left-to-right sum, as `reduce((sum, x) => sum + x, 0)` computes it. */
  function Sum(xs: seq<real>): real
  {
    if xs == [] then 0.0 else Sum(xs[..|xs| - 1]) + xs[|xs| - 1]
  }

  lemma {:induction false} SumConcat(a: seq<real>, b: seq<real>)
    ensures Sum(a + b) == Sum(a) + Sum(b)
  {
    if b == [] {
      assert a + b == a;
    } else {
      assert (a + b)[..|a + b| - 1] == a + b[..|b| - 1];
      SumConcat(a, b[..|b| - 1]);
    }
  }

  lemma {:induction false} SumNonNegative(xs: seq<real>)
    requires forall i | 0 <= i < |xs| :: xs[i] >= 0.0
    ensures Sum(xs) >= 0.0
  {
    if xs != [] {
      SumNonNegative(xs[..|xs| - 1]);
    }
  }
}
