/** Event payloads as Socket.IO delivers them to a handler: decoded JSON,
    plus `Undefined` for a property that is absent. Numbers are integers. */
module Json {

  datatype Value =
    | Undefined
    | Null
    | Bool(b: bool)
    | Num(n: int)
    | Str(s: string)
    | Arr(items: seq<Value>)
    | Obj(fields: map<string, Value>)

  /** A value JavaScript compares by content rather than by reference. */
  predicate Primitive(v: Value) {
    !v.Arr? && !v.Obj?
  }

  /** JavaScript `a === b` on decoded payload values. Arrays and objects
      compare by reference, and every decoded array or object is a fresh
      reference, so two of them are never strictly equal. */
  predicate StrictEq(a: Value, b: Value) {
    a == b && Primitive(a)
  }

  /** `null` and `undefined`: reading a property of one of them throws a
      TypeError, and so does destructuring it. */
  predicate Nullish(v: Value) {
    v.Undefined? || v.Null?
  }

  /** `v.key` for a value that is not nullish: the property if `v` is an
      object that has it, `undefined` otherwise. */
  function Field(v: Value, key: string): Value {
    if v.Obj? && key in v.fields then v.fields[key] else Undefined
  }
}
