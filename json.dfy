/** JavaScript values as the core receives them: parsed JSON plus `undefined`. */
module Json {

  /** A JSON value, or `Undefined` for a missing property. Numbers are kept as reals. */
  datatype Value =
    | Undefined
    | Null
    | Bool(b: bool)
    | Num(n: real)
    | Str(s: string)
    | Arr(items: seq<Value>)
    | Obj(fields: map<string, Value>)

  /** JavaScript falsiness: `!v` holds. */
  predicate Falsy(v: Value) {
    v == Undefined || v == Null || v == Bool(false) || v == Num(0.0) || v == Str("")
  }

  /** `typeof v === 'object' && v !== null` (arrays included, as in JavaScript). */
  predicate IsObjectLike(v: Value) {
    v.Arr? || v.Obj?
  }

  /** Reading property `key` of a value that is neither `null` nor `undefined`: an own field of an
      object, otherwise `undefined` (none of the keys read by the core exists on other values). */
  function Field(v: Value, key: string): Value {
    if v.Obj? && key in v.fields then v.fields[key] else Undefined
  }
}
