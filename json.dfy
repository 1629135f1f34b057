/**
 * The dynamic JavaScript values the handler and the template guard look at:
 * a request body (`req.body`) and a notification's `data` payload.
 */
module Json {

  /** A JavaScript value, as far as `typeof`, property access and string conversion
      can tell it apart. `Undefined` stands both for `undefined` and for a property
      that is absent; `Obj` is a plain object with its own enumerable properties;
      `Arr` is an array; `Other` is every remaining value (`null`, numbers,
      booleans). */
  datatype Value =
    | Undefined
    | Str(s: string)
    | Obj(fields: map<string, Value>)
    | Arr(elems: seq<Value>)
    | Other

  /** Property access `v?.key` (and `(v ?? {}).key`): an object yields its field or
      `undefined` when the field is absent; `undefined`, `null`, arrays and every
      primitive have no such own property and yield `undefined`. */
  function Member(v: Value, key: string): (r: Value)
    ensures v.Obj? && key in v.fields ==> r == v.fields[key]
    ensures !(v.Obj? && key in v.fields) ==> r == Undefined
  {
    match v
    case Obj(fields) => if key in fields then fields[key] else Undefined
    case _ => Undefined
  }

  /** Whether converting `v` to a string, as a template literal `${v}` does, throws
      a TypeError. A plain object converts through the inherited
      `Object.prototype.toString` unless it has an own `toString` property: a value
      that came from JSON is never callable, so that method is skipped, the
      inherited `valueOf` returns the object itself, and no string comes out. An
      array converts by joining its elements, so it fails exactly when one of its
      elements fails. Strings, `undefined`, `null`, numbers and booleans always
      convert. */
  predicate StringConversionThrows(v: Value)
    ensures StringConversionThrows(v) ==> v.Obj? || v.Arr?
    ensures v.Obj? ==> (StringConversionThrows(v) <==> "toString" in v.fields)
  {
    match v
    case Obj(fields) => "toString" in fields
    case Arr(elems) => exists i | 0 <= i < |elems| :: StringConversionThrows(elems[i])
    case _ => false
  }
}
