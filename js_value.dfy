/**
 * The values a JSON request body can hold once it has been parsed, plus
 * `undefined` for a property that is not there, and JavaScript's notion
 * of truthiness on them.
 */
module JsValue {

  /**
   * A parsed JSON value. `Num` holds the value of the IEEE double that
   * JSON parsing produces, not the value the text spells: a literal that
   * underflows, such as `1e-400`, is `Num(0.0)`. A literal that overflows
   * parses to an infinity, which is not a real: a nonzero `Num` stands in
   * for it.
   */
  datatype JsValue =
    | Undefined
    | Null
    | Bool(b: bool)
    | Num(n: real)
    | Str(s: string)
    | Arr(items: seq<JsValue>)
    | Obj(fields: map<string, JsValue>)

  /**
   * ToBoolean: `undefined`, `null`, `false`, `0`, `-0` and `""` are falsy;
   * every array and object, even an empty one, is truthy. (NaN is also
   * falsy in JavaScript, but no JSON text parses to NaN.)
   */
  predicate Truthy(v: JsValue) {
    match v
    case Undefined => false
    case Null => false
    case Bool(b) => b
    case Num(n) => n != 0.0
    case Str(s) => s != ""
    case Arr(_) => true
    case Obj(_) => true
  }

  /**
   * The value a destructuring `const { name } = body` binds: the own
   * property when the body is an object that has it, `undefined` otherwise
   * (an array body has no property of a non-index name).
   */
  function Field(body: JsValue, name: string): JsValue
  {
    if body.Obj? && name in body.fields then body.fields[name] else Undefined
  }

  /**
   * Whether ToString(v) throws a TypeError. On a parsed object, ToString
   * tries `toString` and then `valueOf`: an own `toString` property is
   * never callable (it is a JSON value), and the inherited `valueOf`
   * returns the object itself, so the conversion throws exactly when the
   * object has an own `toString`; otherwise the inherited `toString`
   * gives "[object Object]". An array converts by joining its elements,
   * so it throws when one of them does. Other values always convert.
   */
  predicate ToStringThrows(v: JsValue)
    decreases v, 1
  {
    match v
    case Obj(fields) => "toString" in fields
    case Arr(items) => SomeElementThrows(items)
    case _ => false
  }

  /** Whether joining these array elements throws: one of them does. */
  predicate SomeElementThrows(items: seq<JsValue>)
    decreases items, 0
  {
    items != [] && (ToStringThrows(items[0]) || SomeElementThrows(items[1..]))
  }

  /** The array case of `ToStringThrows` is "some element throws". */
  lemma {:induction false} ArrayThrowsWhenAnElementThrows(items: seq<JsValue>)
    ensures ToStringThrows(Arr(items)) <==> exists i :: 0 <= i < |items| && ToStringThrows(items[i])
  {
    if items != [] {
      ArrayThrowsWhenAnElementThrows(items[1..]);
      if ToStringThrows(items[0]) {
        assert 0 < |items| && ToStringThrows(items[0]);
      } else if exists i :: 0 <= i < |items| && ToStringThrows(items[i]) {
        var i :| 0 <= i < |items| && ToStringThrows(items[i]);
        assert items[1..][i - 1] == items[i];
      }
    }
  }
}
