/** The JavaScript values that reach the handlers through a parsed JSON body,
    and the two ways the handlers inspect them: truthiness (`if (x && y)`)
    and key presence (`'k' in obj`). */
module JsValues {

  datatype Option<+T> = None | Some(value: T)

  /** A JavaScript value. `Undefined` is what destructuring yields for a key the
      object lacks; numbers are integers here (JSON bodies carry no NaN). */
  datatype JsValue =
    | Undefined
    | Null
    | Bool(b: bool)
    | Number(n: int)
    | Text(s: string)
    | Object

  /** A parsed JSON object: its own keys and their values. */
  type JsObject = map<string, JsValue>

  /** JavaScript truthiness: `undefined`, `null`, `false`, `0` and `""` are falsy,
      everything else is truthy. */
  predicate Truthy(v: JsValue)
  {
    match v
    case Undefined => false
    case Null => false
    case Bool(b) => b
    case Number(n) => n != 0
    case Text(s) => s != ""
    case Object => true
  }

  /** Property access `obj.k` (and destructuring `const { k } = obj`). */
  function Get(obj: JsObject, k: string): JsValue
  {
    if k in obj then obj[k] else Undefined
  }

  /** Exactly the values `""`, `0`, `false`, `null` and `undefined` are falsy. */
  lemma FalsyValues(v: JsValue)
    ensures !Truthy(v) <==> v in {Undefined, Null, Bool(false), Number(0), Text("")}
  {
  }
}
