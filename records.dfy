/**
 * The values both scripts read: warning records as the warnings service sends
 * them, and the few shapes of parsed JSON that the scripts tell apart.
 *
 * JavaScript's `undefined` and `null` fields are both `None` here; JSON values
 * are reduced to what the scripts ever look at (truthiness, `typeof`, and the
 * properties `warnings`, `savedAt` and `payload`).
 */
module Records {

  datatype Option<+T> = None | Some(value: T)

  /** One element of the `warnings` array; every property may be absent. */
  datatype Warning = Warning(
    kind: Option<string>,    // the `type` property
    level: Option<string>,
    start: Option<string>,
    end: Option<string>,
    text: Option<string>)

  /** The `warnings` property of a value, as far as the scripts distinguish it. */
  datatype WarningsField =
    | Missing                          // absent, or a falsy value
    | NotArray                         // a truthy value that is not an array
    | WarningArray(ws: seq<Warning>)

  /** A parsed JSON value. */
  datatype Json =
    | Null
    | Primitive(truthy: bool)          // a boolean, number or string
    | List                             // an array: it has none of the properties read here
    | Obj(warnings: WarningsField, savedAt: Option<string>, payload: Option<Json>)

  /** JavaScript truthiness of a JSON value. */
  predicate Truthy(v: Json) {
    match v
    case Null => false
    case Primitive(t) => t
    case List => true
    case Obj(_, _, _) => true
  }

  /** `typeof v === "object"` (true of `null` and of arrays, as in JavaScript). */
  predicate IsTypeofObject(v: Json) {
    v.Null? || v.List? || v.Obj?
  }

  /** `v.warnings` for a value that is not `null`. */
  function WarningsOf(v: Json): WarningsField {
    if v.Obj? then v.warnings else Missing
  }

  /** `Array.isArray(v.warnings)`. */
  predicate HasWarningArray(v: Json) {
    WarningsOf(v).WarningArray?
  }

  /** `o || d` on an optional string: absent and empty both give the default. */
  function OrDefault(o: Option<string>, d: string): string
  {
    match o
    case Some(s) => if s != "" then s else d
    case None => d
  }

  /** `String(o)`, which is also the property key `obj[o]` uses. */
  function JsString(o: Option<string>): string {
    match o
    case Some(s) => s
    case None => "undefined"
  }
}
