/** JavaScript values as the handlers see them in request bodies, query strings,
    environment variables and database rows: absent, `null`, or a string.
    Only the two operations the source applies to them are modelled: a
    truthiness test (`if (!x)`, `x || default`) and template interpolation. */
module JsValues {

  datatype JsValue = Undefined | Null | Str(s: string)

  /** JavaScript truthiness restricted to these values: only a non-empty string is truthy. */
  predicate Truthy(v: JsValue) {
    v.Str? && v.s != ""
  }

  /** `${v}` in a template literal, and the property key `obj[v]` converts to. */
  function Interp(v: JsValue): string {
    match v
    case Undefined => "undefined"
    case Null => "null"
    case Str(s) => s
  }

  /** `v || default` where the default is a string literal. */
  function OrDefault(v: JsValue, default: string): string {
    if Truthy(v) then v.s else default
  }
}
