/**
 * The values `json.loads` produces, the record shapes the agents check them
 * against, and Python's `str()` of a parsed value.
 */
module JsonModel {
  import opened Text

  /**
   * A parsed JSON value: Python's None, bool, int, float, str, list and dict.
   * A float carries the text Python's `repr` gives it, since float formatting
   * is not modelled.
   */
  datatype Json =
    | JNull
    | JBool(b: bool)
    | JInt(i: int)
    | JFloat(repr: string)
    | JStr(s: string)
    | JArr(items: seq<Json>)
    | JObj(fields: map<string, Json>)

  /**
   * The keys each element of an agent's array must carry, and those among them
   * whose value must itself be a list.
   */
  datatype Schema = Schema(required: set<string>, lists: set<string>)

  /** `isinstance(x, dict)` and every required key present (and list-valued where asked). */
  predicate Conforms(x: Json, schema: Schema) {
    && x.JObj?
    && (forall k :: k in schema.required ==> k in x.fields)
    && (forall k :: k in schema.lists ==> k in x.fields && x.fields[k].JArr?)
  }

  /** `isinstance(v, list) and all(<element check> for x in v)`. */
  predicate Validates(v: Json, schema: Schema) {
    v.JArr? && forall i :: 0 <= i < |v.items| ==> Conforms(v.items[i], schema)
  }

  /** `dict.get(key)`: the value under `key`, `None` when it is missing. */
  function Get(x: Json, key: string): Json
    requires x.JObj?
  {
    if key in x.fields then x.fields[key] else JNull
  }

  /** Python's `str(v)` for a parsed value (containers are rendered as placeholders). */
  function PyStr(v: Json): string {
    match v
    case JNull => "None"
    case JBool(b) => if b then "True" else "False"
    case JInt(i) => IntToString(i)
    case JFloat(repr) => repr
    case JStr(s) => s
    case JArr(_) => "[...]"
    case JObj(_) => "{...}"
  }
}
