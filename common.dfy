/** Value types shared by every component: an optional value and the JSON-like
    values that the settings document and the backup files are made of. */
module Common {

  /** Python's `Optional[...]`: `None` or a value. */
  datatype Option<+T> = None | Some(value: T)

  /** A JSON value as `json.load` produces it, restricted to the shapes the
      timer writes: booleans, whole numbers, strings and objects. */
  datatype Json =
    | JBool(b: bool)
    | JInt(i: int)
    | JStr(s: string)
    | JObj(fields: map<string, Json>)

  /** A JSON object: the settings document, a backup file, a serialized state. */
  type Document = map<string, Json>

  function Max0(x: int): (r: int) { if x < 0 then 0 else x }
}
