/** JSON values as the client sees them after parsing, and the parser
    the client relies on, which is an external collaborator of this model. */
module JsonValues {
  import opened Wrappers

  /** A parsed JSON value. An object is a map from member names to values,
      so duplicate names have already been resolved by the parser. Numbers
      are integers here: every number the client inspects is an integer. */
  datatype Json =
    | Null
    | Bool(b: bool)
    | Num(n: int)
    | Str(s: string)
    | Arr(items: seq<Json>)
    | Obj(fields: map<string, Json>)

  /** A JSON text parser: `None` when the text is not valid JSON. The model
      never fixes its behaviour; facts about it are stated where needed. */
  type Parser = string -> Option<Json>

  /** Property access `value.name` on a parsed value: defined only for an
      object that has a member of that name. */
  function Member(value: Json, name: string): (r: Option<Json>)
    ensures r.Some? <==> value.Obj? && name in value.fields
    ensures r.Some? ==> r.value == value.fields[name]
  {
    match value
    case Obj(fields) => if name in fields then Some(fields[name]) else None
    case _ => None
  }
}
