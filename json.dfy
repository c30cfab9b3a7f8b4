/**
  The generic JSON value that Go's encoding/json produces when it decodes into
  `map[string]any`: nil, bool, float64, string, []any and map[string]any.
  Text parsing and serialisation are not modelled; the model works on values.
 */
module Json {

  datatype Json =
    | Null
    | Bool(b: bool)
    | Num(n: real)
    | Str(s: string)
    | Arr(items: seq<Json>)
    | Obj(fields: map<string, Json>)
}
