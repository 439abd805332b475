/** The JSON values that step arguments are made of. */
module Json {
  import opened Wrappers

  datatype Json =
    | Null | Bool(b: bool) | Number(n: int) | Str(s: string) | Arr(items: seq<Json>) | Obj(members: map<string, Json>)

  function Member(o: Option<Json>, key: string): Option<Json> {
    if o.Some? && o.value.Obj? && key in o.value.members then Some(o.value.members[key]) else None
  }

  function AsStr(o: Option<Json>): Option<string> {
    if o.Some? && o.value.Str? then Some(o.value.s) else None
  }

  function AsBool(o: Option<Json>, default: bool): bool {
    if o.Some? && o.value.Bool? then o.value.b else default
  }

  /** The string items of an array, in order; other items are skipped. */
  function StringsOf(items: seq<Json>): seq<string> {
    if items == [] then []
    else (if items[0].Str? then [items[0].s] else []) + StringsOf(items[1..])
  }

  function StringArray(o: Option<Json>): seq<string> {
    if o.Some? && o.value.Arr? then StringsOf(o.value.items) else []
  }
}
