/** The values held by the dictionaries that the `to_dict` methods build and the
    HTTP layer serialises: integers, strings, lists and string-keyed dictionaries. */
module Values {

  datatype Value =
    | Int(i: int)
    | Str(s: string)
    | List(items: seq<Value>)
    | Object(fields: map<string, Value>)
}
