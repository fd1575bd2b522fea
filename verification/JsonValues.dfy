/** Decoded JSON documents, shared by the modules that edit them. */
module JsonValues {

  datatype Json =
    | Null
    | Bool(flag: bool)
    | Number(digits: string)
    | Str(text: string)
    | Arr(items: seq<Json>)
    | Obj(fields: map<string, Json>)
}
