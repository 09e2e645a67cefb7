/** JSON values, as the command line sees them. */
module Json {
  datatype Value =
    | Null
    | Bool(flag: bool)
    | Number(number: int)
    | Str(text: string)
    | Array(items: seq<Value>)
    | Object(fields: map<string, Value>)
}
