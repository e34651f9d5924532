// JSON values as serde_json holds them, and the proto values they are sent as. A float is
// finite, so it is modelled by the real number it denotes.
module JsonValue {
  import opened ByteText

  datatype Number = PosInt(nat) | NegInt(int) | Float(real)

  datatype Json =
    | Null
    | Bool(bool)
    | Num(number: Number)
    | Str(text: Bytes)
    | Arr(items: seq<Json>)
    | Obj(fields: map<Bytes, Json>)

  datatype Proto =
    | NoKind
    | NullValue
    | BoolValue(bool)
    | NumberValue(value: real)
    | StringValue(text: Bytes)
    | ListValue(items: seq<Proto>)
    | StructValue(fields: map<Bytes, Proto>)
}
