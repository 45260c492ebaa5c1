/** The JSON values that pass through the catalogue and the backup header. */
module JsonValue {

  datatype Json = Null | Flag(flag: bool) | Number(number: real) | Text(text: string) | List(items: seq<Json>)
    | Object(fields: map<string, Json>)

  /** Neither null nor an empty text, list or object. */
  predicate HasValue(v: Json) {
    v != Null && v != Text("") && v != List([]) && v != Object(map[])
  }

  /** Nothing in it. */
  predicate Empty(v: Json) {
    match v
    case Null => true
    case Text(text) => |text| == 0
    case List(items) => |items| == 0
    case Object(fields) => |fields| == 0
    case _ => false
  }

  /** A flag or a number always counts as a value, even false and zero. */
  lemma HasValueMeans(v: Json)
    ensures HasValue(v) <==> !Empty(v)
  {
    if v.Object? && |v.fields| == 0 {
      assert v.fields == map[];
    }
  }
}
