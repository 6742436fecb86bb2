/** Decoded JSON documents, and the library calls that produce and print them. */
module Json {
  import opened Prelude

  datatype Json =
    | Null
    | Bool(b: bool)
    | Number(n: real)
    | String(s: string)
    | Array(items: seq<Json>)
    | Object(fields: map<string, Json>)

  /** encoding/json and the number formatting of strconv, whose text formats are not modelled. */
  datatype Codec = Codec(
    decode: string -> Option<Json>,
    marshal: Json -> string,
    showNumber: real -> string,
    regexMatch: (string, string) -> Option<bool>)

  /** stringify of internal/pipeline/resolve.go */
  function Stringify(v: Json, codec: Codec): string {
    match v
    case Null => ""
    case String(s) => s
    case Bool(b) => if b then "true" else "false"
    case Number(n) => codec.showNumber(n)
    case _ => codec.marshal(v)
  }

  /** The text of a node: a string stands for itself without quotes, null for nothing, the other
      scalars for their literal, and an array or object for its marshalled form. */
  ghost predicate Shows(v: Json, text: string, codec: Codec) {
    && (v.Null? ==> text == "")
    && (v.String? ==> text == v.s)
    && (v.Bool? ==> text == if v.b then "true" else "false")
    && (v.Number? ==> text == codec.showNumber(v.n))
    && (v.Array? || v.Object? ==> text == codec.marshal(v))
  }

  lemma StringifyShows(v: Json, text: string, codec: Codec)
    ensures Stringify(v, codec) == text <==> Shows(v, text, codec)
  {
  }
}
