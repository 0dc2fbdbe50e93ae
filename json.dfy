/** The JSON tree Jackson produces, and the three JsonNode queries the error
    code extraction uses: has, get and asText. */
module Json {
  import opened Wrappers
  import Text

  datatype Json =
    | JNull
    | JBool(b: bool)
    | JInt(i: int)             // an integral number node
    | JDecimal(text: string)   // a floating-point node, with Jackson's rendering of it
    | JString(s: string)
    | JArray(items: seq<Json>)
    | JObject(fields: map<string, Json>)

  /** JsonNode.has(name): only an object node has named fields; a field whose
      value is JSON null is present. */
  predicate Has(node: Json, name: string) {
    node.JObject? && name in node.fields
  }

  /** JsonNode.get(name), with null as None. */
  function Get(node: Json, name: string): (r: Option<Json>)
    ensures r.Some? <==> Has(node, name)
  {
    if Has(node, name) then Some(node.fields[name]) else None
  }

  /** JsonNode.asText(): a string node gives its value unchanged, a scalar
      its textual form, a container node the empty string. */
  function AsText(node: Json): string {
    match node
    case JNull => "null"
    case JBool(b) => if b then "true" else "false"
    case JInt(i) => Text.IntToString(i)
    case JDecimal(t) => t
    case JString(s) => s
    case JArray(_) => ""
    case JObject(_) => ""
  }

  /** What Jackson's ObjectMapper.readValue does with a text: a value, a
      JsonParseException (the text is not JSON), or another
      JsonProcessingException (JSON of a shape the target type rejects). */
  datatype Jackson<V> = Parsed(value: V) | ParseFailure(message: string) | MappingFailure(message: string)
}
