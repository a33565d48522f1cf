/**
 * A JSON document as the program manipulates it after a parser has read it.
 *
 * Objects keep every member in document order, repeated names included:
 * deciding what a repeated name means is the job of the typed decoders
 * (module Shapes), not of the parser.
 */
module Json {

  datatype Json =
    | JNull
    | JBool(b: bool)
    | JNumber(literal: string)
    | JString(s: string)
    | JArray(items: seq<Json>)
    | JObject(fields: seq<(string, Json)>)
}
