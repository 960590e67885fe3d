/** JSON text on the wire: `serde_json::to_vec` and `serde_json::from_slice`, the same
    library on the agent and on the server. */
module JsonText {
  import opened Wrappers
  import opened Types
  import opened Framing

  /** Printing a JSON value as bytes, and parsing bytes back into a value. */
  datatype JsonCodec = JsonCodec(encode: Json -> seq<byte>, decode: seq<byte> -> Option<Json>)

  /** Printing a value and parsing the text back gives the value again. */
  ghost predicate Faithful(c: JsonCodec) {
    forall j :: c.decode(c.encode(j)) == Some(j)
  }
}
