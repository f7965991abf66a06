/** Values that travel between publisher and subscriber.
    A datagram's text is represented by the value `json.loads` returns for it:
    `json.dumps` and `json.loads` are taken to be inverse to each other, so the
    model never handles the UTF-8 text itself. */
module Wire {

  datatype Option<+T> = None | Some(value: T)

  datatype Result<+T, +E> = Ok(value: T) | Err(error: E)

  /** A JSON value as Python's json module decodes it
      (numbers with a fraction or an exponent are not modelled). */
  datatype Json =
    | JNull
    | JBool(b: bool)
    | JInt(i: int)
    | JStr(s: string)
    | JArray(items: seq<Json>)
    | JObject(fields: map<string, Json>)

  /** A UDP socket address `(ip, port)`; two endpoints are equal when both fields are. */
  datatype Endpoint = Endpoint(ip: string, port: int)

  /** The text of one datagram. */
  datatype Payload =
    | AckText              // the literal `ACK`
    | JsonText(value: Json) // what `json.dumps(value)` produced
    | Unparsable           // any text `json.loads` rejects

  datatype Datagram = Datagram(dest: Endpoint, payload: Payload)

  /** The integer a JSON value stands for when it is used as a dictionary key
      next to integer keys: in Python `True == 1` and `False == 0` hash and
      compare like the integers, every other JSON value never equals an int. */
  function IntKey(j: Json): (k: Option<int>)
    ensures k.Some? <==> j.JInt? || j.JBool?
    ensures j.JInt? ==> k == Some(j.i)
  {
    match j
    case JInt(i) => Some(i)
    case JBool(b) => Some(if b then 1 else 0)
    case _ => None
  }
}
