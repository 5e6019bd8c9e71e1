/** Values shared by the client, the simulator and the wire between them:
    the decoded JSON documents, the six-field status record, the datagrams
    that travel to the device and the abstract result of one exchange. */
module Protocol {

  datatype Option<+T> = None | Some(value: T) {
    function GetOr(default: T): T {
      match this
      case Some(v) => v
      case None => default
    }
  }

  /** A decoded JSON document (numbers other than integers are not modelled). */
  datatype Json =
    | JNull
    | JBool(b: bool)
    | JInt(i: int)
    | JStr(s: string)
    | JArray(items: seq<Json>)
    | JObject(fields: map<string, Json>)

  /** The status record kept by the simulator and by the client. */
  datatype Status = Status(
    battery: int,
    altitude: int,
    speed: int,
    gpsSignal: int,
    armed: bool,
    flying: bool)

  /** The status as the JSON object written on the wire. */
  function StatusToJson(s: Status): (j: Json)
    ensures j.JObject? && j.fields.Keys == {"battery", "altitude", "speed", "gps_signal", "armed", "flying"}
  {
    JObject(map[
      "battery" := JInt(s.battery),
      "altitude" := JInt(s.altitude),
      "speed" := JInt(s.speed),
      "gps_signal" := JInt(s.gpsSignal),
      "armed" := JBool(s.armed),
      "flying" := JBool(s.flying)])
  }

  /** The token the simulator answers the handshake with. */
  const AckToken: string := "OK"

  /** A datagram as the simulator sees it after decoding: the handshake literal
      `HELLO`, text that decoded as JSON, or bytes that were not UTF-8 or not JSON. */
  datatype Datagram = Hello | JsonDatagram(body: Json) | Malformed

  /** What the simulator sends back. */
  datatype Reply = HandshakeAck | JsonReply(body: Json)

  /** A datagram the client hands to its socket, with its destination. */
  datatype Outgoing = Outgoing(host: string, port: int, payload: Datagram)

  /** The abstract outcome of one send/receive on a socket: the reply that came back
      (already decoded to T), or the exception raised on the way (timeout, network
      error, decoding failure). */
  datatype Exchange<T> = Received(value: T) | Raised(reason: string)

  /** A structured result: the success payload, or the error text. */
  datatype Outcome<T> = Success(value: T) | Error(message: string)

  /** The client's socket field: never created, open, or closed by a disconnect. */
  datatype SocketState = NoSocket | Open | Closed

  /** The socket field after a close that only happens when a socket exists:
      an absent socket stays absent, any other becomes closed. */
  function CloseIfPresent(s: SocketState): (r: SocketState)
    ensures r != Open
    ensures (r == NoSocket) == (s == NoSocket)
  {
    if s == NoSocket then NoSocket else Closed
  }

  /** Closing is idempotent. */
  lemma CloseIfPresentIdempotent(s: SocketState)
    ensures CloseIfPresent(CloseIfPresent(s)) == CloseIfPresent(s)
  {
  }
}
