/** The client of drone_control.py (class DroneController): a UDP connection
    flag guarded by a handshake, and JSON commands sent only while connected.
    Each socket exchange is an input: the reply that came back or the exception. */
module DroneControl {
  import opened Protocol

  /** The port the client sends to. */
  const DronePort: int := 8080

  /** The status record the client is built with; nothing writes it afterwards. */
  const ZeroStatus: Status := Status(0, 0, 0, 0, false, false)

  const NotConnected: string := "Drone não conectado"

  /** The command document: the command name under "cmd" and the parameters under
      "params", an empty object standing in for absent parameters. */
  function CommandMessage(command: string, params: Option<map<string, Json>>): (j: Json)
    ensures j.JObject? && j.fields.Keys == {"cmd", "params"}
    ensures j.fields["cmd"] == JStr(command)
    ensures params.None? ==> j.fields["params"] == JObject(map[])
    ensures params.Some? ==> j.fields["params"] == JObject(params.value)
  {
    JObject(map["cmd" := JStr(command), "params" := JObject(params.GetOr(map[]))])
  }

  class DroneController {
    var connected: bool
    var socket: SocketState
    var droneIp: Option<string>
    var status: Status

    /** Connected only over an open socket to a known address; the status record
        keeps its construction-time value. */
    ghost predicate Valid()
      reads this
    {
      && (connected ==> socket == Open && droneIp.Some?)
      && status == ZeroStatus
    }

    constructor ()
      ensures Valid()
      ensures !connected && socket == NoSocket && droneIp == None && status == ZeroStatus
    {
      connected := false;
      socket := NoSocket;
      droneIp := None;
      status := ZeroStatus;
    }

    /** `connect`: a new socket is created and the address recorded, the handshake is
        sent, then a non-empty reply connects (`True`), a raised exception disconnects
        (`False`), and an empty reply falls off the end of the `try` (`None`, flag kept). */
    method Connect(ipAddress: string, exchange: Exchange<string>) returns (r: Option<bool>, sent: Outgoing)
      requires Valid()
      modifies this`connected, this`socket, this`droneIp
      ensures Valid()
      ensures socket == Open && droneIp == Some(ipAddress)
      ensures sent == Outgoing(ipAddress, DronePort, Hello)
      ensures exchange.Raised? ==> !connected && r == Some(false)
      ensures exchange.Received? && exchange.value != "" ==> connected && r == Some(true)
      ensures exchange.Received? && exchange.value == "" ==> connected == old(connected) && r == None
    {
      socket := Open;
      droneIp := Some(ipAddress);
      sent := Outgoing(ipAddress, DronePort, Hello);
      match exchange
      case Raised(_) =>
        connected := false;
        r := Some(false);
      case Received(response) =>
        if response != "" {
          connected := true;
          r := Some(true);
        } else {
          r := None;
        }
    }

    /** `disconnect`: close the socket if there is one and clear the flag. */
    method Disconnect()
      requires Valid()
      modifies this`connected, this`socket
      ensures Valid()
      ensures !connected && socket == CloseIfPresent(old(socket))
    {
      socket := CloseIfPresent(socket);
      connected := false;
    }

    /** `send_command`: refused without sending while not connected; otherwise the
        command message goes to the recorded address and the reply text or the
        exception text comes back. Nothing in the controller changes. */
    method SendCommand(command: string, params: Option<map<string, Json>>, exchange: Exchange<string>)
      returns (result: Outcome<string>, attempted: Option<Outgoing>)
      requires Valid()
      ensures !connected ==> result == Error(NotConnected) && attempted == None
      ensures connected ==>
                attempted == Some(Outgoing(droneIp.value, DronePort, JsonDatagram(CommandMessage(command, params))))
      ensures connected && exchange.Received? ==> result == Success(exchange.value)
      ensures connected && exchange.Raised? ==> result == Error(exchange.reason)
    {
      if !connected {
        return Error(NotConnected), None;
      }
      attempted := Some(Outgoing(droneIp.value, DronePort, JsonDatagram(CommandMessage(command, params))));
      match exchange
      case Received(response) => result := Success(response);
      case Raised(reason) => result := Error(reason);
    }
  }

  /** The `/status` route: the connection flag and the controller's own status record,
      which is always the construction-time record. */
  function StatusRoute(c: DroneController): (j: Json)
    requires c.Valid()
    reads c
    ensures j.JObject? && j.fields.Keys == {"connected", "status"}
    ensures j.fields["connected"] == JBool(c.connected)
    ensures j.fields["status"] == StatusToJson(ZeroStatus)
  {
    JObject(map["connected" := JBool(c.connected), "status" := StatusToJson(c.status)])
  }
}
