/** The second copy of the client, routes/routes/drone_control.py: the same
    connection logic as drone_control.py, plus a status query to the device and a
    `/status` route that falls back to the controller's own record when the query fails. */
module RoutesDroneControl {
  import opened Protocol
  import opened DroneControl

  /** The status request: the command name `get_status` and no parameters. */
  const StatusRequest: Json := JObject(map["cmd" := JStr("get_status")])

  /** HTTP status codes of the `/status` route. */
  const HttpOk: nat := 200
  const HttpServerError: nat := 500

  class DroneController {
    var connected: bool
    var socket: SocketState
    var droneIp: Option<string>
    var status: Status

    /** Connected only over an open socket to a known address; the status record
        keeps its construction-time value. */
    ghost predicate Valid()
      reads this
    {
      && (connected ==> socket == Open && droneIp.Some?)
      && status == ZeroStatus
    }

    constructor ()
      ensures Valid()
      ensures !connected && socket == NoSocket && droneIp == None && status == ZeroStatus
    {
      connected := false;
      socket := NoSocket;
      droneIp := None;
      status := ZeroStatus;
    }

    /** `connect`: as in drone_control.py. */
    method Connect(ipAddress: string, exchange: Exchange<string>) returns (r: Option<bool>, sent: Outgoing)
      requires Valid()
      modifies this`connected, this`socket, this`droneIp
      ensures Valid()
      ensures socket == Open && droneIp == Some(ipAddress)
      ensures sent == Outgoing(ipAddress, DronePort, Hello)
      ensures exchange.Raised? ==> !connected && r == Some(false)
      ensures exchange.Received? && exchange.value != "" ==> connected && r == Some(true)
      ensures exchange.Received? && exchange.value == "" ==> connected == old(connected) && r == None
    {
      socket := Open;
      droneIp := Some(ipAddress);
      sent := Outgoing(ipAddress, DronePort, Hello);
      match exchange
      case Raised(_) =>
        connected := false;
        r := Some(false);
      case Received(response) =>
        if response != "" {
          connected := true;
          r := Some(true);
        } else {
          r := None;
        }
    }

    /** `disconnect`: as in drone_control.py. */
    method Disconnect()
      requires Valid()
      modifies this`connected, this`socket
      ensures Valid()
      ensures !connected && socket == CloseIfPresent(old(socket))
    {
      socket := CloseIfPresent(socket);
      connected := false;
    }

    /** `send_command`: as in drone_control.py. */
    method SendCommand(command: string, params: Option<map<string, Json>>, exchange: Exchange<string>)
      returns (result: Outcome<string>, attempted: Option<Outgoing>)
      requires Valid()
      ensures !connected ==> result == Error(NotConnected) && attempted == None
      ensures connected ==>
                attempted == Some(Outgoing(droneIp.value, DronePort, JsonDatagram(CommandMessage(command, params))))
      ensures connected && exchange.Received? ==> result == Success(exchange.value)
      ensures connected && exchange.Raised? ==> result == Error(exchange.reason)
    {
      if !connected {
        return Error(NotConnected), None;
      }
      attempted := Some(Outgoing(droneIp.value, DronePort, JsonDatagram(CommandMessage(command, params))));
      match exchange
      case Received(response) => result := Success(response);
      case Raised(reason) => result := Error(reason);
    }

    /** `get_drone_status`: refused without sending while not connected; otherwise the
        status request goes out and the decoded reply document, or the exception text
        of a failed exchange or decoding, comes back. Nothing in the controller changes. */
    method GetDroneStatus(exchange: Exchange<Json>) returns (result: Outcome<Json>, attempted: Option<Outgoing>)
      requires Valid()
      ensures !connected ==> result == Error(NotConnected) && attempted == None
      ensures connected ==> attempted == Some(Outgoing(droneIp.value, DronePort, JsonDatagram(StatusRequest)))
      ensures connected && exchange.Received? ==> result == Success(exchange.value)
      ensures connected && exchange.Raised? ==> result == Error(exchange.reason)
    {
      if !connected {
        return Error(NotConnected), None;
      }
      attempted := Some(Outgoing(droneIp.value, DronePort, JsonDatagram(StatusRequest)));
      match exchange
      case Received(reply) => result := Success(reply);
      case Raised(reason) => result := Error(reason);
    }
  }

  /** The `/status` route: the device-reported document on success; otherwise the
      controller's own (construction-time) record, the error text and code 500. */
  method StatusRoute(c: DroneController, exchange: Exchange<Json>) returns (body: Json, code: nat, attempted: Option<Outgoing>)
    requires c.Valid()
    ensures body.JObject? && "connected" in body.fields && body.fields["connected"] == JBool(c.connected)
    ensures c.connected && exchange.Received? ==>
              code == HttpOk && body.fields == map["connected" := JBool(true), "status" := exchange.value]
    ensures !(c.connected && exchange.Received?) ==>
              code == HttpServerError && "status" in body.fields && body.fields["status"] == StatusToJson(ZeroStatus)
    ensures !c.connected ==> "error" in body.fields && body.fields["error"] == JStr(NotConnected) && attempted == None
    ensures c.connected && exchange.Raised? ==> "error" in body.fields && body.fields["error"] == JStr(exchange.reason)
    ensures c.connected <==> attempted.Some?
  {
    var response;
    response, attempted := c.GetDroneStatus(exchange);
    if response.Success? {
      body := JObject(map["connected" := JBool(c.connected), "status" := response.value]);
      code := HttpOk;
    } else {
      body := JObject(map["connected" := JBool(c.connected), "status" := StatusToJson(c.status),
                          "error" := JStr(response.message)]);
      code := HttpServerError;
    }
  }

  /** The status request names `get_status` and carries no parameters, unlike the
      messages `send_command` builds. */
  lemma StatusRequestShape(params: Option<map<string, Json>>)
    ensures StatusRequest.JObject? && "params" !in StatusRequest.fields
    ensures StatusRequest != CommandMessage("get_status", params)
  {
    assert "params" in CommandMessage("get_status", params).fields;
  }
}
