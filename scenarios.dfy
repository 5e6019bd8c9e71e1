/** The client and the simulated drone together: what the client sends is what the
    simulator decodes, and the simulator's replies drive the client. */
module Scenarios {
  import opened Protocol
  import opened Simulator
  import DroneControl
  import RoutesDroneControl

  /** A command message built by the client is read back by the simulator under the
      same name, whatever the parameters. */
  lemma CommandNameRoundTrip(command: string, params: Option<map<string, Json>>)
    ensures CommandName(DroneControl.CommandMessage(command, params).fields) == Some(command)
  {
  }

  /** The simulator acts on a client command by its name alone and always answers it. */
  lemma ClientCommandHandled(s: Status, command: string, params: Option<map<string, Json>>)
    ensures Handle(s, JsonDatagram(DroneControl.CommandMessage(command, params))) ==
              (Apply(s, Some(command)), Some(JsonReply(CommandReply(s, Some(command)))))
  {
    CommandNameRoundTrip(command, params);
  }

  /** `move` and `rotate` are not simulator commands: they are acknowledged and change
      nothing, whatever their parameters. */
  lemma MovementAcknowledged(s: Status, command: string, params: Option<map<string, Json>>)
    requires command == "move" || command == "rotate"
    ensures Handle(s, JsonDatagram(DroneControl.CommandMessage(command, params))) ==
              (s, Some(JsonReply(JObject(map["success" := JBool(true)]))))
  {
    ClientCommandHandled(s, command, params);
  }

  /** The status request is answered with the status and changes nothing. */
  lemma StatusRequestAnswered(s: Status)
    ensures Handle(s, JsonDatagram(RoutesDroneControl.StatusRequest)) == (s, Some(JsonReply(
              JObject(map["success" := JBool(true), "status" := StatusToJson(s)]))))
  {
    assert CommandName(RoutesDroneControl.StatusRequest.fields) == Some("get_status");
  }

  /** The handshake: the simulator answers `HELLO` with the non-empty `OK`, so `connect`
      succeeds. */
  lemma HandshakeAckNonEmpty(s: Status)
    ensures Handle(s, Hello) == (s, Some(HandshakeAck))
    ensures AckToken != ""
  {
  }

  const ClientAddr: string := "127.0.0.1"

  /** A whole session through the routes copy of the client: connect, take off, query
      the status. The `/status` route nests the simulator's entire reply — success flag
      included — under "status". */
  method ConnectTakeoffAndQuery() returns (connectResult: Option<bool>, body: Json, code: nat)
    ensures connectResult == Some(true)
    ensures code == RoutesDroneControl.HttpOk
    ensures body == JObject(map[
              "connected" := JBool(true),
              "status" := JObject(map["success" := JBool(true),
                                      "status" := StatusToJson(Status(100, TakeoffAltitude, 0, 5, false, true))])])
  {
    var drone := new MockDrone(DefaultIp, DefaultPort);
    var served := drone.Start([]);
    var client := new RoutesDroneControl.DroneController();

    var ack := drone.HandleCommand(Hello, ClientAddr);
    assert ack == Some(Response(HandshakeAck, ClientAddr));
    var hello;
    connectResult, hello := client.Connect(ClientAddr, Received(AckToken));
    assert client.connected && client.Valid();

    var result, takeoff := client.SendCommand("takeoff", None, Received("{\"success\": true}"));
    var takeoffReply := drone.HandleCommand(takeoff.value.payload, ClientAddr);
    CommandNameRoundTrip("takeoff", None);
    CommandEffects(InitialStatus, DroneControl.CommandMessage("takeoff", None).fields);
    assert drone.status == Status(100, TakeoffAltitude, 0, 5, false, true);

    StatusRequestAnswered(drone.status);
    ghost var flying := drone.status;
    var statusReply := drone.HandleCommand(JsonDatagram(RoutesDroneControl.StatusRequest), ClientAddr);
    ghost var report := JObject(map["success" := JBool(true), "status" := StatusToJson(flying)]);
    assert statusReply == Some(Response(JsonReply(report), ClientAddr));
    var query;
    body, code, query := RoutesDroneControl.StatusRoute(client, Received(statusReply.value.reply.body));
    assert body.fields == map["connected" := JBool(true), "status" := report];
  }
}
