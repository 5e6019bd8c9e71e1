/** The simulated drone of mock_drone.py (class MockDrone): a UDP server that
    answers the handshake and a small JSON command set while keeping a status record. */
module Simulator {
  import opened Protocol

  const DefaultIp: string := "0.0.0.0"
  const DefaultPort: int := 8080

  /** The status a freshly constructed simulator starts from. */
  const InitialStatus: Status := Status(100, 0, 0, 5, false, false)

  /** The altitude `takeoff` sets. */
  const TakeoffAltitude: int := 10

  /** `cmd_data.get('cmd')` compared against string literals: the command name when
      the field holds a string, otherwise no name (which matches no command). */
  function CommandName(fields: map<string, Json>): (r: Option<string>)
    ensures r.Some? <==> "cmd" in fields && fields["cmd"].JStr?
    ensures r.Some? ==> fields["cmd"] == JStr(r.value)
  {
    if "cmd" in fields && fields["cmd"].JStr? then Some(fields["cmd"].s) else None
  }

  /** The reply to a command other than the handshake. */
  function CommandReply(status: Status, name: Option<string>): Json {
    if name == Some("get_status") then
      JObject(map["success" := JBool(true), "status" := StatusToJson(status)])
    else JObject(map["success" := JBool(true)])
  }

  /** The status after a recognised command; any other command leaves it unchanged. */
  function Apply(status: Status, name: Option<string>): Status {
    if name == Some("takeoff") then status.(flying := true, altitude := TakeoffAltitude)
    else if name == Some("land") then status.(flying := false, altitude := 0)
    else if name == Some("emergency_stop") then status.(flying := false, armed := false)
    else status
  }

  /** `handle_command`, without the socket: the new status and the reply to send, if any.
      Undecodable data and JSON that is not an object raise inside the handler, which
      swallows the exception: no reply and no change. */
  function Handle(status: Status, d: Datagram): (r: (Status, Option<Reply>))
    ensures r.0.battery == status.battery && r.0.speed == status.speed && r.0.gpsSignal == status.gpsSignal
    ensures r.1.None? <==> d.Malformed? || (d.JsonDatagram? && !d.body.JObject?)
    ensures r.1.None? ==> r.0 == status
    ensures d.Hello? ==> r == (status, Some(HandshakeAck))
  {
    match d
    case Hello => (status, Some(HandshakeAck))
    case Malformed => (status, None)
    case JsonDatagram(body) =>
      if body.JObject? then
        var name := CommandName(body.fields);
        (Apply(status, name), Some(JsonReply(CommandReply(status, name))))
      else (status, None)
  }

  /** What `start` reads from its socket: a datagram with its sender, or a failed read. */
  datatype Arrival = Arrived(payload: Datagram, sender: string) | RecvFailed

  /** A reply and the address it is sent to. */
  datatype Response = Response(reply: Reply, addr: string)

  /** The status and the responses after serving the arrivals in order. */
  function Serve(status: Status, arrivals: seq<Arrival>): (Status, seq<Response>) {
    if arrivals == [] then (status, [])
    else
      var before := Serve(status, arrivals[..|arrivals| - 1]);
      var a := arrivals[|arrivals| - 1];
      if a.RecvFailed? then before
      else
        var h := Handle(before.0, a.payload);
        (h.0, before.1 + if h.1.Some? then [Response(h.1.value, a.sender)] else [])
  }

  class MockDrone {
    var ip: string
    var port: int
    var status: Status
    var serverSocket: SocketState
    var running: bool

    constructor (ip: string, port: int)
      ensures this.ip == ip && this.port == port
      ensures status == InitialStatus && serverSocket == NoSocket && !running
    {
      this.ip := ip;
      this.port := port;
      status := InitialStatus;
      serverSocket := NoSocket;
      running := false;
    }

    /** `handle_command`: the status changes even when the reply cannot be sent,
        because `sendto` comes last; without an open socket nothing is sent. */
    method HandleCommand(d: Datagram, addr: string) returns (sent: Option<Response>)
      modifies this`status
      ensures status == Handle(old(status), d).0
      ensures sent == if serverSocket == Open && Handle(old(status), d).1.Some?
                      then Some(Response(Handle(old(status), d).1.value, addr)) else None
    {
      var (s, reply) := Handle(status, d);
      status := s;
      if serverSocket == Open && reply.Some? {
        sent := Some(Response(reply.value, addr));
      } else {
        sent := None;
      }
    }

    /** `start`: open and bind the socket, then serve every arrival; failed reads are
        skipped. Serving ends when the arrivals are exhausted (`stop` is not interleaved). */
    method Start(arrivals: seq<Arrival>) returns (sent: seq<Response>)
      modifies this`running, this`serverSocket, this`status
      ensures running && serverSocket == Open
      ensures (status, sent) == Serve(old(status), arrivals)
    {
      running := true;
      serverSocket := Open;
      sent := [];
      var n := 0;
      while n < |arrivals|
        invariant 0 <= n <= |arrivals| && running && serverSocket == Open
        invariant (status, sent) == Serve(old(status), arrivals[..n])
      {
        assert arrivals[..n + 1][..n] == arrivals[..n];
        var a := arrivals[n];
        if a.Arrived? {
          ghost var h := Handle(status, a.payload);
          var r := HandleCommand(a.payload, a.sender);
          if r.Some? {
            sent := sent + [r.value];
          }
          assert sent == Serve(old(status), arrivals[..n]).1 +
                         if h.1.Some? then [Response(h.1.value, a.sender)] else [];
        }
        n := n + 1;
      }
      assert arrivals[..n] == arrivals;
    }

    /** `stop`: clear the flag and close the socket if there is one. */
    method Stop()
      modifies this`running, this`serverSocket
      ensures !running && serverSocket == CloseIfPresent(old(serverSocket))
    {
      running := false;
      serverSocket := CloseIfPresent(serverSocket);
    }
  }

  // ---- properties -----------------------------------------------------------

  /** The statuses reachable from the initial one: never armed, the unchanging
      battery, speed and GPS readings, on the ground or at takeoff altitude, and
      flying only at takeoff altitude. */
  ghost predicate Reachable(s: Status) {
    && s.battery == 100 && s.speed == 0 && s.gpsSignal == 5
    && !s.armed
    && (s.altitude == 0 || s.altitude == TakeoffAltitude)
    && (s.flying ==> s.altitude == TakeoffAltitude)
  }

  lemma InitialReachable()
    ensures Reachable(InitialStatus)
  {
  }

  /** Every datagram keeps the status reachable. */
  lemma HandleKeepsReachable(s: Status, d: Datagram)
    requires Reachable(s)
    ensures Reachable(Handle(s, d).0)
  {
  }

  /** Serving any arrivals from the initial status keeps it reachable. */
  lemma {:induction false} ServeKeepsReachable(s: Status, arrivals: seq<Arrival>)
    requires Reachable(s)
    ensures Reachable(Serve(s, arrivals).0)
  {
    if arrivals != [] {
      ServeKeepsReachable(s, arrivals[..|arrivals| - 1]);
      var a := arrivals[|arrivals| - 1];
      if a.Arrived? {
        HandleKeepsReachable(Serve(s, arrivals[..|arrivals| - 1]).0, a.payload);
      }
    }
  }

  /** At most one response per arrival, each addressed to a sender that sent something. */
  lemma {:induction false} ServeResponses(s: Status, arrivals: seq<Arrival>)
    ensures |Serve(s, arrivals).1| <= |arrivals|
    ensures forall r :: r in Serve(s, arrivals).1 ==> exists a :: a in arrivals && a.Arrived? && a.sender == r.addr
  {
    if arrivals != [] {
      var init := arrivals[..|arrivals| - 1];
      ServeResponses(s, init);
      assert forall a :: a in init ==> a in arrivals;
    }
  }

  /** A failed read changes nothing. */
  lemma ServeSkipsFailures(s: Status, arrivals: seq<Arrival>)
    ensures Serve(s, arrivals + [RecvFailed]) == Serve(s, arrivals)
  {
    assert (arrivals + [RecvFailed])[..|arrivals|] == arrivals;
  }

  function Command(name: string): Datagram {
    JsonDatagram(JObject(map["cmd" := JStr(name)]))
  }

  /** The three state-changing commands and their effects, whatever else the
      command object holds. */
  lemma CommandEffects(s: Status, fields: map<string, Json>)
    ensures CommandName(fields) == Some("takeoff") ==>
              Handle(s, JsonDatagram(JObject(fields))).0 == s.(flying := true, altitude := TakeoffAltitude)
    ensures CommandName(fields) == Some("land") ==>
              Handle(s, JsonDatagram(JObject(fields))).0 == s.(flying := false, altitude := 0)
    ensures CommandName(fields) == Some("emergency_stop") ==>
              Handle(s, JsonDatagram(JObject(fields))).0 == s.(flying := false, armed := false)
  {
  }

  /** Any other object — an unknown command, a missing or non-string `cmd` — leaves
      the status unchanged and is acknowledged with `{"success": true}`. */
  lemma OtherCommandsAcknowledged(s: Status, fields: map<string, Json>)
    requires CommandName(fields) !in {Some("takeoff"), Some("land"), Some("emergency_stop"), Some("get_status")}
    ensures Handle(s, JsonDatagram(JObject(fields))) == (s, Some(JsonReply(JObject(map["success" := JBool(true)]))))
  {
  }

  /** `get_status` reports the status as it is, and changes nothing. */
  lemma GetStatusReports(s: Status, fields: map<string, Json>)
    requires CommandName(fields) == Some("get_status")
    ensures Handle(s, JsonDatagram(JObject(fields))) ==
              (s, Some(JsonReply(JObject(map["success" := JBool(true), "status" := StatusToJson(s)]))))
  {
  }

  /** The state-changing commands are answered with the bare success flag. */
  lemma StateCommandsAcknowledged(s: Status, fields: map<string, Json>)
    requires CommandName(fields) in {Some("takeoff"), Some("land"), Some("emergency_stop")}
    ensures Handle(s, JsonDatagram(JObject(fields))).1 == Some(JsonReply(JObject(map["success" := JBool(true)])))
  {
    assert CommandName(fields) != Some("get_status");
  }

  /** After a takeoff the simulator reports flying at takeoff altitude. */
  lemma TakeoffThenStatus(addr: string)
    ensures Serve(InitialStatus, [Arrived(Command("takeoff"), addr), Arrived(Command("get_status"), addr)]).1 ==
              [Response(JsonReply(JObject(map["success" := JBool(true)])), addr),
               Response(JsonReply(JObject(map["success" := JBool(true),
                 "status" := StatusToJson(Status(100, TakeoffAltitude, 0, 5, false, true))])), addr)]
  {
    var arrivals := [Arrived(Command("takeoff"), addr), Arrived(Command("get_status"), addr)];
    var flying := Status(100, TakeoffAltitude, 0, 5, false, true);
    assert arrivals[..1][..0] == [];
    assert arrivals[..1] == [Arrived(Command("takeoff"), addr)];
    assert CommandName(map["cmd" := JStr("takeoff")]) == Some("takeoff");
    CommandEffects(InitialStatus, map["cmd" := JStr("takeoff")]);
    StateCommandsAcknowledged(InitialStatus, map["cmd" := JStr("takeoff")]);
    assert Serve(InitialStatus, arrivals[..1]).0 == flying;
    assert Serve(InitialStatus, arrivals[..1]).1 == [Response(JsonReply(JObject(map["success" := JBool(true)])), addr)];
    GetStatusReports(flying, map["cmd" := JStr("get_status")]);
  }
}
