/** The wire envelopes and the helpers that send them: notification
    encoding and decoding, register/unregister requests, and the ACK. */
module Util {
  import opened Wire

  /** A tracked publisher whose miss count reaches this value is reported lost. */
  const THRESHOLD: int := 3

  datatype DecodeError = NotJson | NotAnObject | MissingKey(key: string)

  /** `DeserializeJson`: the value a datagram's text decodes to. */
  function DeserializeJson(p: Payload): (r: Result<Json, DecodeError>)
    ensures r.Ok? <==> p.JsonText?
    ensures p.JsonText? ==> r.value == p.value
  {
    if p.JsonText? then Ok(p.value) else Err(NotJson)
  }

  /** `Serialize`: the notification envelope `{"type": t, "params": params}`. */
  function Serialize(shapeType: int, params: seq<Json>): (j: Json)
    ensures j.JObject? && j.fields.Keys == {"type", "params"}
  {
    JObject(map["type" := JInt(shapeType), "params" := JArray(params)])
  }

  /** `deserialize_shape`: reads `type`, then `params`, from a decoded notification. */
  function DeserializeShape(j: Json): (r: Result<(Json, Json), DecodeError>)
    ensures r.Ok? <==> j.JObject? && "type" in j.fields && "params" in j.fields
    ensures r.Ok? ==> r.value == (j.fields["type"], j.fields["params"])
    ensures j.JObject? && "type" !in j.fields ==> r == Err(MissingKey("type"))
    ensures j.JObject? && "type" in j.fields && "params" !in j.fields ==> r == Err(MissingKey("params"))
  {
    if !j.JObject? then Err(NotAnObject)
    else if "type" !in j.fields then Err(MissingKey("type"))
    else if "params" !in j.fields then Err(MissingKey("params"))
    else Ok((j.fields["type"], j.fields["params"]))
  }

  /** Decoding what `Serialize` built gives back the type and the parameters. */
  lemma SerializeRoundTrip(shapeType: int, params: seq<Json>)
    ensures DeserializeJson(JsonText(Serialize(shapeType, params))).Ok?
    ensures DeserializeShape(Serialize(shapeType, params)) == Ok((JInt(shapeType), JArray(params)))
  {
  }

  /** One register or unregister request: `{request, shape, udp_port, udp_ip}`. */
  function RequestMessage(tag: string, shape: int, udpPort: int, udpIp: string): Json {
    JObject(map["request" := JStr(tag), "shape" := JInt(shape),
                "udp_port" := JInt(udpPort), "udp_ip" := JStr(udpIp)])
  }

  /** One request per listed shape, in list order. */
  function RequestMessages(tag: string, shapes: seq<int>, udpPort: int, udpIp: string): seq<Json> {
    seq(|shapes|, i requires 0 <= i < |shapes| => RequestMessage(tag, shapes[i], udpPort, udpIp))
  }

  /** For the same shapes and callback endpoint, the register and the
      unregister sequences have the same length and their messages differ
      in the `request` field only. */
  lemma RegisterUnregisterDifferInTagOnly(shapes: seq<int>, udpPort: int, udpIp: string)
    ensures |RequestMessages("register", shapes, udpPort, udpIp)| == |shapes|
    ensures |RequestMessages("unregister", shapes, udpPort, udpIp)| == |shapes|
    ensures forall i :: 0 <= i < |shapes| ==>
      var r := RequestMessages("register", shapes, udpPort, udpIp)[i].fields;
      var u := RequestMessages("unregister", shapes, udpPort, udpIp)[i].fields;
      && r.Keys == u.Keys == {"request", "shape", "udp_port", "udp_ip"}
      && r["request"] == JStr("register") && u["request"] == JStr("unregister")
      && r["shape"] == u["shape"] == JInt(shapes[i])
      && r["udp_port"] == u["udp_port"] == JInt(udpPort)
      && r["udp_ip"] == u["udp_ip"] == JStr(udpIp)
  {
  }

  /** The subscriber's multicast socket: not created yet (`None`), open, or
      closed after a failed send. */
  datatype SockState = NoSocket | Open | Closed

  /** What a send loop did: the messages that left, the socket afterwards,
      and whether an exception escaped to the caller. */
  datatype SendOutcome = SendOutcome(sent: seq<Json>, sock: SockState, raised: bool)

  /** The send loop of `SendRegisterRequest`/`SendUnRegisterRequest`. Each
      `sendto` on an open socket succeeds unless `sendFails` says otherwise;
      on a closed socket it always fails. A failure closes the socket and
      ends the loop. With no socket, `None.sendto` raises an exception that
      the loop does not catch. */
  function Transmit(sock: SockState, msgs: seq<Json>, sendFails: Json -> bool): SendOutcome
    decreases |msgs|
  {
    if msgs == [] then SendOutcome([], sock, false)
    else match sock
      case NoSocket => SendOutcome([], NoSocket, true)
      case Closed => SendOutcome([], Closed, false)
      case Open =>
        if sendFails(msgs[0]) then SendOutcome([], Closed, false)
        else
          var rest := Transmit(Open, msgs[1..], sendFails);
          rest.(sent := [msgs[0]] + rest.sent)
  }

  /** On an open socket the messages leave in order up to the first failed
      send; nothing after it is sent, and the socket is closed exactly when
      a send failed. */
  lemma {:induction false} TransmitStopsAtFirstFailure(msgs: seq<Json>, sendFails: Json -> bool)
    ensures var o := Transmit(Open, msgs, sendFails);
      && !o.raised
      && |o.sent| <= |msgs|
      && o.sent == msgs[..|o.sent|]
      && (forall m :: m in o.sent ==> !sendFails(m))
      && (|o.sent| < |msgs| ==> sendFails(msgs[|o.sent|]) && o.sock == Closed)
      && (|o.sent| == |msgs| ==> o.sock == Open)
    decreases |msgs|
  {
    if msgs != [] && !sendFails(msgs[0]) {
      TransmitStopsAtFirstFailure(msgs[1..], sendFails);
      var rest := Transmit(Open, msgs[1..], sendFails);
      assert msgs[..|rest.sent| + 1] == [msgs[0]] + msgs[1..][..|rest.sent|];
    }
  }

  /** A socket that is missing or closed sends nothing; only a missing one
      raises, and only when there is something to send. */
  lemma TransmitNeedsOpenSocket(sock: SockState, msgs: seq<Json>, sendFails: Json -> bool)
    requires sock != Open
    ensures Transmit(sock, msgs, sendFails) == SendOutcome([], sock, sock == NoSocket && msgs != [])
  {
  }

  /** The outcome of sending `first` and then what `o` describes. */
  function After(first: seq<Json>, o: SendOutcome): SendOutcome {
    o.(sent := first + o.sent)
  }

  /** The send loop after a successful send of `msgs[i]`. */
  lemma TransmitStep(msgs: seq<Json>, i: nat, sent: seq<Json>, sendFails: Json -> bool)
    requires i < |msgs| && !sendFails(msgs[i])
    requires Transmit(Open, msgs, sendFails) == After(sent, Transmit(Open, msgs[i..], sendFails))
    ensures Transmit(Open, msgs, sendFails) == After(sent + [msgs[i]], Transmit(Open, msgs[i + 1..], sendFails))
  {
    assert msgs[i..][0] == msgs[i] && msgs[i..][1..] == msgs[i + 1..];
    var rest := Transmit(Open, msgs[i + 1..], sendFails);
    assert Transmit(Open, msgs[i..], sendFails) == rest.(sent := [msgs[i]] + rest.sent);
    assert sent + ([msgs[i]] + rest.sent) == (sent + [msgs[i]]) + rest.sent;
  }

  /** The send loop when the send of `msgs[i]` fails on an open socket. */
  lemma TransmitFailsAt(msgs: seq<Json>, i: nat, sent: seq<Json>, sendFails: Json -> bool)
    requires i < |msgs| && sendFails(msgs[i])
    requires Transmit(Open, msgs, sendFails) == After(sent, Transmit(Open, msgs[i..], sendFails))
    ensures Transmit(Open, msgs, sendFails) == SendOutcome(sent, Closed, false)
  {
    assert msgs[i..][0] == msgs[i];
    assert sent + [] == sent;
  }

  /** The shared body of `SendRegisterRequest` and `SendUnRegisterRequest`. */
  method SendRequests(tag: string, sock: SockState, shapes: seq<int>, udpPort: int, udpIp: string,
                      sendFails: Json -> bool)
    returns (sent: seq<Json>, sockAfter: SockState, raised: bool)
    ensures SendOutcome(sent, sockAfter, raised) ==
            Transmit(sock, RequestMessages(tag, shapes, udpPort, udpIp), sendFails)
  {
    ghost var msgs := RequestMessages(tag, shapes, udpPort, udpIp);
    sent, sockAfter, raised := [], sock, false;
    assert msgs[0..] == msgs;
    var i := 0;
    while i < |shapes|
      invariant i <= |shapes| == |msgs|
      invariant sock != Open ==> i == 0 && sent == []
      invariant sockAfter == sock && !raised
      invariant sock == Open ==> Transmit(sock, msgs, sendFails) == After(sent, Transmit(sock, msgs[i..], sendFails))
    {
      var message := RequestMessage(tag, shapes[i], udpPort, udpIp);
      assert message == msgs[i];
      if sock == NoSocket {
        raised := true;
        return;
      }
      if sock == Closed {
        return;
      }
      if sendFails(message) {
        TransmitFailsAt(msgs, i, sent, sendFails);
        sockAfter := Closed;
        return;
      }
      TransmitStep(msgs, i, sent, sendFails);
      sent := sent + [message];
      i := i + 1;
    }
    if sock == Open {
      assert msgs[i..] == [];
      assert sent + [] == sent;
    }
  }

  /** `SendRegisterRequest`. */
  method SendRegisterRequest(sock: SockState, shapes: seq<int>, udpPort: int, udpIp: string,
                             sendFails: Json -> bool)
    returns (sent: seq<Json>, sockAfter: SockState, raised: bool)
    ensures SendOutcome(sent, sockAfter, raised) ==
            Transmit(sock, RequestMessages("register", shapes, udpPort, udpIp), sendFails)
  {
    sent, sockAfter, raised := SendRequests("register", sock, shapes, udpPort, udpIp, sendFails);
  }

  /** `SendUnRegisterRequest`. */
  method SendUnRegisterRequest(sock: SockState, shapes: seq<int>, udpPort: int, udpIp: string,
                               sendFails: Json -> bool)
    returns (sent: seq<Json>, sockAfter: SockState, raised: bool)
    ensures SendOutcome(sent, sockAfter, raised) ==
            Transmit(sock, RequestMessages("unregister", shapes, udpPort, udpIp), sendFails)
  {
    sent, sockAfter, raised := SendRequests("unregister", sock, shapes, udpPort, udpIp, sendFails);
  }

  /** The ports `sendto` accepts; any other integer makes it raise `OverflowError`. */
  predicate PortInRange(port: int) {
    0 <= port <= 0xFFFF
  }

  /** `SendAckToSub`: the literal `ACK`, addressed to the given endpoint. The
      send raises, and nothing goes out, when the port is out of range. */
  function SendAckToSub(ip: string, port: int): (d: Option<Datagram>)
    ensures d.Some? <==> PortInRange(port)
    ensures d.Some? ==> d.value.payload == AckText && d.value.dest.ip == ip && d.value.dest.port == port
  {
    if PortInRange(port) then Some(Datagram(Endpoint(ip, port), AckText)) else None
  }
}
