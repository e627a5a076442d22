/** The websocket connection registry: open sockets and per-session records,
    both keyed by session id, kept in step by connect and disconnect; sending
    to a session goes through its socket and refreshes its last activity.
    Clock readings are parameters; sockets are opaque. */
module Connections {
  import opened Common

  /** An accepted websocket. */
  type Socket(==)

  /** A clock reading. */
  type Time = int

  /** What a session records about its user. */
  datatype Session = Session(
    connectedAt: Time,
    interactionCount: nat,
    lastActivity: Time,
    preferences: map<string, string>,
    location: Option<string>)

  datatype Registry = Registry(connections: map<string, Socket>, sessions: map<string, Session>)

  /** Every open socket has a session record and every record an open socket. */
  ghost predicate InStep(m: Registry) {
    forall id :: id in m.connections <==> id in m.sessions
  }

  /** The registry after the server starts. */
  function Empty(): (m: Registry)
    ensures InStep(m)
    ensures forall id :: id !in m.connections && id !in m.sessions
  {
    Registry(map[], map[])
  }

  /** The record of a session opened at `now`. */
  function FreshSession(now: Time): Session {
    Session(now, 0, now, map[], None)
  }

  /** `connect`: the socket and a fresh record are filed under the id,
      replacing any earlier ones; every other session is untouched. */
  function Connect(m: Registry, socket: Socket, id: string, now: Time): (r: Registry)
    ensures id in r.connections && r.connections[id] == socket
    ensures id in r.sessions && r.sessions[id].interactionCount == 0
    ensures r.sessions[id].preferences == map[] && r.sessions[id].location == None
    ensures r.sessions[id].connectedAt == now && r.sessions[id].lastActivity == now
    ensures forall k :: k != id ==> (k in r.connections <==> k in m.connections)
    ensures forall k :: k != id ==> (k in r.sessions <==> k in m.sessions)
    ensures forall k :: k != id && k in m.connections ==> r.connections[k] == m.connections[k]
    ensures forall k :: k != id && k in m.sessions ==> r.sessions[k] == m.sessions[k]
    ensures InStep(m) ==> InStep(r)
  {
    Registry(m.connections[id := socket], m.sessions[id := FreshSession(now)])
  }

  /** `disconnect`: the id leaves both maps; every other session is
      untouched, and an unknown id changes nothing. */
  function Disconnect(m: Registry, id: string): (r: Registry)
    ensures id !in r.connections && id !in r.sessions
    ensures forall k :: k != id ==> (k in r.connections <==> k in m.connections)
    ensures forall k :: k != id ==> (k in r.sessions <==> k in m.sessions)
    ensures forall k :: k != id && k in m.connections ==> r.connections[k] == m.connections[k]
    ensures forall k :: k != id && k in m.sessions ==> r.sessions[k] == m.sessions[k]
    ensures id !in m.connections && id !in m.sessions ==> r == m
    ensures InStep(m) ==> InStep(r)
  {
    Registry(m.connections - {id}, m.sessions - {id})
  }

  /** Connecting and then disconnecting an id leaves what disconnecting alone
      leaves: no trace of the connection remains. */
  lemma ConnectThenDisconnect(m: Registry, socket: Socket, id: string, now: Time)
    ensures Disconnect(Connect(m, socket, id, now), id) == Disconnect(m, id)
  {
    assert m.connections[id := socket] - {id} == m.connections - {id};
    assert m.sessions[id := FreshSession(now)] - {id} == m.sessions - {id};
  }

  /** Disconnecting twice is disconnecting once. */
  lemma DisconnectIdempotent(m: Registry, id: string)
    ensures Disconnect(Disconnect(m, id), id) == Disconnect(m, id)
  {
  }

  /** A message: JSON fields by name. Field values are text, null, a clock
      reading, or a value passed through from the caller. */
  datatype Value = Text(text: string) | Null | Stamp(time: Time) | Passed(value: Payload)

  type Payload(==)

  type Message = map<string, Value>

  /** One message written to one socket. */
  datatype Delivery = Delivery(socket: Socket, message: Message)

  /** The registry after a send and what was written. */
  datatype Sent = Sent(registry: Registry, delivery: Option<Delivery>)

  /** `send_message`: with no socket for the id nothing is sent and nothing
      changes. Otherwise the message is handed to the socket (`delivery`);
      if the write raises (`writes` false) the error is swallowed and nothing
      changes, and if it succeeds the session's last activity becomes `now`
      and nothing else changes. A socket without a session record raises
      after the write, which is swallowed too. */
  function SendMessage(m: Registry, message: Message, id: string, writes: bool, now: Time): (r: Sent)
    ensures id !in m.connections ==> r == Sent(m, None)
    ensures id in m.connections ==> r.delivery == Some(Delivery(m.connections[id], message))
    ensures r.registry.connections == m.connections
    ensures r.registry.sessions.Keys == m.sessions.Keys
    ensures forall k :: k != id && k in m.sessions ==> r.registry.sessions[k] == m.sessions[k]
    ensures id in m.connections && id in m.sessions && writes ==>
              r.registry.sessions[id] == m.sessions[id].(lastActivity := now)
    ensures !writes ==> r.registry == m
    ensures InStep(m) ==> InStep(r.registry)
  {
    if id !in m.connections then Sent(m, None)
    else
      var delivery := Some(Delivery(m.connections[id], message));
      if writes && id in m.sessions then
        Sent(m.(sessions := m.sessions[id := m.sessions[id].(lastActivity := now)]), delivery)
      else Sent(m, delivery)
  }

  /** `data.get(key, default)`. */
  function Get(data: map<string, Value>, key: string, default: Value): Value {
    if key in data then data[key] else default
  }

  /** The message kinds of the typed senders. */
  datatype Kind = MarketAnalysis | TransportCalculation | PricePrediction | SpoilageAdvice

  function KindTag(k: Kind): string {
    match k
    case MarketAnalysis => "market_analysis"
    case TransportCalculation => "transport_calculation"
    case PricePrediction => "price_prediction"
    case SpoilageAdvice => "spoilage_advice"
  }

  /** The tags are pairwise different, so a receiver can tell the kinds apart. */
  lemma KindTagsDistinct(a: Kind, b: Kind)
    ensures KindTag(a) == KindTag(b) <==> a == b
  {
  }

  /** The message a typed sender builds: its tag, the response (empty text by
      default), its own fields passed through (null when absent; urgency
      "medium" by default), the session id and the time stamp. */
  function TypedMessage(kind: Kind, data: map<string, Value>, id: string, now: Time): (msg: Message)
    ensures "type" in msg && msg["type"] == Text(KindTag(kind))
    ensures "session_id" in msg && msg["session_id"] == Text(id)
    ensures "response" in msg && msg["response"] == Get(data, "response", Text(""))
    ensures "timestamp" in msg && msg["timestamp"] == Stamp(now)
  {
    var common := map["type" := Text(KindTag(kind)), "response" := Get(data, "response", Text("")),
                      "session_id" := Text(id), "timestamp" := Stamp(now)];
    match kind
    case MarketAnalysis =>
      common["profitable_markets" := Get(data, "profitable_markets", Null)]
    case TransportCalculation =>
      common["transport_analysis" := Get(data, "transport_analysis", Null)]
            ["vehicle_type" := Get(data, "vehicle_type", Null)]
    case PricePrediction =>
      common["predictions" := Get(data, "predictions", Null)]
    case SpoilageAdvice =>
      common["spoilage_advice" := Get(data, "spoilage_advice", Null)]
            ["urgency" := Get(data, "urgency", Text("medium"))]
  }

  /** Fields the caller leaves out are filled in: an empty response, and for
      spoilage advice an urgency of "medium". */
  lemma DefaultsFilled(kind: Kind, data: map<string, Value>, id: string, now: Time)
    ensures "response" !in data ==> TypedMessage(kind, data, id, now)["response"] == Text("")
    ensures kind == SpoilageAdvice && "urgency" !in data ==>
              "urgency" in TypedMessage(kind, data, id, now)
              && TypedMessage(kind, data, id, now)["urgency"] == Text("medium")
  {
  }

  /** `send_market_analysis`, `send_transport_calculation`,
      `send_price_prediction` and `send_spoilage_advice`: exactly one message,
      tagged with the sender's kind and naming the session, goes to the
      session's socket, with the same effect on the registry as any send. */
  function SendTyped(m: Registry, kind: Kind, data: map<string, Value>, id: string, writes: bool, now: Time)
    : (r: Sent)
    ensures id in m.connections <==> r.delivery.Some?
    ensures r.delivery.Some? ==>
              && r.delivery.value.socket == m.connections[id]
              && "type" in r.delivery.value.message && "session_id" in r.delivery.value.message
              && r.delivery.value.message["type"] == Text(KindTag(kind))
              && r.delivery.value.message["session_id"] == Text(id)
    ensures r.registry == SendMessage(m, TypedMessage(kind, data, id, now), id, writes, now).registry
  {
    SendMessage(m, TypedMessage(kind, data, id, now), id, writes, now)
  }
}
