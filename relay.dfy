/** The signalling relay of server/src/App.js: a registry `clients` from user
    id to WebSocket connection, and `onMessage`, which forwards offers and
    answers to every other registered connection and registers the sender of
    an offer. Connections are abstract handles; sending a frame appends a
    delivery to the relay's outbox. */
module Relay {
  import opened Json
  import opened Wire

  /** A client's WebSocket connection, as an opaque handle. */
  datatype Connection = Connection(id: nat)

  /** `wsClient.send(JSON.stringify(frame))`. */
  datatype Delivery = Delivery(to: Connection, frame: Value)

  /** What `onMessage` makes of an incoming message before it sends anything. */
  datatype Routing =
    | ParseError                        // JSON.parse throws
    | NoBody                            // destructuring a null/undefined message or body throws
    | Offer(userId: Value, sdp: Value)  // case "send_offer"
    | Answer(userId: Value, sdp: Value) // case "send_answer"
    | Unknown(kind: Value)              // default: logged and dropped

  /** Lines 28-31 and the `switch`: both destructurings happen before the
      type is looked at, so a missing body throws even for an unknown type. */
  function Route(message: Option<Value>): (r: Routing)
    ensures r.ParseError? <==> message.None?
    ensures r.Offer? || r.Answer? || r.Unknown? <==>
      message.Some? && Destructurable(message.value) && Destructurable(Get(message.value, "body"))
    ensures r.Offer? <==>
      message.Some? && Destructurable(message.value) && Destructurable(Get(message.value, "body")) &&
      Get(message.value, "type") == Str(SendOffer)
    ensures r.Answer? <==>
      message.Some? && Destructurable(message.value) && Destructurable(Get(message.value, "body")) &&
      Get(message.value, "type") == Str(SendAnswer)
    ensures r.Unknown? ==> r.kind == Get(message.value, "type")
    ensures r.Unknown? ==> r.kind != Str(SendOffer) && r.kind != Str(SendAnswer)
    ensures (r.Offer? || r.Answer?) ==>
      r.userId == Get(Get(message.value, "body"), "userId") &&
      r.sdp == Get(Get(message.value, "body"), "sdp")
  {
    match message
    case None => ParseError
    case Some(v) =>
      match TypeAndBody(v)
      case None => NoBody
      case Some((kind, body)) =>
        if !Destructurable(body) then NoBody
        else if kind == Str(SendOffer) then Offer(Get(body, "userId"), Get(body, "sdp"))
        else if kind == Str(SendAnswer) then Answer(Get(body, "userId"), Get(body, "sdp"))
        else Unknown(kind)
  }

  predicate Distinct(keys: seq<string>) {
    forall i, j :: 0 <= i < j < |keys| ==> keys[i] != keys[j]
  }

  /** The entries the `forEach` does not skip (`otherUserId === userId`), in order. */
  function Others(keys: seq<string>, userId: Value): (o: seq<string>)
    ensures |o| <= |keys|
    ensures forall k :: k in o <==> k in keys && !StrictEqualsKey(k, userId)
    decreases |keys|
  {
    if keys == [] then []
    else
      var last := keys[|keys| - 1];
      Others(keys[..|keys| - 1], userId) + (if StrictEqualsKey(last, userId) then [] else [last])
  }

  /** The deliveries the `forEach` makes over `keys` (lines 34-40 and 45-51). */
  function Forward(keys: seq<string>, clients: map<string, Connection>, userId: Value,
                   kind: string, sdp: Value): (d: seq<Delivery>)
    requires forall i :: 0 <= i < |keys| ==> keys[i] in clients
    ensures |d| <= |keys|
    ensures forall j :: 0 <= j < |d| ==> d[j].frame == Frame(kind, sdp) && d[j].to in clients.Values
    decreases |keys|
  {
    if keys == [] then []
    else
      var last := keys[|keys| - 1];
      Forward(keys[..|keys| - 1], clients, userId, kind, sdp) +
        (if StrictEqualsKey(last, userId) then [] else [Delivery(clients[last], Frame(kind, sdp))])
  }

  /** One more visited key extends the sends by at most one delivery. */
  lemma ForwardExtend(keys: seq<string>, clients: map<string, Connection>, userId: Value,
                      kind: string, sdp: Value, i: int)
    requires forall j :: 0 <= j < |keys| ==> keys[j] in clients
    requires 0 <= i < |keys|
    ensures Forward(keys[..i + 1], clients, userId, kind, sdp) ==
            Forward(keys[..i], clients, userId, kind, sdp) +
            (if StrictEqualsKey(keys[i], userId) then [] else [Delivery(clients[keys[i]], Frame(kind, sdp))])
  {
    assert keys[..i + 1][..i] == keys[..i];
  }

  /** A key survives the skip exactly when it is not strictly equal to the
      sender's id, and with distinct registry keys it survives exactly once. */
  lemma {:induction false} OthersExactlyOnce(keys: seq<string>, userId: Value, k: string)
    requires Distinct(keys)
    ensures multiset(Others(keys, userId))[k] ==
            if k in keys && !StrictEqualsKey(k, userId) then 1 else 0
    decreases |keys|
  {
    if keys != [] {
      var init := keys[..|keys| - 1];
      assert keys == init + [keys[|keys| - 1]];
      OthersExactlyOnce(init, userId, k);
    }
  }

  /** The j-th delivery goes to the connection of the j-th non-skipped key and
      carries `{ type: kind, body: sdp }`. */
  lemma {:induction false} ForwardIsOthers(keys: seq<string>, clients: map<string, Connection>,
                                           userId: Value, kind: string, sdp: Value)
    requires forall i :: 0 <= i < |keys| ==> keys[i] in clients
    ensures |Forward(keys, clients, userId, kind, sdp)| == |Others(keys, userId)|
    ensures forall j :: 0 <= j < |Others(keys, userId)| ==>
      Others(keys, userId)[j] in clients &&
      Forward(keys, clients, userId, kind, sdp)[j] ==
        Delivery(clients[Others(keys, userId)[j]], Frame(kind, sdp))
    decreases |keys|
  {
    if keys != [] {
      var init := keys[..|keys| - 1];
      ForwardIsOthers(init, clients, userId, kind, sdp);
      assert forall j :: 0 <= j < |Others(init, userId)| ==> Others(init, userId)[j] in init;
    }
  }

  /** No delivery goes to the sender's own connection when every entry holding
      that connection is keyed by the sender's id: in particular a first-time
      sender, because the fan-out is computed before the sender is registered. */
  lemma {:induction false} NoEcho(keys: seq<string>, clients: map<string, Connection>,
                                  userId: Value, kind: string, sdp: Value, ws: Connection)
    requires forall i :: 0 <= i < |keys| ==> keys[i] in clients
    requires forall k :: k in clients && clients[k] == ws ==> StrictEqualsKey(k, userId)
    ensures forall d :: d in Forward(keys, clients, userId, kind, sdp) ==> d.to != ws
    decreases |keys|
  {
    if keys != [] {
      NoEcho(keys[..|keys| - 1], clients, userId, kind, sdp, ws);
    }
  }

  /** Every forwarded frame destructures to the new type and the sdp exactly as
      the sender sent it; the sender's `userId` is not passed on. */
  lemma ForwardedFrames(keys: seq<string>, clients: map<string, Connection>,
                        userId: Value, kind: string, sdp: Value)
    requires forall i :: 0 <= i < |keys| ==> keys[i] in clients
    ensures forall d :: d in Forward(keys, clients, userId, kind, sdp) ==>
      TypeAndBody(d.frame) == Some((Str(kind), sdp)) && d.frame.fields.Keys == {"type", "body"}
  {
    ForwardIsOthers(keys, clients, userId, kind, sdp);
  }

  /** The value of the registry: the `clients` object and the order in which
      `Object.entries(clients)` lists its keys. */
  datatype Registry = Registry(clients: map<string, Connection>, order: seq<string>)

  /** Every key is listed exactly once, and only keys are listed. */
  predicate WellFormed(reg: Registry) {
    && Distinct(reg.order)
    && (forall i :: 0 <= i < |reg.order| ==> reg.order[i] in reg.clients)
    && (forall k :: k in reg.clients ==> k in reg.order)
  }

  /** `clients[key] = ws`: insert or replace; a new key is listed last, a
      replaced one keeps its place. */
  function Registered(reg: Registry, key: string, ws: Connection): (r: Registry)
    requires WellFormed(reg)
    ensures WellFormed(r)
    ensures r.clients.Keys == reg.clients.Keys + {key} && r.clients[key] == ws
    ensures forall k :: k in reg.clients && k != key ==> r.clients[k] == reg.clients[k]
    ensures key in reg.clients ==> r.order == reg.order
    ensures key !in reg.clients ==> r.order == reg.order + [key]
  {
    Registry(reg.clients[key := ws], if key in reg.clients then reg.order else reg.order + [key])
  }

  /** What one `onMessage` call does: the registry afterwards and the frames
      it sends, in order. */
  datatype Effect = Effect(registry: Registry, deliveries: seq<Delivery>)

  function Step(reg: Registry, ws: Connection, message: Option<Value>): (e: Effect)
    requires WellFormed(reg)
    ensures WellFormed(e.registry)
  {
    match Route(message)
    case Offer(userId, sdp) =>
      Effect(Registered(reg, ToKey(userId), ws), Forward(reg.order, reg.clients, userId, OfferSdpReceived, sdp))
    case Answer(userId, sdp) =>
      Effect(reg, Forward(reg.order, reg.clients, userId, AnswerSdpReceived, sdp))
    case _ =>
      Effect(reg, [])
  }

  /** After `send_offer`, the sender's id maps to the sending connection and
      every other entry is as it was; the offer went to exactly the entries
      not keyed by the sender's id, once each. */
  lemma OfferStep(reg: Registry, ws: Connection, message: Option<Value>)
    requires WellFormed(reg) && Route(message).Offer?
    ensures var r := Route(message); var e := Step(reg, ws, message);
      && e.registry.clients.Keys == reg.clients.Keys + {ToKey(r.userId)}
      && e.registry.clients[ToKey(r.userId)] == ws
      && (forall k :: k in reg.clients && k != ToKey(r.userId) ==> e.registry.clients[k] == reg.clients[k])
      && |e.deliveries| == |Others(reg.order, r.userId)|
      && (forall j :: 0 <= j < |Others(reg.order, r.userId)| ==>
            Others(reg.order, r.userId)[j] in reg.clients &&
            e.deliveries[j] == Delivery(reg.clients[Others(reg.order, r.userId)[j]], Frame(OfferSdpReceived, r.sdp)))
      && (forall k :: multiset(Others(reg.order, r.userId))[k] ==
            if k in reg.clients && !StrictEqualsKey(k, r.userId) then 1 else 0)
      && (forall d :: d in e.deliveries ==> TypeAndBody(d.frame) == Some((Str(OfferSdpReceived), r.sdp)))
  {
    var r := Route(message);
    forall k ensures multiset(Others(reg.order, r.userId))[k] ==
                     if k in reg.clients && !StrictEqualsKey(k, r.userId) then 1 else 0 {
      OthersExactlyOnce(reg.order, r.userId, k);
    }
    ForwardIsOthers(reg.order, reg.clients, r.userId, OfferSdpReceived, r.sdp);
    ForwardedFrames(reg.order, reg.clients, r.userId, OfferSdpReceived, r.sdp);
  }

  /** A first-time sender never receives its own offer: the fan-out is computed
      before it is registered. The same holds for a sender re-offering under
      the id it registered with. */
  lemma OfferNotEchoed(reg: Registry, ws: Connection, message: Option<Value>)
    requires WellFormed(reg) && (Route(message).Offer? || Route(message).Answer?)
    requires forall k :: k in reg.clients && reg.clients[k] == ws ==> StrictEqualsKey(k, Route(message).userId)
    ensures forall d :: d in Step(reg, ws, message).deliveries ==> d.to != ws
  {
    var r := Route(message);
    var kind := if r.Offer? then OfferSdpReceived else AnswerSdpReceived;
    NoEcho(reg.order, reg.clients, r.userId, kind, r.sdp, ws);
  }

  /** `send_answer` is forwarded to every entry not keyed by the sender's id,
      once each, and registers nobody, whether or not the sender is known. */
  lemma AnswerStep(reg: Registry, ws: Connection, message: Option<Value>)
    requires WellFormed(reg) && Route(message).Answer?
    ensures var r := Route(message); var e := Step(reg, ws, message);
      && e.registry == reg
      && |e.deliveries| == |Others(reg.order, r.userId)|
      && (forall j :: 0 <= j < |Others(reg.order, r.userId)| ==>
            Others(reg.order, r.userId)[j] in reg.clients &&
            e.deliveries[j] == Delivery(reg.clients[Others(reg.order, r.userId)[j]], Frame(AnswerSdpReceived, r.sdp)))
      && (forall k :: multiset(Others(reg.order, r.userId))[k] ==
            if k in reg.clients && !StrictEqualsKey(k, r.userId) then 1 else 0)
      && (forall d :: d in e.deliveries ==> TypeAndBody(d.frame) == Some((Str(AnswerSdpReceived), r.sdp)))
  {
    var r := Route(message);
    forall k ensures multiset(Others(reg.order, r.userId))[k] ==
                     if k in reg.clients && !StrictEqualsKey(k, r.userId) then 1 else 0 {
      OthersExactlyOnce(reg.order, r.userId, k);
    }
    ForwardIsOthers(reg.order, reg.clients, r.userId, AnswerSdpReceived, r.sdp);
    ForwardedFrames(reg.order, reg.clients, r.userId, AnswerSdpReceived, r.sdp);
  }

  /** A message that fails to parse, lacks a body, or has an unknown type sends
      nothing and registers nothing. */
  lemma InertStep(reg: Registry, ws: Connection, message: Option<Value>)
    requires WellFormed(reg)
    requires message.None? || !Destructurable(message.value) ||
             !Destructurable(Get(message.value, "body")) ||
             (Get(message.value, "type") != Str(SendOffer) && Get(message.value, "type") != Str(SendAnswer))
    ensures Step(reg, ws, message) == Effect(reg, [])
  {
  }

  /** The client's `{ type, body: { userId, sdp } }` frame routes on its type
      and yields its id and sdp unchanged. */
  lemma RouteClientFrame(kind: string, id: string, sdp: Value)
    ensures Route(Some(Frame(kind, IdentifiedSdp(id, sdp)))) ==
      if kind == SendOffer then Offer(Str(id), sdp)
      else if kind == SendAnswer then Answer(Str(id), sdp)
      else Unknown(Str(kind))
  {
  }

  /** The relay process: the module-level `clients` object and everything sent. */
  class Server {
    /** `clients`: user id (as a property key) to connection. */
    var clients: map<string, Connection>
    /** The order in which `Object.entries(clients)` lists the keys. */
    var order: seq<string>
    /** Every frame sent so far, with its destination. */
    var outbox: seq<Delivery>

    ghost predicate Valid()
      reads this
    {
      WellFormed(Registry(clients, order))
    }

    /** `let clients = {};` */
    constructor ()
      ensures Valid() && clients == map[] && order == [] && outbox == []
    {
      clients, order, outbox := map[], [], [];
    }

    /** server `sendWsMessage(ws, type, body)` (lines 15-23). */
    method SendWsMessage(ws: Connection, kind: string, body: Value)
      modifies this`outbox
      ensures outbox == old(outbox) + [Delivery(ws, Frame(kind, body))]
    {
      outbox := outbox + [Delivery(ws, Frame(kind, body))];
    }

    /** The `Object.entries(clients).forEach(...)` loop of both cases. */
    method FanOut(userId: Value, kind: string, sdp: Value)
      requires Valid()
      modifies this`outbox
      ensures outbox == old(outbox) + Forward(order, clients, userId, kind, sdp)
    {
      var entries, table, i := order, clients, 0;
      assert forall j :: 0 <= j < |entries| ==> entries[j] in table;
      while i < |entries|
        invariant 0 <= i <= |entries|
        invariant outbox == old(outbox) + Forward(entries[..i], table, userId, kind, sdp)
      {
        var otherUserId := entries[i];
        ForwardExtend(entries, table, userId, kind, sdp, i);
        ghost var sentBefore := Forward(entries[..i], table, userId, kind, sdp);
        if !StrictEqualsKey(otherUserId, userId) {
          SendWsMessage(table[otherUserId], kind, sdp);
          assert outbox == old(outbox) + (sentBefore + [Delivery(table[otherUserId], Frame(kind, sdp))]);
        }
        i := i + 1;
      }
      assert entries[..i] == entries;
    }

    /** `clients[userId] = ws`. */
    method Register(key: string, ws: Connection)
      requires Valid()
      modifies this`clients, this`order
      ensures Registry(clients, order) == Registered(old(Registry(clients, order)), key, ws)
    {
      if key !in clients {
        order := order + [key];
      }
      clients := clients[key := ws];
    }

    /** `onMessage(ws, message)`, with JSON.parse's result given as `message`. */
    method OnMessage(ws: Connection, message: Option<Value>) returns (r: Routing)
      requires Valid()
      modifies this
      ensures Valid()
      ensures r == Route(message)
      ensures var e := Step(old(Registry(clients, order)), ws, message);
        Registry(clients, order) == e.registry && outbox == old(outbox) + e.deliveries
    {
      r := Route(message);
      match r
      case Offer(userId, sdp) =>
        FanOut(userId, OfferSdpReceived, sdp);
        Register(ToKey(userId), ws);
      case Answer(userId, sdp) =>
        FanOut(userId, AnswerSdpReceived, sdp);
      case _ =>
    }
  }
}
