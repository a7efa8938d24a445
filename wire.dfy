/** The signalling envelope `{ type, body }` that both the relay and the
    browser client put on the WebSocket (server/src/App.js `sendWsMessage`,
    client/src/App.js `sendWsMessage`), and the destructuring
    `const { type, body } = JSON.parse(...)` both sides apply on receipt.
    The JSON text itself is left abstract: a frame is the value that is
    stringified, and parsing yields a value (or fails). */
module Wire {
  import opened Json

  const SendOffer := "send_offer"
  const SendAnswer := "send_answer"
  const OfferSdpReceived := "offer_sdp_received"
  const AnswerSdpReceived := "answer_sdp_received"

  /** The object `{ type, body }` handed to JSON.stringify: exactly those two
      properties, which read back as the type string and the body. */
  function Frame(kind: string, body: Value): (v: Value)
    ensures v.Obj? && v.fields.Keys == {"type", "body"}
    ensures Get(v, "type") == Str(kind) && Get(v, "body") == body
  {
    Obj(map["type" := Str(kind), "body" := body])
  }

  /** The body the client puts in `send_offer` / `send_answer`: exactly the
      properties `userId` and `sdp`, which read back unchanged. */
  function IdentifiedSdp(userId: string, sdp: Value): (v: Value)
    ensures v.Obj? && v.fields.Keys == {"userId", "sdp"}
    ensures Get(v, "userId") == Str(userId) && Get(v, "sdp") == sdp
  {
    Obj(map["userId" := Str(userId), "sdp" := sdp])
  }

  /** `const { type, body } = v`: None when destructuring throws. On an
      object shaped like a frame it is the inverse of `Frame`: framing the
      type and body it reads gives the object back. */
  function TypeAndBody(v: Value): (r: Option<(Value, Value)>)
    ensures r.None? <==> !Destructurable(v)
    ensures v.Obj? && v.fields.Keys == {"type", "body"} && v.fields["type"].Str? ==>
      r.Some? && r.value.0.Str? && v == Frame(r.value.0.s, r.value.1)
  {
    if Destructurable(v) then Some((Get(v, "type"), Get(v, "body"))) else None
  }

  /** Destructuring a frame gives back the type string and the body unchanged. */
  lemma FrameRoundTrip(kind: string, body: Value)
    ensures TypeAndBody(Frame(kind, body)) == Some((Str(kind), body))
  {
  }
}
