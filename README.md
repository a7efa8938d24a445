# WebRTC signalling demo — a Dafny model

This project models the signalling layer of a two-peer WebRTC video demo,
plus three small helpers on the client side.

- **Relay** (`relay.dfy`, server/src/App.js). The relay keeps a registry
  `clients` from user id to WebSocket connection.
  - `send_offer`: `onMessage` forwards `offer_sdp_received` to every entry
    whose key is not the sender's id, then registers the sender
    (insert or replace).
  - `send_answer`: it forwards `answer_sdp_received` the same way and
    registers nobody.
  - Any other type is dropped.
  - The pure function `Step` states what one message does to the registry
    and which frames it sends. The class `Server` keeps the registry and
    the outbox as fields. Its `OnMessage` runs the `forEach` loop and is
    proved equal to `Step`.
- **Negotiation** (`negotiation.dfy`, client/src/App.js). The class
  `Session` holds the module-level `localStream` and `localPeerConnection`,
  the React state `userId` and `connectButtonDisabled`, and every frame
  sent. Its methods are `startConnection`, `receiveOfferAndSendAnswer`, the
  `icecandidate` handlers, the `onmessage` dispatcher and `sendWsMessage`.
  `PeerConnection` stands for the browser's RTCPeerConnection. It records
  every call made on it, its two descriptions and its installed candidate
  handler.
- **Wire** (`wire.dfy`) and **Json** (`json.dfy`). These model the envelope
  `{type, body}` and the JavaScript value semantics the code relies on:
  property access, truthiness, destructuring that throws on null or
  undefined, and strict equality against a property key. They also model
  the conversion of a value to a key when it is used in `obj[v] = x`.
- **Exchange** (`exchange.dfy`) joins the two sides. A client's frame is
  routed by the relay as the matching offer or answer. A forwarded frame is
  dispatched by the client with its sdp unchanged. It also proves a
  two-user call and a third user's broadcast, step by step.
- **ModelCache** (`model_cache.dfy`, frameworkSwitcher.js) models the two
  memo tables.
- **MaskImage** (`mask_image.dfy`, postprocess.js) models the
  `maskToImageData` buffer fill.
- **Letterbox** (`letterbox.dfy`, preprocess.js) models the dimension and
  padding arithmetic of `resizeWithAspectRatio`.

Behaviour worth knowing, as the code has it:
- A message whose JSON does not parse, or whose `body` is null or missing,
  makes the relay's `onMessage` throw before the `switch`; nothing is sent
  and nothing is registered (`Relay.Route` yields `ParseError` or `NoBody`).
- The client keeps no negotiation state: an answer is applied whenever a
  peer connection exists, every end-of-candidates event sends again, and
  `startConnection` without a local stream replaces the peer connection and
  installs the offer handler before it throws.

## Model

| member | source | states |
|---|---|---|
| `Json.ToKey` | server/src/App.js:41 | A string id is used as its own property key; other values are stored under their `String(v)` form |
| `Json.StrictEqualsKeyImpliesToKey` | server/src/App.js:35-41 | A sender skipped by `otherUserId === userId` is stored under that same key; a non-string id such as 5 is stored under "5" but never skipped |
| `Wire.Frame` | server/src/App.js:15-22 | A sent frame has exactly the properties `type` and `body`, which read back as the type string and the body |
| `Wire.TypeAndBody` | server/src/App.js:28 | `const {type, body} = v` throws exactly on null/undefined; on an object with exactly `type` (a string) and `body` it is the inverse of `Frame`: re-framing what it reads gives the object back |
| `Wire.FrameRoundTrip` | server/src/App.js:15-29 | Destructuring a sent frame gives back its type string and body unchanged |
| `Wire.IdentifiedSdp` | client/src/App.js:194-197 | The client's body `{userId, sdp}` has exactly those two properties, which read back unchanged |
| `Relay.Route` | server/src/App.js:27-31 | A parse failure exactly when `JSON.parse` fails; a route (offer, answer or unknown) exactly when the message and its body both destructure; offer exactly on type `send_offer` and answer exactly on `send_answer`, carrying the body's `userId` and `sdp`; an unknown route keeps the type it saw |
| `Relay.Others` | server/src/App.js:34-37 | The keys the `forEach` does not skip are exactly the listed keys not strictly equal to the sender's id |
| `Relay.Forward` | server/src/App.js:34-40 | No more sends than listed keys; every send carries `{type, body: sdp}` to a registered connection; the exact sends are given by `ForwardIsOthers` |
| `Relay.OthersExactlyOnce` | server/src/App.js:34-40 | With distinct registry keys, each key not strictly equal to the sender's id is visited exactly once, and a key equal to it never |
| `Relay.ForwardIsOthers` | server/src/App.js:34-40 | The j-th send goes to the connection of the j-th non-skipped key and carries `{type, body: sdp}` |
| `Relay.NoEcho` | server/src/App.js:34-41 | When every entry holding the sender's connection is keyed by the sender's id, no send goes to that connection |
| `Relay.ForwardedFrames` | server/src/App.js:39 | Every forwarded frame is `{type, body: sdp}`: the sdp unchanged, the `userId` stripped |
| `Relay.Registered` | server/src/App.js:41 | `clients[userId] = ws`: the key now maps to `ws`, every other entry is unchanged, a replaced key keeps its place in `Object.entries` order and a new key is listed last; the registry stays well formed |
| `Relay.Step` | server/src/App.js:27-56 | One message keeps the registry well formed |
| `Relay.OfferStep` | server/src/App.js:32-42 | After `send_offer` the sender's key maps to the sending connection and every other entry is unchanged; the j-th send goes to the connection of the j-th entry not keyed by the sender's id, one per such entry, carrying `offer_sdp_received` with the sdp |
| `Relay.OfferNotEchoed` | server/src/App.js:34-41 | Fan-out happens before registration, so a first-time sender (or one re-offering under its own id) never receives its own frame |
| `Relay.AnswerStep` | server/src/App.js:43-52 | `send_answer` leaves the registry unchanged, even for an unregistered sender; the j-th send goes to the connection of the j-th entry not keyed by the sender's id, one per such entry, carrying `answer_sdp_received` with the sdp |
| `Relay.InertStep` | server/src/App.js:53-55 | A parse failure, a missing body or an unknown type sends nothing and registers nothing |
| `Relay.RouteClientFrame` | server/src/App.js:28-31 | A `{type, body: {userId, sdp}}` frame routes on its type with its id and sdp unchanged |
| `Relay.Server.constructor` | server/src/App.js:12 | The registry starts empty and nothing has been sent |
| `Relay.Server.SendWsMessage` | server/src/App.js:15-23 | Sending appends one `{type, body}` frame for that connection |
| `Relay.Server.FanOut` | server/src/App.js:34-40 | The `forEach` loop sends exactly `Forward` of the registry, in enumeration order |
| `Relay.Server.Register` | server/src/App.js:41 | Insert or replace of the sender's key |
| `Relay.Server.OnMessage` | server/src/App.js:27-57 | The new registry and the frames sent are those of `Step` on the old registry |
| `Negotiation.AddTrackCallsAppend` | client/src/App.js:204-206 | The `addTrack` calls for `a + b` are those for `a` followed by those for `b`: one call per track, in the stream's order |
| `Negotiation.IceFrame` | client/src/App.js:189-199 | A handler sends exactly on a falsy candidate, a frame with exactly the properties `type` and `body`; the offer handler sends `send_offer` and the answer handler `send_answer`, with `{userId, sdp: localDescription}` |
| `Negotiation.Dispatch` | client/src/App.js:304-317 | An offer or answer is dispatched exactly on its type string, with the body as its payload; any other type is only logged |
| `Negotiation.ConnectEnabled` | client/src/App.js:331 | The Connect button is enabled exactly when `userId` is non-empty and the button has not been disabled |
| `Negotiation.PeerConnection.constructor` | client/src/App.js:185 | A new peer connection has no descriptions, no calls and no candidate handler |
| `Negotiation.Session.constructor` | client/src/App.js:10-11 | Both module variables start undefined, `userId` empty, the button enabled, nothing sent |
| `Negotiation.Session.OnOpen` | client/src/App.js:261-265 | Opening the socket sets the fresh user id |
| `Negotiation.Session.AttachLocalStream` | client/src/App.js:167 | `localStream` becomes the captured stream |
| `Negotiation.Session.SendWsMessage` | client/src/App.js:178-180 | Every outgoing frame is exactly `{type, body}` |
| `Negotiation.Session.StartConnection` | client/src/App.js:183-213 | A fresh peer connection with the offer handler (capturing `userId`); all tracks added before `createOffer` and `setLocalDescription(offer)`; button disabled; without a stream it throws after installing the handler and leaves the button as it was |
| `Negotiation.Session.ReceiveOfferAndSendAnswer` | client/src/App.js:218-244 | Reuses the existing peer connection: swaps in the answer handler, then `setRemoteDescription(offer)`, `createAnswer`, `setLocalDescription(answer)` in that order; without a peer connection nothing changes |
| `Negotiation.Session.OnIceCandidate` | client/src/App.js:189-236 | The installed handler sends `IceFrame` of the current `localPeerConnection`'s local description; a truthy candidate sends nothing; repeated falsy events send again |
| `Negotiation.Session.OnMessage` | client/src/App.js:304-318 | An offer runs the answer sequence; an answer is applied as the remote description whenever a peer connection exists, with nothing else changed; anything else changes no peer connection |
| `ModelCache.SegmenterFactory` | client/src/ai/utils/frameworkSwitcher.js:10-22 | Exactly "mediapipe", "tfjs" and "onnx" have a factory |
| `ModelCache.SegmenterStep` | client/src/ai/utils/frameworkSwitcher.js:8-26 | A factory runs only on a miss; no entry but the requested framework's changes; the result is what the table holds under that framework afterwards |
| `ModelCache.LandmarkerStep` | client/src/ai/utils/frameworkSwitcher.js:32-38 | A factory runs only when the "mediapipe" entry is not a model; no other entry ever changes |
| `ModelCache.SegmenterHit` | client/src/ai/utils/frameworkSwitcher.js:9 | A truthy cached model is returned and no factory runs |
| `ModelCache.SegmenterMiss` | client/src/ai/utils/frameworkSwitcher.js:10-19 | On a miss for a known framework exactly the matching factory runs and its result is stored under that framework and returned; nothing else changes |
| `ModelCache.SegmenterUnknown` | client/src/ai/utils/frameworkSwitcher.js:20-25 | An unknown framework runs no factory, stores nothing and returns the (absent) entry |
| `ModelCache.SegmenterRetriesAfterFailure` | client/src/ai/utils/frameworkSwitcher.js:9-18 | A failed factory stores null, which is falsy, so the next call runs the factory again |
| `ModelCache.SegmenterMemoises` | client/src/ai/utils/frameworkSwitcher.js:9-25 | Once a model is stored, later calls return it without creating |
| `ModelCache.LandmarkerAlwaysMediapipe` | client/src/ai/utils/frameworkSwitcher.js:33-37 | Always returns the "mediapipe" entry; creates only for "mediapipe" on a miss; otherwise the table is unchanged |
| `ModelCache.SegmenterCache.constructor` | client/src/ai/utils/frameworkSwitcher.js:6 | The segmenter table starts empty |
| `ModelCache.SegmenterCache.Create` | client/src/ai/utils/frameworkSwitcher.js:8-26 | The table, the factory log and the result follow `SegmenterStep` |
| `ModelCache.LandmarkerCache.constructor` | client/src/ai/utils/frameworkSwitcher.js:30 | The landmarker table starts empty |
| `ModelCache.LandmarkerCache.Create` | client/src/ai/utils/frameworkSwitcher.js:32-38 | The table, the factory log and the result follow `LandmarkerStep` |
| `ModelCache.InitializeBoth` | client/src/App.js:283-288 | The two tables are separate: each call updates only its own table |
| `JsMath.Round` | client/src/ai/utils/preprocess.js:13 | `Math.round` gives the integer nearest to its argument, halves rounding up |
| `MaskImage.Clamp` | client/src/ai/utils/postprocess.js:30-36 | Storing into a Uint8ClampedArray stores the byte nearest to the value |
| `MaskImage.ClampMonotone` | client/src/ai/utils/postprocess.js:30-36 | Clamping keeps the order of its inputs |
| `MaskImage.Alpha` | client/src/ai/utils/postprocess.js:36 | A mask value in [0, 1] gives `Math.round(mask[i] * 255)` unclamped; a pixel past the end of the mask gets alpha 0 |
| `MaskImage.PixelByte` | client/src/ai/utils/postprocess.js:32-36 | Only the alpha byte of a pixel the mask covers can be non-zero |
| `MaskImage.AlphaScale` | client/src/ai/utils/postprocess.js:36 | Mask 0 gives alpha 0, mask 1 gives 255, and the alpha is monotone in the mask value |
| `MaskImage.PixelReadsOwnEntry` | client/src/ai/utils/postprocess.js:31-36 | Masks that agree at entry i give pixel i the same four bytes, its colour bytes being 0 |
| `MaskImage.OnlyOwnEntryRead` | client/src/ai/utils/postprocess.js:31-36 | Each pixel's four bytes depend on its own mask entry alone, and only the first `width*height` entries matter to the buffer |
| `MaskImage.MaskToImageData` | client/src/ai/utils/postprocess.js:28-37 | The buffer has length `width*height*4`; bytes `4i..4i+2` are 0, byte `4i+3` is the quantised `mask[i]` (0 past the end of the mask); every offset is written exactly once, in order |
| `Letterbox.TargetIsWider` | client/src/ai/utils/preprocess.js:6-12 | The ratio comparison `targetWidth / targetHeight > aspectRatio` holds exactly when the cross-multiplied integer comparison does |
| `Letterbox.RoundQuotient` | client/src/ai/utils/preprocess.js:13 | `Math.round(p/q)` is the integer quotient `(2p+q) div 2q` |
| `Letterbox.RoundBelow` | client/src/ai/utils/preprocess.js:13-15 | A rounded value between 0 and an integer bound stays within them |
| `Letterbox.HalfDown` | client/src/ai/utils/preprocess.js:22-25 | `Math.floor(n/2)` is the integer half, and the other side gets the same or one more |
| `Letterbox.BoundsOfNewSide` | client/src/ai/utils/preprocess.js:12-16 | The recomputed side is between 0 and its target |
| `Letterbox.ResizeWithAspectRatio` | client/src/ai/utils/preprocess.js:3-30 | Wider target keeps the height and recomputes the width, otherwise keeps the width; paddings `[top, bottom, left, right]` are non-negative, fill each dimension to its target, top/left are the floor half and bottom/right exceed them by 0 or 1 |
| `Letterbox.WidthByIntegers` | client/src/ai/utils/preprocess.js:13 | The new width is `(2*targetHeight*originalWidth + originalHeight) div (2*originalHeight)` |
| `Letterbox.HeightByIntegers` | client/src/ai/utils/preprocess.js:15 | The new height is `(2*targetWidth*originalHeight + originalWidth) div (2*originalWidth)` |
| `Letterbox.NewSideByIntegers` | client/src/ai/utils/preprocess.js:12-16 | With integers only, the branch is the cross-multiplied comparison and the new side a rounded integer quotient |
| `Exchange.ClientFrameRoutes` | client/src/App.js:191-197 | What a client handler sends on the end-of-candidates event reaches the relay as an offer or answer from that id, carrying the local description unchanged |
| `Exchange.ForwardedFramesDispatch` | server/src/App.js:39-50 | Every forwarded frame is dispatched by the receiving client as an offer or answer carrying the original sdp |
| `Exchange.TwoPartyFanOut` | server/src/App.js:34-51 | With two users registered, a message goes to the other user only, in either registration order |
| `Exchange.FirstOffer` | server/src/App.js:34-41 | An offer to an empty registry sends nothing and registers the sender |
| `Exchange.SecondOffer` | server/src/App.js:34-41 | A second user's offer goes to the first user only and registers the second after the first |
| `Exchange.AnswerBack` | server/src/App.js:43-52 | The answer goes back to the offerer only and the registry is unchanged |
| `Exchange.ThirdOffer` | server/src/App.js:34-40 | A third user's offer is broadcast to both registered users |
| `Exchange.OffererSession` | client/src/App.js:183-213 | The offerer sends one `send_offer` with its id and offer, and ends with the forwarded answer as remote description |
| `Exchange.AnswererSession` | client/src/App.js:218-244 | After receiving an offer, the next end-of-candidates event sends `send_answer`, not `send_offer`; remote is the offer, local the answer |
| `Exchange.RepeatedEvents` | client/src/App.js:311-313 | No de-duplication and no state guard: a second falsy candidate sends the offer again, and a second answer is applied again |

## Left out

- Relay.Forward: its own contract bounds the number of sends by the number of keys; the exact sends, one per key not skipped, are stated by `Relay.ForwardIsOthers` with `Relay.OthersExactlyOnce`, because stating them on `Forward` makes `Relay.Server.FanOut` run out of resource.
- WebSocket server start-up and listeners (server/src/App.js:6-8, 59-66) and the client's socket set-up: I/O plumbing. Only the effect of `onopen` (`setUserId(uuid())`) is kept, with the fresh id as a parameter.
- JSON text: `JSON.parse` and `JSON.stringify` are not modelled. A frame is the value handed to `JSON.stringify`, and a parse failure is `None`.
  - `stringify` drops undefined properties. This cannot be seen through `Get`.
  - `stringify` turns undefined array elements into null. This is not modelled.
  - Numbers are integers only (no fractions, NaN or infinities).
  - `Json.IntString` writes every integer in full. JavaScript's `String(n)` uses exponent form from 1e21 on, and `JSON.parse` rounds integers above 2^53.
- JavaScript object quirks: the key `"__proto__"` and properties inherited from `Object.prototype` are not modelled. For example, `models["constructor"]` is truthy in the source. `Object.entries` lists integer-like keys first, in ascending order; the model lists keys in insertion order.
- Relay.Server.OnMessage: models an exception thrown by `JSON.parse` or by destructuring as "no effect". Whether that uncaught exception ends the server process is not modelled.
- The browser's WebRTC machinery is not modelled: ICE checks, media flow, the browser adding gathered candidates to `localDescription`, the browser rejecting an invalid description, and `onaddstream`/`addRemoteStreamToDom`.
  - `createOffer` and `createAnswer` results are parameters.
  - `PeerConnection` records the calls.
- `ws.current.send` throwing on a socket that is not open yet is not modelled.
- Async interleaving: awaited steps run in sequence. The un-awaited `receiveOfferAndSendAnswer` runs to completion at once. Two overlapping model-cache calls that both miss are not modelled.
- React effects, state and `useCallback` dependency arrays. The `userId` captured by each candidate handler is kept in the handler value.
- `setupLocalStream`, canvas drawing, filters, FPS timing (client/src/App.js:54-175), client/src/ai/utils/drawing.js, the ML backends (onnx.js, tfjs.js, mediapipe.js) and `resizeSegmentationMask`: media, rendering, floating point and tensor library calls. The backend factories are opaque: the object or null they yield is a parameter, and a log records which one ran.
- MaskImage.MaskToImageData: returns the filled buffer and does not model the `ImageData` wrapper, which throws for a zero width or height. The product `mask[i] * 255` is an exact real, not a float, and NaN mask entries are not modelled. A missing entry (index past the end) is modelled: it stores 0.
- Letterbox.ResizeWithAspectRatio: uses exact rationals, not floating point. It requires positive dimensions, whereas the source divides by zero for zero dimensions. The tensor resize and pad calls are not modelled.
