/** The browser client's side of the negotiation (client/src/App.js): the
    module-level `localStream` and `localPeerConnection`, the React state
    `userId` and `connectButtonDisabled`, `startConnection`,
    `receiveOfferAndSendAnswer`, the two `onicecandidate` handlers, the
    WebSocket `onmessage` dispatcher and `sendWsMessage`.
    The browser's RTCPeerConnection is an abstract object that records the
    calls made on it; the descriptions it creates are opaque values handed in
    by the caller. Every frame given to `ws.current.send` is appended to `sent`. */
module Negotiation {
  import opened Json
  import opened Wire

  /** A media track of the local stream, as an opaque handle. */
  datatype Track = Track(id: nat)

  /** The function installed as `onicecandidate`. Each closure captured the
      `userId` of the render that created it. */
  datatype IceHandler =
    | NoHandler
    | OfferSender(userId: string)   // installed by startConnection (lines 189-199)
    | AnswerSender(userId: string)  // installed by receiveOfferAndSendAnswer (lines 226-236)

  /** A call made on the peer connection. */
  datatype PcCall =
    | AddTrack(track: Track)
    | CreateOffer
    | CreateAnswer
    | SetLocalDescription(description: Value)
    | SetRemoteDescription(description: Value)

  /** The `addTrack` calls `localStream.getTracks().forEach(...)` makes. */
  function AddTrackCalls(tracks: seq<Track>): (calls: seq<PcCall>)
    ensures |calls| == |tracks|
    ensures forall i :: 0 <= i < |tracks| ==> calls[i] == AddTrack(tracks[i])
  {
    seq(|tracks|, i requires 0 <= i < |tracks| => AddTrack(tracks[i]))
  }

  /** Adding the tracks of `a + b` is adding those of `a`, then those of `b`:
      each track adds exactly one call, at its own place in the stream's order. */
  lemma AddTrackCallsAppend(a: seq<Track>, b: seq<Track>)
    ensures AddTrackCalls(a + b) == AddTrackCalls(a) + AddTrackCalls(b)
    ensures AddTrackCalls([]) == []
  {
  }

  function Sends(frame: Option<Value>): seq<Value> {
    match frame
    case None => []
    case Some(f) => [f]
  }

  /** What the installed handler sends for one `icecandidate` event, given the
      local description it reads at that moment: nothing while candidates keep
      coming, and one `{ type, body: { userId, sdp } }` frame on the falsy
      end-of-candidates event, typed by which handler is installed. */
  function IceFrame(h: IceHandler, candidate: Value, localDescription: Value): (r: Option<Value>)
    ensures r.Some? <==> !h.NoHandler? && !Truthy(candidate)
    ensures r.Some? ==> r.value.Obj? && r.value.fields.Keys == {"type", "body"}
    ensures r.Some? && h.OfferSender? ==>
      TypeAndBody(r.value) == Some((Str(SendOffer), IdentifiedSdp(h.userId, localDescription)))
    ensures r.Some? && h.AnswerSender? ==>
      TypeAndBody(r.value) == Some((Str(SendAnswer), IdentifiedSdp(h.userId, localDescription)))
  {
    match h
    case NoHandler => None
    case OfferSender(id) =>
      if Truthy(candidate) then None else Some(Frame(SendOffer, IdentifiedSdp(id, localDescription)))
    case AnswerSender(id) =>
      if Truthy(candidate) then None else Some(Frame(SendAnswer, IdentifiedSdp(id, localDescription)))
  }

  /** What `ws.current.onmessage` does with an incoming message (lines 304-317). */
  datatype Incoming =
    | ParseFailed                       // JSON.parse throws
    | NotAnObject                       // destructuring null throws
    | OfferReceived(offer: Value)       // calls receiveOfferAndSendAnswer(body)
    | AnswerReceived(answer: Value)     // localPeerConnection?.setRemoteDescription(body)
    | UnknownType(kind: Value, body: Value) // only logged

  function Dispatch(message: Option<Value>): (r: Incoming)
    ensures r.OfferReceived? <==>
      message.Some? && Destructurable(message.value) && Get(message.value, "type") == Str(OfferSdpReceived)
    ensures r.AnswerReceived? <==>
      message.Some? && Destructurable(message.value) && Get(message.value, "type") == Str(AnswerSdpReceived)
    ensures r.OfferReceived? ==> r.offer == Get(message.value, "body")
    ensures r.AnswerReceived? ==> r.answer == Get(message.value, "body")
  {
    match message
    case None => ParseFailed
    case Some(v) =>
      match TypeAndBody(v)
      case None => NotAnObject
      case Some((kind, body)) =>
        if kind == Str(OfferSdpReceived) then OfferReceived(body)
        else if kind == Str(AnswerSdpReceived) then AnswerReceived(body)
        else UnknownType(kind, body)
  }

  /** `disabled={!userId || connectButtonDisabled}` (line 331), negated. */
  function ConnectEnabled(userId: string, connectButtonDisabled: bool): (enabled: bool)
    ensures enabled <==> |userId| > 0 && !connectButtonDisabled
  {
    Truthy(Str(userId)) && !connectButtonDisabled
  }

  /** The browser's RTCPeerConnection, reduced to what the client touches. */
  class PeerConnection {
    /** Every call the client made on this connection, in order. */
    var calls: seq<PcCall>
    var localDescription: Value
    var remoteDescription: Value
    var onIceCandidate: IceHandler

    /** `new RTCPeerConnection()`: no descriptions yet (null), no handler. */
    constructor ()
      ensures calls == [] && localDescription == Null && remoteDescription == Null
      ensures onIceCandidate == NoHandler
    {
      calls, localDescription, remoteDescription := [], Null, Null;
      onIceCandidate := NoHandler;
    }

    method AddTrack(track: Track)
      modifies this`calls
      ensures calls == old(calls) + [PcCall.AddTrack(track)]
    {
      calls := calls + [PcCall.AddTrack(track)];
    }

    /** `createOffer()`; the browser's offer is opaque and handed in as `produced`. */
    method CreateOffer(produced: Value) returns (offer: Value)
      modifies this`calls
      ensures calls == old(calls) + [PcCall.CreateOffer] && offer == produced
    {
      calls := calls + [PcCall.CreateOffer];
      offer := produced;
    }

    /** `createAnswer()`; the browser's answer is handed in as `produced`. */
    method CreateAnswer(produced: Value) returns (answer: Value)
      modifies this`calls
      ensures calls == old(calls) + [PcCall.CreateAnswer] && answer == produced
    {
      calls := calls + [PcCall.CreateAnswer];
      answer := produced;
    }

    method SetLocalDescription(description: Value)
      modifies this`calls, this`localDescription
      ensures calls == old(calls) + [PcCall.SetLocalDescription(description)]
      ensures localDescription == description
    {
      calls := calls + [PcCall.SetLocalDescription(description)];
      localDescription := description;
    }

    method SetRemoteDescription(description: Value)
      modifies this`calls, this`remoteDescription
      ensures calls == old(calls) + [PcCall.SetRemoteDescription(description)]
      ensures remoteDescription == description
    {
      calls := calls + [PcCall.SetRemoteDescription(description)];
      remoteDescription := description;
    }
  }

  /** One browser tab running the client. */
  class Session {
    /** `localStream`: None while undefined, else the tracks of the stream. */
    var localStream: Option<seq<Track>>
    var localPeerConnection: PeerConnection?
    var userId: string
    var connectButtonDisabled: bool
    /** Every frame given to `ws.current.send`, before JSON encoding. */
    var sent: seq<Value>

    /** Once the button is disabled a peer connection exists, and every
        peer connection the client holds has a candidate handler. */
    ghost predicate Valid()
      reads this, localPeerConnection
    {
      && (connectButtonDisabled ==> localPeerConnection != null)
      && (localPeerConnection != null ==> !localPeerConnection.onIceCandidate.NoHandler?)
    }

    /** Module load and first render: both module variables undefined,
        `userId` "" and the button not disabled. */
    constructor ()
      ensures Valid()
      ensures localStream == None && localPeerConnection == null
      ensures userId == "" && !connectButtonDisabled && sent == []
    {
      localStream, localPeerConnection := None, null;
      userId, connectButtonDisabled, sent := "", false, [];
    }

    /** `wsClient.onopen`: `setUserId(uuid())`; the fresh id is handed in. */
    method OnOpen(freshId: string)
      modifies this`userId
      ensures userId == freshId
    {
      userId := freshId;
    }

    /** The end of `setupLocalStream`: `localStream = localCanvas.captureStream(30)`. */
    method AttachLocalStream(tracks: seq<Track>)
      modifies this`localStream
      ensures localStream == Some(tracks)
    {
      localStream := Some(tracks);
    }

    /** client `sendWsMessage(type, body)` (lines 178-180). */
    method SendWsMessage(kind: string, body: Value)
      modifies this`sent
      ensures sent == old(sent) + [Frame(kind, body)]
    {
      sent := sent + [Frame(kind, body)];
    }

    /** `startConnection` (lines 183-213). The peer connection and its handler
        are installed first; `localStream.getTracks()` then throws when no
        stream is set up (`ok` false), leaving the button as it was.
        Otherwise every track is added before the offer is created and set. */
    method StartConnection(producedOffer: Value) returns (ok: bool)
      requires Valid()
      modifies this
      ensures Valid()
      ensures localPeerConnection != null && fresh(localPeerConnection)
      ensures localPeerConnection.onIceCandidate == OfferSender(old(userId))
      ensures localPeerConnection.remoteDescription == Null
      ensures localStream == old(localStream) && userId == old(userId) && sent == old(sent)
      ensures ok <==> old(localStream).Some?
      ensures ok ==>
        && localPeerConnection.calls ==
             AddTrackCalls(old(localStream).value) + [CreateOffer, SetLocalDescription(producedOffer)]
        && localPeerConnection.localDescription == producedOffer
        && connectButtonDisabled
      ensures !ok ==>
        && localPeerConnection.calls == [] && localPeerConnection.localDescription == Null
        && connectButtonDisabled == old(connectButtonDisabled)
    {
      var pc: PeerConnection := new PeerConnection();
      localPeerConnection := pc;
      pc.onIceCandidate := OfferSender(userId);
      if localStream.None? {
        return false;
      }
      var tracks := localStream.value;
      var i := 0;
      while i < |tracks|
        invariant 0 <= i <= |tracks|
        invariant pc.calls == AddTrackCalls(tracks[..i])
        invariant pc.localDescription == Null && pc.remoteDescription == Null
        invariant pc.onIceCandidate == OfferSender(userId)
        modifies pc`calls
      {
        pc.AddTrack(tracks[i]);
        assert tracks[..i + 1] == tracks[..i] + [tracks[i]];
        AddTrackCallsAppend(tracks[..i], [tracks[i]]);
        i := i + 1;
      }
      assert tracks[..i] == tracks;
      var offer := pc.CreateOffer(producedOffer);
      pc.SetLocalDescription(offer);
      connectButtonDisabled := true;
      ok := true;
    }

    /** `receiveOfferAndSendAnswer(offer)` (lines 218-244): reuses the existing
        peer connection, swaps its handler for the answer sender, then sets the
        remote offer, creates the answer and sets it as local description.
        Without a peer connection the first assignment throws (`ok` false). */
    method ReceiveOfferAndSendAnswer(offer: Value, producedAnswer: Value) returns (ok: bool)
      requires Valid()
      modifies localPeerConnection
      ensures Valid()
      ensures ok <==> localPeerConnection != null
      ensures ok ==>
        && localPeerConnection.onIceCandidate == AnswerSender(userId)
        && localPeerConnection.calls == old(localPeerConnection.calls) +
             [SetRemoteDescription(offer), CreateAnswer, SetLocalDescription(producedAnswer)]
        && localPeerConnection.remoteDescription == offer
        && localPeerConnection.localDescription == producedAnswer
    {
      var pc := localPeerConnection;
      if pc == null {
        return false;
      }
      pc.onIceCandidate := AnswerSender(userId);
      pc.SetRemoteDescription(offer);
      var answer := pc.CreateAnswer(producedAnswer);
      pc.SetLocalDescription(answer);
      ok := true;
    }

    /** An `icecandidate` event on `target`. Both handlers read the local
        description of the module-level `localPeerConnection`, which throws
        (nothing is sent) while that is undefined. Nothing remembers an
        earlier send: every falsy event sends again. */
    method OnIceCandidate(target: PeerConnection, candidate: Value)
      modifies this`sent
      ensures localPeerConnection != null ==>
        sent == old(sent) + Sends(IceFrame(target.onIceCandidate, candidate, localPeerConnection.localDescription))
      ensures localPeerConnection == null ==> sent == old(sent)
    {
      var frame := None;
      if localPeerConnection != null {
        frame := IceFrame(target.onIceCandidate, candidate, localPeerConnection.localDescription);
      }
      match frame
      case Some(f) =>
        var body := Get(f, "body");
        SendWsMessage(if target.onIceCandidate.OfferSender? then SendOffer else SendAnswer, body);
      case None =>
    }

    /** `ws.current.onmessage` (lines 304-318), with JSON.parse's result given
        as `message` and the browser's answer as `producedAnswer`. An answer
        is applied whenever a peer connection exists: there is no state guard. */
    method OnMessage(message: Option<Value>, producedAnswer: Value) returns (r: Incoming)
      requires Valid()
      modifies localPeerConnection
      ensures Valid()
      ensures r == Dispatch(message)
      ensures r.OfferReceived? && localPeerConnection != null ==>
        && localPeerConnection.onIceCandidate == AnswerSender(userId)
        && localPeerConnection.calls == old(localPeerConnection.calls) +
             [SetRemoteDescription(r.offer), CreateAnswer, SetLocalDescription(producedAnswer)]
        && localPeerConnection.remoteDescription == r.offer
        && localPeerConnection.localDescription == producedAnswer
      ensures r.AnswerReceived? && localPeerConnection != null ==>
        && localPeerConnection.calls == old(localPeerConnection.calls) + [SetRemoteDescription(r.answer)]
        && localPeerConnection.remoteDescription == r.answer
        && localPeerConnection.localDescription == old(localPeerConnection.localDescription)
        && localPeerConnection.onIceCandidate == old(localPeerConnection.onIceCandidate)
      ensures !r.OfferReceived? && !r.AnswerReceived? && localPeerConnection != null ==>
        unchanged(localPeerConnection)
    {
      r := Dispatch(message);
      match r
      case OfferReceived(body) =>
        var _ := ReceiveOfferAndSendAnswer(body, producedAnswer);
      case AnswerReceived(body) =>
        if localPeerConnection != null {
          localPeerConnection.SetRemoteDescription(body);
        }
      case _ =>
    }
  }
}
