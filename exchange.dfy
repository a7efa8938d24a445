/** How the two sides fit together over the wire: what the client sends is
    what the relay routes, what the relay forwards is what the client
    dispatches, and a two-party call runs through to both descriptions being
    applied on both ends. */
module Exchange {
  import opened Json
  import opened Wire
  import opened Relay
  import opened Negotiation

  /** The frame a client's handler sends on the end-of-candidates event is
      routed by the relay as an offer (or answer) from that user id carrying
      the local description unchanged. */
  lemma ClientFrameRoutes(h: IceHandler, candidate: Value, localDescription: Value)
    requires !h.NoHandler? && !Truthy(candidate)
    ensures IceFrame(h, candidate, localDescription).Some?
    ensures var m := Some(IceFrame(h, candidate, localDescription).value);
      Route(m) == if h.OfferSender? then Offer(Str(h.userId), localDescription)
                  else Answer(Str(h.userId), localDescription)
  {
  }

  /** Every frame the relay forwards after an offer (answer) is dispatched by
      the receiving client as an offer (answer) carrying the sender's sdp. */
  lemma ForwardedFramesDispatch(keys: seq<string>, clients: map<string, Connection>,
                                userId: Value, sdp: Value)
    requires forall i :: 0 <= i < |keys| ==> keys[i] in clients
    ensures forall d :: d in Forward(keys, clients, userId, OfferSdpReceived, sdp) ==>
      Dispatch(Some(d.frame)) == OfferReceived(sdp)
    ensures forall d :: d in Forward(keys, clients, userId, AnswerSdpReceived, sdp) ==>
      Dispatch(Some(d.frame)) == AnswerReceived(sdp)
  {
    ForwardedFrames(keys, clients, userId, OfferSdpReceived, sdp);
    ForwardedFrames(keys, clients, userId, AnswerSdpReceived, sdp);
  }

  /** With the sender's id `Str(id)` registered alongside one other user, an
      offer or answer goes to that other user's connection only. */
  lemma TwoPartyFanOut(id: string, other: string, mine: Connection, theirs: Connection,
                       kind: string, sdp: Value)
    requires id != other
    ensures Forward([other, id], map[other := theirs, id := mine], Str(id), kind, sdp) ==
            [Delivery(theirs, Frame(kind, sdp))]
    ensures Forward([id, other], map[other := theirs, id := mine], Str(id), kind, sdp) ==
            [Delivery(theirs, Frame(kind, sdp))]
  {
    var m := map[other := theirs, id := mine];
    assert [other, id][..1] == [other] && [other][..0] == [];
    assert [id, other][..1] == [id] && [id][..0] == [];
    assert Forward([other], m, Str(id), kind, sdp) == [Delivery(theirs, Frame(kind, sdp))];
    assert Forward([id], m, Str(id), kind, sdp) == [];
  }

  /** An offer reaching an empty registry goes nowhere and registers its sender. */
  lemma FirstOffer(bob: string, bobWs: Connection, offerB: Value)
    ensures Step(Registry(map[], []), bobWs, Some(Frame(SendOffer, IdentifiedSdp(bob, offerB)))) ==
            Effect(Registry(map[bob := bobWs], [bob]), [])
  {
    RouteClientFrame(SendOffer, bob, offerB);
  }

  /** An offer from a second user goes to the first one only and registers
      the second user after the first. */
  lemma SecondOffer(alice: string, bob: string, aliceWs: Connection, bobWs: Connection, offerA: Value)
    requires alice != bob
    ensures Step(Registry(map[bob := bobWs], [bob]), aliceWs, Some(Frame(SendOffer, IdentifiedSdp(alice, offerA)))) ==
            Effect(Registry(map[bob := bobWs, alice := aliceWs], [bob, alice]),
                   [Delivery(bobWs, Frame(OfferSdpReceived, offerA))])
  {
    RouteClientFrame(SendOffer, alice, offerA);
    assert Forward([bob], map[bob := bobWs], Str(alice), OfferSdpReceived, offerA) ==
           [Delivery(bobWs, Frame(OfferSdpReceived, offerA))] by {
      assert [bob][..0] == [];
    }
  }

  /** With two users registered, an answer goes to the other user only and
      the registry stays as it is. */
  lemma AnswerBack(alice: string, bob: string, aliceWs: Connection, bobWs: Connection, answerB: Value)
    requires alice != bob
    ensures var reg := Registry(map[bob := bobWs, alice := aliceWs], [bob, alice]);
      Step(reg, bobWs, Some(Frame(SendAnswer, IdentifiedSdp(bob, answerB)))) ==
      Effect(reg, [Delivery(aliceWs, Frame(AnswerSdpReceived, answerB))])
  {
    RouteClientFrame(SendAnswer, bob, answerB);
    TwoPartyFanOut(bob, alice, bobWs, aliceWs, AnswerSdpReceived, answerB);
    assert map[alice := aliceWs, bob := bobWs] == map[bob := bobWs, alice := aliceWs];
  }

  /** A third user's offer is broadcast to both registered users. */
  lemma ThirdOffer(alice: string, bob: string, carol: string, aliceWs: Connection, bobWs: Connection,
                   carolWs: Connection, offerC: Value)
    requires alice != bob && carol != alice && carol != bob
    ensures var reg := Registry(map[bob := bobWs, alice := aliceWs], [bob, alice]);
      Step(reg, carolWs, Some(Frame(SendOffer, IdentifiedSdp(carol, offerC)))).deliveries ==
      [Delivery(bobWs, Frame(OfferSdpReceived, offerC)), Delivery(aliceWs, Frame(OfferSdpReceived, offerC))]
  {
    RouteClientFrame(SendOffer, carol, offerC);
    var keys, m := [bob, alice], map[bob := bobWs, alice := aliceWs];
    assert keys[..1] == [bob] && keys[..1][..0] == [];
    assert Forward([bob], m, Str(carol), OfferSdpReceived, offerC) == [Delivery(bobWs, Frame(OfferSdpReceived, offerC))];
    assert Forward(keys, map[bob := bobWs, alice := aliceWs], Str(carol), OfferSdpReceived, offerC) ==
           [Delivery(bobWs, Frame(OfferSdpReceived, offerC)), Delivery(aliceWs, Frame(OfferSdpReceived, offerC))];
  }

  /** The offering client: it connects, sends its offer with its id on the
      end-of-candidates event, and applies the answer the relay forwards. */
  method OffererSession(id: string, offer: Value, answer: Value, tracks: seq<Track>)
    returns (sent: seq<Value>, local: Value, remote: Value)
    ensures sent == [Frame(SendOffer, IdentifiedSdp(id, offer))]
    ensures local == offer && remote == answer
  {
    var s := new Session();
    s.OnOpen(id);
    s.AttachLocalStream(tracks);
    var ok := s.StartConnection(offer);
    var pc := s.localPeerConnection;
    s.OnIceCandidate(pc, Null);
    var incoming := s.OnMessage(Some(Frame(AnswerSdpReceived, answer)), Null);
    sent, local, remote := s.sent, pc.localDescription, pc.remoteDescription;
  }

  /** The answering client: it connected first (its own offer reached nobody),
      receives the other side's offer, and on its next end-of-candidates event
      sends an answer, not another offer. */
  method AnswererSession(id: string, ownOffer: Value, offer: Value, answer: Value, tracks: seq<Track>)
    returns (sent: seq<Value>, local: Value, remote: Value)
    ensures sent == [Frame(SendOffer, IdentifiedSdp(id, ownOffer)), Frame(SendAnswer, IdentifiedSdp(id, answer))]
    ensures local == answer && remote == offer
  {
    var s := new Session();
    s.OnOpen(id);
    s.AttachLocalStream(tracks);
    var ok := s.StartConnection(ownOffer);
    var pc := s.localPeerConnection;
    s.OnIceCandidate(pc, Null);
    var incoming := s.OnMessage(Some(Frame(OfferSdpReceived, offer)), answer);
    s.OnIceCandidate(pc, Null);
    sent, local, remote := s.sent, pc.localDescription, pc.remoteDescription;
  }

  /** Nothing remembers that a description was sent: a second end-of-candidates
      event sends the offer again, and a second answer is applied again. */
  method RepeatedEvents(offer: Value, answer1: Value, answer2: Value, tracks: seq<Track>)
    returns (sent: seq<Value>, remote: Value, calls: seq<PcCall>)
    ensures sent == [Frame(SendOffer, IdentifiedSdp("alice", offer)),
                     Frame(SendOffer, IdentifiedSdp("alice", offer))]
    ensures remote == answer2
    ensures calls == AddTrackCalls(tracks) +
      [CreateOffer, SetLocalDescription(offer), SetRemoteDescription(answer1), SetRemoteDescription(answer2)]
  {
    var alice := new Session();
    alice.OnOpen("alice");
    alice.AttachLocalStream(tracks);
    var ok := alice.StartConnection(offer);
    var pc := alice.localPeerConnection;
    alice.OnIceCandidate(pc, Null);
    alice.OnIceCandidate(pc, Null);
    var incoming := alice.OnMessage(Some(Frame(AnswerSdpReceived, answer1)), Null);
    incoming := alice.OnMessage(Some(Frame(AnswerSdpReceived, answer2)), Null);
    sent, remote, calls := alice.sent, pc.remoteDescription, pc.calls;
  }
}
