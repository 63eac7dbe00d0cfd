/** The PeerJS relay's wire format: one JSON frame per WebSocket message,
    `{ type, src?, dst?, payload? }`, and the three frame builders of
    apps/react-webrtc/lib/rtc-peer.ts (sendCandidateMessage, sendOfferMessage,
    sendAnswerMessage). */
module Wire {

  datatype Option<+T> = None | Some(value: T)

  /** A settled JavaScript promise: fulfilled with a value, or rejected with an Error message. */
  datatype Settled<+T> = Resolved(value: T) | Rejected(reason: string)

  /** The value of promise slot `slot` once `decided` has been offered to it:
      a slot that is still pending takes whatever is decided (possibly
      nothing); a settled one keeps its value, since a second resolve or
      reject of a JavaScript promise is a no-op. */
  function Then<T>(slot: Option<T>, decided: Option<T>): Option<T>
  {
    if slot.Some? then slot else decided
  }

  /** RTCSdpType */
  datatype SdpType = OfferSdp | AnswerSdp | PrAnswerSdp | RollbackSdp

  /** RTCSessionDescriptionInit: a `type` tag and an optional SDP text. */
  datatype Description = Description(sdpType: SdpType, sdp: Option<string>)

  /** RTCIceCandidate, reduced to its `candidate` attribute (the SDP
      `candidate` attribute value of section 5.1 of RFC 8839); the other
      fields are opaque and never read here. */
  datatype IceCandidate = IceCandidate(candidate: string)

  /** The `payload` member of a frame. */
  datatype Payload =
    | NoPayload
    | SdpPayload(sdp: Description)                 // { sdp: ... }
    | CandidatePayload(candidate: IceCandidate)    // { candidate: ... }

  datatype Frame = Frame(kind: string, src: Option<string>, dst: Option<string>, payload: Payload)

  // The `type` strings of the relay protocol.
  const OpenTag: string := "OPEN"
  const IdTakenTag: string := "ID-TAKEN"
  const OfferTag: string := "OFFER"
  const AnswerTag: string := "ANSWER"
  const CandidateTag: string := "CANDIDATE"
  const HeartbeatTag: string := "HEARTBEAT"

  /** The two kinds of signalling message a receiver can wait for. */
  datatype SignalKind = OfferSignal | AnswerSignal

  function Tag(k: SignalKind): string
  {
    match k
    case OfferSignal => OfferTag
    case AnswerSignal => AnswerTag
  }

  /** OfferMessage / AnswerMessage: the remote peer's id and its description. */
  datatype SignalMessage = SignalMessage(peerId: string, description: Description)

  /** `{ type: 'HEARTBEAT' }`, the keep-alive frame. */
  function HeartbeatFrame(): (f: Frame)
    ensures f.kind == HeartbeatTag && f.src.None? && f.dst.None? && f.payload.NoPayload?
  {
    Frame(HeartbeatTag, None, None, NoPayload)
  }

  /** sendCandidateMessage: `{ dst, type: 'CANDIDATE', payload: { candidate } }`. */
  function CandidateFrame(peerId: string, candidate: IceCandidate): (f: Frame)
    ensures f.dst == Some(peerId) && f.src == None
    ensures f.kind == CandidateTag && f.payload.CandidatePayload? && f.payload.candidate == candidate
  {
    Frame(CandidateTag, None, Some(peerId), CandidatePayload(candidate))
  }

  /** sendOfferMessage / sendAnswerMessage: `{ dst, type, payload: { sdp } }`. */
  function SignalFrame(k: SignalKind, m: SignalMessage): (f: Frame)
    ensures f.dst == Some(m.peerId) && f.src == None
    ensures f.kind == Tag(k) && f.payload.SdpPayload? && f.payload.sdp == m.description
  {
    Frame(Tag(k), None, Some(m.peerId), SdpPayload(m.description))
  }

  function OfferFrame(peerId: string, offer: Description): Frame
  {
    SignalFrame(OfferSignal, SignalMessage(peerId, offer))
  }

  function AnswerFrame(peerId: string, answer: Description): Frame
  {
    SignalFrame(AnswerSignal, SignalMessage(peerId, answer))
  }

  /** What the relay hands to the destination peer: the frame with `src` set
      to the sender's id and `dst` dropped. (The relay is outside this model;
      this is the behaviour the receivers rely on.) */
  function Relayed(f: Frame, from: string): Frame
  {
    Frame(f.kind, Some(from), None, f.payload)
  }

  /** The message recvOfferMessage / recvAnswerMessage build from a frame of
      their type: `{ peerId: data.src, <offer|answer>: payload.sdp }`. A frame
      without `src` or without an `sdp` payload does not count as one. */
  function Received(k: SignalKind, f: Frame): (r: Option<SignalMessage>)
    ensures r.Some? <==> f.kind == Tag(k) && f.src.Some? && f.payload.SdpPayload?
    ensures r.Some? ==> r.value.peerId == f.src.value && r.value.description == f.payload.sdp
  {
    if f.kind == Tag(k) && f.src.Some? && f.payload.SdpPayload? then
      Some(SignalMessage(f.src.value, f.payload.sdp))
    else
      None
  }

  /** The candidate handleICECandidate passes to addIceCandidate for a frame:
      `payload.candidate` of a CANDIDATE frame, nothing for any other type. */
  function RelayedCandidate(f: Frame): (r: Option<IceCandidate>)
    ensures r.Some? ==> f.kind == CandidateTag
    ensures f.kind == CandidateTag && f.payload.CandidatePayload? ==> r == Some(f.payload.candidate)
  {
    if f.kind == CandidateTag && f.payload.CandidatePayload? then Some(f.payload.candidate) else None
  }

  /** The frame types are pairwise distinct: the two that decide a
      registration differ from each other, from the tags the builders write
      and from the keep-alive's. */
  lemma TagsDistinct()
    ensures OpenTag != IdTakenTag
    ensures OfferTag != OpenTag && OfferTag != IdTakenTag && OfferTag != AnswerTag
    ensures AnswerTag != OpenTag && AnswerTag != IdTakenTag
    ensures CandidateTag != OpenTag && CandidateTag != IdTakenTag
    ensures CandidateTag != OfferTag && CandidateTag != AnswerTag
    ensures HeartbeatTag != OpenTag && HeartbeatTag != IdTakenTag
    ensures HeartbeatTag != OfferTag && HeartbeatTag != AnswerTag && HeartbeatTag != CandidateTag
  {
    assert OfferTag[1] != OpenTag[1];
    assert |OfferTag| != |IdTakenTag|;
    assert |OpenTag| != |IdTakenTag|;
    assert OfferTag[0] != AnswerTag[0];
    assert |AnswerTag| != |OpenTag|;
    assert AnswerTag[0] != IdTakenTag[0];
    assert CandidateTag[0] != OpenTag[0];
    assert |CandidateTag| != |IdTakenTag|;
    assert CandidateTag[0] != OfferTag[0];
    assert CandidateTag[0] != AnswerTag[0];
    assert HeartbeatTag[0] != OpenTag[0];
    assert |HeartbeatTag| != |IdTakenTag|;
    assert HeartbeatTag[0] != OfferTag[0];
    assert HeartbeatTag[0] != AnswerTag[0];
    assert HeartbeatTag[0] != CandidateTag[0];
  }

  /** An OFFER or ANSWER frame built for `m.peerId`, relayed from `from`, is
      received by a receiver of the same kind as the message `{from, description}`
      and ignored by a receiver of the other kind. */
  lemma SignalRoundTrip(k: SignalKind, other: SignalKind, m: SignalMessage, from: string)
    requires other != k
    ensures Received(k, Relayed(SignalFrame(k, m), from)) == Some(SignalMessage(from, m.description))
    ensures Received(other, Relayed(SignalFrame(k, m), from)) == None
  {
    TagsDistinct();
  }

  /** A CANDIDATE frame built for any peer and relayed hands exactly the
      candidate it was built from to addIceCandidate; OFFER and ANSWER frames
      hand nothing. */
  lemma CandidateRoundTrip(peerId: string, c: IceCandidate, from: string, k: SignalKind, m: SignalMessage)
    ensures RelayedCandidate(Relayed(CandidateFrame(peerId, c), from)) == Some(c)
    ensures RelayedCandidate(Relayed(SignalFrame(k, m), from)) == None
  {
    TagsDistinct();
  }
}
