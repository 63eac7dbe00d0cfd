/** What the listeners that apps/react-webrtc/lib/rtc-peer.ts attaches to the
    relay socket make of the socket's events, as functions of the ordered
    events they have been delivered:
    - createPeerWebSocket's `awaitPeerOpen` and `error` listeners (the
      registration promise),
    - recvOfferMessage / recvAnswerMessage (a promise for the first OFFER or
      ANSWER, rejected on `close`),
    - handleICECandidate (every CANDIDATE frame's candidate goes to
      addIceCandidate). */
module Handshake {
  import opened Wire
  import opened Trace

  /** The events a WebSocket dispatches, plus the keep-alive interval's tick. */
  datatype SocketEvent = Opened | Message(frame: Frame) | Errored | Closed | Tick

  /** The outcome of createPeerWebSocket's promise: resolved with the socket,
      or rejected. */
  datatype Registration = Registered | Refused(reason: string)

  const IdTakenError: string := "id taken"
  /** The `error` listener is `reject` itself, so the promise is rejected with
      the error event; the model names that reason "error". */
  const SocketError: string := "error"
  const SocketClosedError: string := "socket closed"

  /** What one event would settle a pending registration with. An `OPEN` frame
      resolves it (the fall-through into the `ID-TAKEN` case then rejects a
      promise that has already resolved, which does nothing); `ID-TAKEN` and
      `error` reject it; every other frame type and event is ignored. */
  function Decisive(e: SocketEvent): (r: Option<Registration>)
    ensures r == Some(Registered) <==> IsOpenFrame(e)
    ensures r.Some? && r.value.Refused? <==> e.Errored? || (e.Message? && e.frame.kind == IdTakenTag)
  {
    match e
    case Message(f) =>
      if f.kind == OpenTag then Some(Registered)
      else if f.kind == IdTakenTag then Some(Refused(IdTakenError))
      else None
    case Errored => Some(Refused(SocketError))
    case _ => None
  }

  function RegistrationOf(evs: seq<SocketEvent>): Option<Registration>
  {
    First(Decisive, evs)
  }

  predicate IsOpenFrame(e: SocketEvent)
  {
    e.Message? && e.frame.kind == OpenTag
  }

  /** The handshake resolves exactly when its first decisive event is an `OPEN`
      frame. */
  lemma RegisteredIff(evs: seq<SocketEvent>)
    ensures RegistrationOf(evs) == Some(Registered) <==>
      exists i :: 0 <= i < |evs| && IsOpenFrame(evs[i]) && forall j :: 0 <= j < i ==> Decisive(evs[j]).None?
  {
    FirstIff(Decisive, evs, Registered);
    assert forall i :: 0 <= i < |evs| ==> (Decisive(evs[i]) == Some(Registered) <==> IsOpenFrame(evs[i]));
  }

  /** The handshake is rejected exactly when its first decisive event is an
      `ID-TAKEN` frame ("id taken") or an `error` event. */
  lemma RefusedIff(evs: seq<SocketEvent>, reason: string)
    ensures RegistrationOf(evs) == Some(Refused(reason)) <==>
      exists i :: 0 <= i < |evs| &&
        ((evs[i].Message? && evs[i].frame.kind == IdTakenTag && reason == IdTakenError) ||
         (evs[i].Errored? && reason == SocketError)) &&
        forall j :: 0 <= j < i ==> Decisive(evs[j]).None?
  {
    FirstIff(Decisive, evs, Refused(reason));
    TagsDistinct();
  }

  /** Settle-once: the registration outcome never changes once decided, whatever
      frames, errors or closes follow. */
  lemma RegistrationSettlesOnce(s: seq<SocketEvent>, t: seq<SocketEvent>)
    requires RegistrationOf(s).Some?
    ensures RegistrationOf(s + t) == RegistrationOf(s)
  {
    FirstSettled(Decisive, s, t);
  }

  /** What one event settles recvOfferMessage / recvAnswerMessage with: the
      first frame of the awaited type resolves it with `{peerId: src, sdp}`
      (whatever its `src`); `close` rejects it with "socket closed". */
  function Delivery(k: SignalKind, e: SocketEvent): (r: Option<Settled<SignalMessage>>)
    ensures r.Some? && r.value.Rejected? <==> e.Closed?
    ensures r.Some? && r.value.Resolved? ==>
      e.Message? && e.frame.kind == Tag(k) && e.frame.src == Some(r.value.value.peerId)
    ensures r.None? <==> !e.Closed? && !(e.Message? && e.frame.kind == Tag(k) && e.frame.src.Some? && e.frame.payload.SdpPayload?)
  {
    match e
    case Message(f) =>
      (match Received(k, f)
       case None => None
       case Some(m) => Some(Resolved(m)))
    case Closed => Some(Rejected(SocketClosedError))
    case _ => None
  }

  function ReceivedOf(k: SignalKind, evs: seq<SocketEvent>): Option<Settled<SignalMessage>>
  {
    First(e => Delivery(k, e), evs)
  }

  /** One more event for a receiver: a pending receiver takes that event's
      decision, a settled one ignores it. */
  lemma ReceivedAppend(k: SignalKind, s: seq<SocketEvent>, e: SocketEvent)
    ensures ReceivedOf(k, s + [e]) == Then(ReceivedOf(k, s), Delivery(k, e))
  {
    FirstAppend(e => Delivery(k, e), s, e);
  }

  /** The receiver resolves with `m` exactly when the first event that concerns
      it is a frame of its type carrying `m`: no `close` came before it, and
      the sender's id is taken from `src` without comparing it to anything. */
  lemma ReceivedIff(k: SignalKind, evs: seq<SocketEvent>, m: SignalMessage)
    ensures ReceivedOf(k, evs) == Some(Resolved(m)) <==>
      exists i :: 0 <= i < |evs| && evs[i].Message? && Received(k, evs[i].frame) == Some(m) &&
        forall j :: 0 <= j < i ==> !evs[j].Closed? && !(evs[j].Message? && Received(k, evs[j].frame).Some?)
  {
    var d := e => Delivery(k, e);
    FirstIff(d, evs, Resolved(m));
    assert forall i :: 0 <= i < |evs| ==>
      (d(evs[i]) == Some(Resolved(m)) <==> evs[i].Message? && Received(k, evs[i].frame) == Some(m));
    assert forall j :: 0 <= j < |evs| ==>
      (d(evs[j]).None? <==> !evs[j].Closed? && !(evs[j].Message? && Received(k, evs[j].frame).Some?));
  }

  /** A `close` before any frame of the awaited type rejects the receiver with
      "socket closed", and that is the only way it is rejected. */
  lemma ClosedRejectsIff(k: SignalKind, evs: seq<SocketEvent>, reason: string)
    ensures ReceivedOf(k, evs) == Some(Rejected(reason)) <==>
      reason == SocketClosedError &&
      exists i :: 0 <= i < |evs| && evs[i].Closed? &&
        forall j :: 0 <= j < i ==> !(evs[j].Message? && Received(k, evs[j].frame).Some?)
  {
    if ReceivedOf(k, evs) == Some(Rejected(reason)) {
      RejectedByClose(k, evs, reason);
    }
    if reason == SocketClosedError &&
       exists i :: 0 <= i < |evs| && evs[i].Closed? &&
         forall j :: 0 <= j < i ==> !(evs[j].Message? && Received(k, evs[j].frame).Some?) {
      var i :| 0 <= i < |evs| && evs[i].Closed? &&
        forall j :: 0 <= j < i ==> !(evs[j].Message? && Received(k, evs[j].frame).Some?);
      CloseRejects(k, evs, i);
    }
  }

  /** A rejected receiver saw a `close` before any frame of its type. */
  lemma RejectedByClose(k: SignalKind, evs: seq<SocketEvent>, reason: string)
    requires ReceivedOf(k, evs) == Some(Rejected(reason))
    ensures reason == SocketClosedError
    ensures exists i ::
              0 <= i < |evs| && evs[i].Closed? &&
              forall j :: 0 <= j < i ==> !(evs[j].Message? && Received(k, evs[j].frame).Some?)
  {
    var d := e => Delivery(k, e);
    FirstIff(d, evs, Rejected(reason));
    var i :| 0 <= i < |evs| && d(evs[i]) == Some(Rejected(reason)) &&
      forall j :: 0 <= j < i ==> d(evs[j]).None?;
    assert evs[i].Closed?;
    forall j | 0 <= j < i ensures !(evs[j].Message? && Received(k, evs[j].frame).Some?) {
      assert d(evs[j]).None?;
    }
  }

  /** A `close` at `i`, with no frame of the awaited type before it, rejects
      the receiver with "socket closed". */
  lemma CloseRejects(k: SignalKind, evs: seq<SocketEvent>, i: nat)
    requires i < |evs| && evs[i].Closed?
    requires forall j :: 0 <= j < i ==> !(evs[j].Message? && Received(k, evs[j].frame).Some?)
    ensures ReceivedOf(k, evs) == Some(Rejected(SocketClosedError))
  {
    var d := e => Delivery(k, e);
    FirstIff(d, evs, Rejected(SocketClosedError));
    var i0 := FirstClose(evs, i);
    assert d(evs[i0]) == Some(Rejected(SocketClosedError));
    forall j | 0 <= j < i0 ensures d(evs[j]).None? {
      assert !evs[j].Closed?;
      assert !(evs[j].Message? && Received(k, evs[j].frame).Some?);
    }
  }

  /** The earliest `close` at or before index `i`. */
  ghost function FirstClose(evs: seq<SocketEvent>, i: nat): (i0: nat)
    requires i < |evs| && evs[i].Closed?
    ensures i0 <= i && evs[i0].Closed?
    ensures forall j :: 0 <= j < i0 ==> !evs[j].Closed?
  {
    if exists j :: 0 <= j < i && evs[j].Closed? then
      var j :| 0 <= j < i && evs[j].Closed?;
      FirstClose(evs, j)
    else i
  }

  /** Settle-once for the receivers: frames after the first match, and a
      later `close`, change nothing. */
  lemma ReceivedSettlesOnce(k: SignalKind, s: seq<SocketEvent>, t: seq<SocketEvent>)
    requires ReceivedOf(k, s).Some?
    ensures ReceivedOf(k, s + t) == ReceivedOf(k, s)
  {
    FirstSettled(e => Delivery(k, e), s, t);
  }

  /** The candidate handleICECandidate hands to addIceCandidate for one event. */
  function Relay(e: SocketEvent): (r: Option<IceCandidate>)
    ensures r.Some? ==> e.Message? && e.frame.kind == CandidateTag
    ensures e.Message? && e.frame.kind == CandidateTag && e.frame.payload.CandidatePayload? ==> r == Some(e.frame.payload.candidate)
  {
    if e.Message? then RelayedCandidate(e.frame) else None
  }

  /** Every candidate handleICECandidate hands to addIceCandidate, in order. */
  function RelayedOf(evs: seq<SocketEvent>): (r: seq<IceCandidate>)
    ensures |r| <= |evs|
  {
    if evs == [] then []
    else
      var init := RelayedOf(evs[..|evs| - 1]);
      match Relay(evs[|evs| - 1])
      case None => init
      case Some(c) => init + [c]
  }

  /** The relay as seen from the other side: a run of CANDIDATE frames that a
      peer built for this one (sendCandidateMessage) reaches addIceCandidate
      as exactly the sent candidates, in order. */
  lemma {:induction false} RelayedCandidates(cs: seq<IceCandidate>, peerId: string, from: string)
    ensures RelayedOf(seq(|cs|, i requires 0 <= i < |cs| => Message(Relayed(CandidateFrame(peerId, cs[i]), from)))) == cs
  {
    var evs := seq(|cs|, i requires 0 <= i < |cs| => Message(Relayed(CandidateFrame(peerId, cs[i]), from)));
    if cs != [] {
      var init := cs[..|cs| - 1];
      assert evs[..|evs| - 1] == seq(|init|, i requires 0 <= i < |init| => Message(Relayed(CandidateFrame(peerId, init[i]), from)));
      RelayedCandidates(init, peerId, from);
      assert Relay(evs[|evs| - 1]) == Some(cs[|cs| - 1]);
      assert init + [cs[|cs| - 1]] == cs;
    }
  }

  /** handleICECandidate ignores every event that is not a CANDIDATE frame. */
  lemma RelayIgnores(s: seq<SocketEvent>, e: SocketEvent)
    requires !(e.Message? && e.frame.kind == CandidateTag)
    ensures RelayedOf(s + [e]) == RelayedOf(s)
  {
    assert (s + [e])[..|s|] == s;
  }
}
