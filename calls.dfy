/** The two role scripts of apps/react-webrtc/lib/rtc-peer.ts, makeCallIn
    (responder) and makeCallOut (initiator), run against an ordered trace of
    browser events. Each `await` is a loop that hands the next event to the
    listeners attached at that point until the awaited promise settles; when
    the trace runs out first the script is still waiting (`Pending`).
    createAnswer and createOffer are awaited too, but their results are
    parameters and no event is delivered while they run. */
module Calls {
  import opened Wire
  import opened Trace
  import opened Handshake
  import opened Sdp
  import opened RtcPeer

  /** An event the browser dispatches to the page: one on the relay socket of
      the script that is running, an `icecandidate` event on the peer
      connection (`None` is the null end-of-gathering sentinel), or a
      `datachannel` event on the peer connection. */
  datatype Event =
    | FromSocket(socketEvent: SocketEvent)
    | LocalCandidate(candidate: Option<IceCandidate>)
    | DataChannelEvent(channel: DataChannel)

  /** What a script's await ends with: still waiting, the promise (and so the
      script) rejected with an Error message, or the script ran to its end. */
  datatype CallResult = Pending | Failed(reason: string) | Done

  function SocketPart(e: Event): seq<SocketEvent>
  {
    if e.FromSocket? then [e.socketEvent] else []
  }

  function CandidatePart(e: Event): seq<Option<IceCandidate>>
  {
    if e.LocalCandidate? then [e.candidate] else []
  }

  /** The socket events among `events[from..to]`, in order. */
  function SocketsBetween(events: seq<Event>, from: nat, to: nat): seq<SocketEvent>
    requires from <= to <= |events|
  {
    if to == from then [] else SocketsBetween(events, from, to - 1) + SocketPart(events[to - 1])
  }

  /** The `icecandidate` events among `events[from..to]`, in order. */
  function CandidatesBetween(events: seq<Event>, from: nat, to: nat): seq<Option<IceCandidate>>
    requires from <= to <= |events|
  {
    if to == from then [] else CandidatesBetween(events, from, to - 1) + CandidatePart(events[to - 1])
  }

  lemma RelayedSnoc(s: seq<SocketEvent>, e: SocketEvent)
    ensures RelayedOf(s + [e]) == RelayedOf(s) + (if Relay(e).Some? then [Relay(e).value] else [])
  {
    assert (s + [e])[..|s|] == s;
  }

  lemma AddedSnoc(cs: seq<IceCandidate>, c: IceCandidate)
    ensures AddedCandidates(cs + [c]) == AddedCandidates(cs) + [IceCandidateAdded(c)]
  {
    assert (cs + [c])[..|cs|] == cs;
  }

  lemma PresentSnoc(cs: seq<Option<IceCandidate>>, c: IceCandidate)
    ensures Present(cs + [Some(c)]) == Present(cs) + [c]
  {
    assert (cs + [Some(c)])[..|cs|] == cs;
  }

  lemma DeliverOne(k: SignalKind, x: Option<Settled<SignalMessage>>, e: SocketEvent)
    ensures DeliverAll([Receiver(k, x)], e) == [Receiver(k, Then(x, Delivery(k, e)))]
  {
  }

  /** The gatherer's state `(resolved, candidates)` after the `icecandidate`
      events `cs`. */
  predicate Gathering(resolved: bool, candidates: seq<IceCandidate>, cs: seq<Option<IceCandidate>>)
  {
    (resolved <==> GatheredOf(cs).Some?) &&
    (resolved ==> candidates == GatheredOf(cs).value) &&
    (!resolved ==> candidates == Present(cs))
  }

  /** The state `(resolved, candidates)` of recvICECandidate's gatherer
      after one more event: the null sentinel resolves it, a candidate is
      collected, anything else leaves it alone. */
  function GatherOn(resolved: bool, candidates: seq<IceCandidate>, e: Event): (bool, seq<IceCandidate>)
  {
    match e
    case LocalCandidate(None) => (true, candidates)
    case LocalCandidate(Some(c)) => (resolved, candidates + [c])
    case _ => (resolved, candidates)
  }

  /** recvICECandidate's listener keeps the gatherer's state in step with
      the `icecandidate` events delivered to it. */
  lemma GatheringStep(candidates: seq<IceCandidate>, cs: seq<Option<IceCandidate>>, e: Event,
                      resolved': bool, candidates': seq<IceCandidate>)
    requires Gathering(false, candidates, cs)
    requires (resolved', candidates') == GatherOn(false, candidates, e)
    ensures Gathering(resolved', candidates', cs + CandidatePart(e))
  {
    if e.LocalCandidate? {
      GatheredAppend(cs, e.candidate);
      if e.candidate.Some? {
        PresentSnoc(cs, e.candidate.value);
      }
    } else {
      assert cs + CandidatePart(e) == cs;
    }
  }

  /** handleICECandidate's addIceCandidate calls grow by the candidate of
      one more socket event, if it carries one. */
  lemma RelayStep(ss: seq<SocketEvent>, e: Event)
    ensures AddedCandidates(RelayedOf(ss + SocketPart(e))) == AddedCandidates(RelayedOf(ss)) + AddedBy(e)
  {
    if e.FromSocket? {
      RelayedSnoc(ss, e.socketEvent);
      if Relay(e.socketEvent).Some? {
        AddedSnoc(RelayedOf(ss), Relay(e.socketEvent).value);
      }
    } else {
      assert ss + SocketPart(e) == ss;
    }
  }

  /** The addIceCandidate call handleICECandidate makes for one event. */
  function AddedBy(e: Event): seq<PeerCall>
  {
    if e.FromSocket? && Relay(e.socketEvent).Some? then [IceCandidateAdded(Relay(e.socketEvent).value)] else []
  }

  /** The addIceCandidate calls for the candidates relayed by the socket
      events among `events[from..to]`. */
  function RelayedBetween(events: seq<Event>, from: nat, to: nat): seq<PeerCall>
    requires from <= to <= |events|
  {
    AddedCandidates(RelayedOf(SocketsBetween(events, from, to)))
  }

  lemma RelayAdvance(events: seq<Event>, start: nat, i: nat)
    requires start <= i < |events|
    ensures RelayedBetween(events, start, i + 1) == RelayedBetween(events, start, i) + AddedBy(events[i])
    ensures CandidatesBetween(events, start, i + 1) == CandidatesBetween(events, start, i) + CandidatePart(events[i])
  {
    RelayStep(SocketsBetween(events, start, i), events[i]);
  }

  /** The addIceCandidate calls made so far, one event further. */
  lemma CallsAdvance(events: seq<Event>, start: nat, i: nat, base: seq<PeerCall>, before: seq<PeerCall>)
    requires start <= i < |events|
    requires CallsRelayed(before, base, events, start, i)
    ensures CallsRelayed(before + AddedBy(events[i]), base, events, start, i + 1)
  {
    var sofar, added := RelayedBetween(events, start, i), AddedBy(events[i]);
    assert RelayedBetween(events, start, i + 1) == sofar + added by {
      RelayAdvance(events, start, i);
    }
    assert before + added == base + (sofar + added);
  }

  /** The keep-alive of a socket from `k0`, over the socket events among
      `events[start..i]`. */
  ghost predicate KeptAlive(k: KeepAlive, k0: KeepAlive, events: seq<Event>, start: nat, i: nat)
    requires start <= i <= |events|
  {
    k == KeepAliveOver(k0, SocketsBetween(events, start, i))
  }

  /** The keep-alive, one event further: a socket event moves it on. */
  lemma KeepAliveAdvance(k: KeepAlive, k0: KeepAlive, events: seq<Event>, start: nat, i: nat)
    requires start <= i < |events| && KeptAlive(k, k0, events, start, i)
    ensures KeptAlive(if events[i].FromSocket? then KeepAliveAfter(k, events[i].socketEvent) else k, k0, events, start, i + 1)
  {
    var ss := SocketsBetween(events, start, i);
    if events[i].FromSocket? {
      assert (ss + [events[i].socketEvent])[..|ss|] == ss;
    } else {
      assert SocketsBetween(events, start, i + 1) == ss;
    }
  }

  /** recvICECandidate's gatherer and handleICECandidate's calls, one event
      further while gathering has not completed. */
  lemma GatherAdvance(events: seq<Event>, start: nat, i: nat, base: seq<PeerCall>, before: seq<PeerCall>,
                      candidates: seq<IceCandidate>)
    requires start <= i < |events|
    requires GatheredSoFar(false, candidates, events, start, i)
    requires CallsRelayed(before, base, events, start, i)
    ensures GatheredSoFar(GatherOn(false, candidates, events[i]).0, GatherOn(false, candidates, events[i]).1, events, start, i + 1)
    ensures CallsRelayed(before + AddedBy(events[i]), base, events, start, i + 1)
  {
    var (resolved', candidates') := GatherOn(false, candidates, events[i]);
    CallsAdvance(events, start, i, base, before);
    RelayAdvance(events, start, i);
    GatheringStep(candidates, CandidatesBetween(events, start, i), events[i], resolved', candidates');
  }

  /** The outcome of createPeerWebSocket after the first `n` events. */
  function RegistrationAt(events: seq<Event>, n: nat): Option<Registration>
    requires n <= |events|
  {
    RegistrationOf(SocketsBetween(events, 0, n))
  }

  /** The outcome of a receiver of kind `k` attached before event `from`,
      after the events up to `to`. */
  function ReceivedBetween(k: SignalKind, events: seq<Event>, from: nat, to: nat): Option<Settled<SignalMessage>>
    requires from <= to <= |events|
  {
    ReceivedOf(k, SocketsBetween(events, from, to))
  }

  /** The outcome of recvICECandidate attached before event `from`, after
      the events up to `to`. */
  function GatheredBetween(events: seq<Event>, from: nat, to: nat): Option<seq<IceCandidate>>
    requires from <= to <= |events|
  {
    GatheredOf(CandidatesBetween(events, from, to))
  }

  /** One event handed to the listeners attached at that point: the socket's
      own listeners (and handleICECandidate's, when attached, whose candidate
      goes to addIceCandidate), the peer connection's forwarding listeners,
      and recvICECandidate's gatherer `g` when there is one. No script
      listens for `datachannel` events. */
  method Step(sock: PeerSocket, peer: PeerConnection, g: Gatherer?, e: Event)
    requires sock.Valid() && sock !in peer.ForwardSockets()
    modifies sock`readyState, sock`heartbeat, sock`keepAlives, sock`awaitingOpen, sock`registration, sock`receivers
    modifies peer`calls, peer.ForwardSockets()`calls, g
    ensures sock.Valid()
    ensures sock.registration == RegistrationAfter(old(sock.registration), e)
    ensures sock.receivers == ReceiversAfter(old(sock.receivers), e)
    ensures peer.calls == old(peer.calls) + (if sock.relaying then AddedBy(e) else [])
    ensures g != null ==> (g.resolved, g.candidates) == GatherOn(old(g.resolved), old(g.candidates), e)
    ensures e.FromSocket? ==>
      sock.readyState == ReadyStateAfter(old(sock.readyState), e.socketEvent) &&
      sock.heartbeat == HeartbeatAfter(old(sock.heartbeat), e.socketEvent) &&
      sock.keepAlives == old(sock.keepAlives) + KeepAliveSent(old(sock.heartbeat), old(sock.readyState), e.socketEvent) &&
      sock.awaitingOpen == AwaitingOpenAfter(old(sock.awaitingOpen), e.socketEvent)
    ensures !e.FromSocket? ==>
      sock.readyState == old(sock.readyState) && sock.heartbeat == old(sock.heartbeat) &&
      sock.keepAlives == old(sock.keepAlives) && sock.awaitingOpen == old(sock.awaitingOpen)
    ensures forall s :: s in old(peer.ForwardSockets()) ==>
      s.calls == old(s.calls) + (if e.LocalCandidate? then Forwarded(peer.forwarders, s, e.candidate) else [])
  {
    match e
    case FromSocket(se) =>
      var relayed := sock.OnEvent(se);
      if relayed.Some? {
        peer.AddIceCandidate(relayed.value);
      }
    case LocalCandidate(c) =>
      peer.OnIceCandidate(c);
      if g != null {
        g.OnIceCandidate(c);
      }
    case DataChannelEvent(_) =>
  }

  /** `await createPeerWebSocket(...)`: events are delivered until the
      registration settles. */
  method AwaitRegistration(sock: PeerSocket, peer: PeerConnection, events: seq<Event>) returns (i: nat)
    requires sock.Valid() && sock !in peer.ForwardSockets()
    requires sock.registration.None? && sock.receivers == [] && !sock.relaying
    modifies sock`readyState, sock`heartbeat, sock`keepAlives, sock`awaitingOpen, sock`registration, sock`receivers
    modifies peer`calls, peer.ForwardSockets()`calls
    ensures i <= |events| && sock.Valid()
    ensures sock.registration == RegistrationAt(events, i)
    ensures sock.registration.None? ==> i == |events|
    ensures sock.registration.Some? ==> 0 < i && RegistrationAt(events, i - 1).None?
    ensures sock.receivers == [] && peer.calls == old(peer.calls)
    ensures KeptAlive(sock.KeepAliveState(), old(sock.KeepAliveState()), events, 0, i)
  {
    i := 0;
    assert SocketsBetween(events, 0, i) == [];
    while i < |events| && sock.registration.None?
      invariant i <= |events| && sock.Valid() && sock !in peer.ForwardSockets()
      invariant sock.registration == RegistrationAt(events, i)
      invariant sock.registration.Some? ==> 0 < i && RegistrationAt(events, i - 1).None?
      invariant sock.receivers == [] && peer.calls == old(peer.calls)
      invariant KeptAlive(sock.KeepAliveState(), old(sock.KeepAliveState()), events, 0, i)
    {
      RegistrationStep(sock, peer, events, i, old(peer.calls), old(sock.KeepAliveState()));
      i := i + 1;
    }
  }

  /** The registration after one more event: a socket event may settle it,
      once. */
  function RegistrationAfter(registration: Option<Registration>, e: Event): Option<Registration>
  {
    if e.FromSocket? then Then(registration, Decisive(e.socketEvent)) else registration
  }

  /** The receivers after one more event: a socket event is delivered to
      each of them. */
  function ReceiversAfter(receivers: seq<Receiver>, e: Event): seq<Receiver>
  {
    if e.FromSocket? then DeliverAll(receivers, e.socketEvent) else receivers
  }

  /** While registering, the next event may settle the registration and
      reaches no receiver. */
  lemma RegistrationAdvance(events: seq<Event>, i: nat)
    requires i < |events|
    ensures RegistrationAfter(RegistrationAt(events, i), events[i]) == RegistrationAt(events, i + 1)
    ensures ReceiversAfter([], events[i]) == []
  {
    var e := events[i];
    if e.FromSocket? {
      FirstAppend(Decisive, SocketsBetween(events, 0, i), e.socketEvent);
    } else {
      assert SocketsBetween(events, 0, i + 1) == SocketsBetween(events, 0, i);
    }
  }

  /** One event delivered while registering, as the loop of
      AwaitRegistration does it. */
  method RegistrationStep(sock: PeerSocket, peer: PeerConnection, events: seq<Event>, i: nat,
                          ghost calls: seq<PeerCall>, ghost k0: KeepAlive)
    requires i < |events| && sock.Valid() && sock !in peer.ForwardSockets()
    requires sock.registration == RegistrationAt(events, i) && sock.receivers == [] && !sock.relaying
    requires peer.calls == calls && KeptAlive(sock.KeepAliveState(), k0, events, 0, i)
    modifies sock`readyState, sock`heartbeat, sock`keepAlives, sock`awaitingOpen, sock`registration, sock`receivers
    modifies peer`calls, peer.ForwardSockets()`calls
    ensures sock.Valid() && sock.registration == RegistrationAt(events, i + 1)
    ensures sock.receivers == [] && peer.calls == calls
    ensures KeptAlive(sock.KeepAliveState(), k0, events, 0, i + 1)
  {
    KeepAliveAdvance(sock.KeepAliveState(), k0, events, 0, i);
    RegistrationAdvance(events, i);
    Step(sock, peer, null, events[i]);
  }

  /** `await recv<Offer|Answer>Message(socket)` on a registered socket:
      the receiver is attached and events are delivered, from index `start`,
      until it settles. */
  method AwaitSignal(sock: PeerSocket, peer: PeerConnection, k: SignalKind, events: seq<Event>, start: nat)
    returns (i: nat)
    requires start <= |events|
    requires sock.Valid() && sock !in peer.ForwardSockets()
    requires sock.registration.Some? && sock.receivers == [] && !sock.relaying
    modifies sock`readyState, sock`heartbeat, sock`keepAlives, sock`awaitingOpen, sock`registration, sock`receivers
    modifies peer`calls, peer.ForwardSockets()`calls
    ensures start <= i <= |events| && sock.Valid()
    ensures sock.receivers == [Receiver(k, ReceivedBetween(k, events, start, i))]
    ensures ReceivedBetween(k, events, start, i).None? ==> i == |events|
    ensures ReceivedBetween(k, events, start, i).Some? ==> start < i && ReceivedBetween(k, events, start, i - 1).None?
    ensures sock.registration == old(sock.registration) && peer.calls == old(peer.calls)
    ensures KeptAlive(sock.KeepAliveState(), old(sock.KeepAliveState()), events, start, i)
  {
    sock.Receive(k);
    i := start;
    assert SocketsBetween(events, start, i) == [];
    while i < |events| && sock.receivers[0].result.None?
      invariant start <= i <= |events| && sock.Valid() && sock !in peer.ForwardSockets()
      invariant ReceivedSoFar(sock.receivers, k, events, start, i)
      invariant sock.registration == old(sock.registration) && peer.calls == old(peer.calls)
      invariant KeptAlive(sock.KeepAliveState(), old(sock.KeepAliveState()), events, start, i)
    {
      i := SignalStep(sock, peer, k, events, start, i, old(sock.registration), old(peer.calls), old(sock.KeepAliveState()));
    }
  }

  /** The receiver of kind `k` after the events from `start` to `i`, having
      settled no earlier than at the last of them. */
  ghost predicate ReceivedSoFar(receivers: seq<Receiver>, k: SignalKind, events: seq<Event>, start: nat, i: nat)
    requires start <= i <= |events|
  {
    receivers == [Receiver(k, ReceivedBetween(k, events, start, i))] &&
    (ReceivedBetween(k, events, start, i).Some? ==> start < i && ReceivedBetween(k, events, start, i - 1).None?)
  }

  /** One event delivered while waiting for an OFFER or ANSWER, as the loop
      of AwaitSignal does it. */
  method SignalStep(sock: PeerSocket, peer: PeerConnection, k: SignalKind, events: seq<Event>, start: nat, i: nat,
                    ghost registration: Option<Registration>, ghost calls: seq<PeerCall>, ghost k0: KeepAlive)
    returns (next: nat)
    requires start <= i < |events| && sock.Valid() && sock !in peer.ForwardSockets()
    requires ReceivedSoFar(sock.receivers, k, events, start, i) && ReceivedBetween(k, events, start, i).None?
    requires !sock.relaying && registration.Some? && sock.registration == registration
    requires peer.calls == calls && KeptAlive(sock.KeepAliveState(), k0, events, start, i)
    modifies sock`readyState, sock`heartbeat, sock`keepAlives, sock`awaitingOpen, sock`registration, sock`receivers
    modifies peer`calls, peer.ForwardSockets()`calls
    ensures next == i + 1 && start <= next <= |events| && sock.Valid()
    ensures ReceivedSoFar(sock.receivers, k, events, start, next)
    ensures sock.registration == registration && peer.calls == calls
    ensures KeptAlive(sock.KeepAliveState(), k0, events, start, next)
  {
    next := i + 1;
    KeepAliveAdvance(sock.KeepAliveState(), k0, events, start, i);
    SignalAdvance(k, events, start, i, registration);
    Step(sock, peer, null, events[i]);
  }

  /** While the receiver of kind `k` is pending, the next event is delivered
      to it, and a settled registration ignores it. */
  lemma SignalAdvance(k: SignalKind, events: seq<Event>, start: nat, i: nat, registration: Option<Registration>)
    requires start <= i < |events| && ReceivedBetween(k, events, start, i).None? && registration.Some?
    ensures ReceivedSoFar(ReceiversAfter([Receiver(k, None)], events[i]), k, events, start, i + 1)
    ensures RegistrationAfter(registration, events[i]) == registration
  {
    var e := events[i];
    ghost var ss := SocketsBetween(events, start, i);
    if e.FromSocket? {
      ReceivedAppend(k, ss, e.socketEvent);
      DeliverOne(k, ReceivedOf(k, ss), e.socketEvent);
    } else {
      assert SocketsBetween(events, start, i + 1) == ss;
    }
  }

  /** `await replyAnwserPromise` in makeCallIn: with handleICECandidate's
      listener and recvICECandidate's gatherer `g` attached, events are
      delivered, from index `start`, until gathering completes. */
  method AwaitGathering(sock: PeerSocket, peer: PeerConnection, g: Gatherer, events: seq<Event>, start: nat)
    returns (i: nat)
    requires start <= |events|
    requires sock.Valid() && sock !in peer.ForwardSockets() && sock.relaying
    requires g.candidates == [] && !g.resolved
    modifies sock`readyState, sock`heartbeat, sock`keepAlives, sock`awaitingOpen, sock`registration, sock`receivers
    modifies peer`calls, peer.ForwardSockets()`calls, g
    ensures start <= i <= |events| && sock.Valid()
    ensures g.resolved <==> GatheredBetween(events, start, i).Some?
    ensures g.resolved ==> g.candidates == GatheredBetween(events, start, i).value
    ensures g.resolved ==> start < i && GatheredBetween(events, start, i - 1).None?
    ensures !g.resolved ==> i == |events|
    ensures peer.calls == old(peer.calls) + RelayedBetween(events, start, i)
    ensures KeptAlive(sock.KeepAliveState(), old(sock.KeepAliveState()), events, start, i)
  {
    i := start;
    assert SocketsBetween(events, start, i) == [] && CandidatesBetween(events, start, i) == [];
    assert RelayedBetween(events, start, i) == [];
    while i < |events| && !g.resolved
      invariant start <= i <= |events| && sock.Valid() && sock !in peer.ForwardSockets()
      invariant GatheredSoFar(g.resolved, g.candidates, events, start, i)
      invariant CallsRelayed(peer.calls, old(peer.calls), events, start, i)
      invariant KeptAlive(sock.KeepAliveState(), old(sock.KeepAliveState()), events, start, i)
    {
      i := GatherStep(sock, peer, g, events, start, i, old(peer.calls), old(sock.KeepAliveState()));
    }
  }

  /** The gatherer after the events from `start` to `i`, having resolved no
      earlier than at the last of them. */
  ghost predicate GatheredSoFar(resolved: bool, candidates: seq<IceCandidate>, events: seq<Event>, start: nat, i: nat)
    requires start <= i <= |events|
  {
    Gathering(resolved, candidates, CandidatesBetween(events, start, i)) &&
    (resolved ==> start < i && GatheredBetween(events, start, i - 1).None?)
  }

  /** The peer connection's calls are `base` followed by the candidates
      relayed by the events from `start` to `i`. */
  ghost predicate CallsRelayed(calls: seq<PeerCall>, base: seq<PeerCall>, events: seq<Event>, start: nat, i: nat)
    requires start <= i <= |events|
  {
    calls == base + RelayedBetween(events, start, i)
  }

  /** One event delivered while gathering, as the loop of AwaitGathering
      does it. */
  method GatherStep(sock: PeerSocket, peer: PeerConnection, g: Gatherer, events: seq<Event>, start: nat, i: nat,
                    ghost base: seq<PeerCall>, ghost k0: KeepAlive)
    returns (next: nat)
    requires start <= i < |events|
    requires sock.Valid() && sock !in peer.ForwardSockets() && sock.relaying
    requires !g.resolved && GatheredSoFar(g.resolved, g.candidates, events, start, i)
    requires CallsRelayed(peer.calls, base, events, start, i)
    requires KeptAlive(sock.KeepAliveState(), k0, events, start, i)
    modifies sock`readyState, sock`heartbeat, sock`keepAlives, sock`awaitingOpen, sock`registration, sock`receivers
    modifies peer`calls, peer.ForwardSockets()`calls, g
    ensures next == i + 1 && start <= next <= |events| && sock.Valid()
    ensures GatheredSoFar(g.resolved, g.candidates, events, start, next)
    ensures CallsRelayed(peer.calls, base, events, start, next)
    ensures KeptAlive(sock.KeepAliveState(), k0, events, start, next)
  {
    next := i + 1;
    KeepAliveAdvance(sock.KeepAliveState(), k0, events, start, i);
    GatherAdvance(events, start, i, base, peer.calls, g.candidates);
    Step(sock, peer, g, events[i]);
  }

  /** One event delivered after a script has returned, while its socket
      keeps relaying candidates (the wait for the `datachannel` event of
      `connect`). */
  method ChannelStep(sock: PeerSocket, peer: PeerConnection, events: seq<Event>, start: nat, i: nat,
                     ghost base: seq<PeerCall>)
    requires start <= i < |events|
    requires sock.Valid() && sock !in peer.ForwardSockets() && sock.relaying
    requires CallsRelayed(peer.calls, base, events, start, i)
    modifies sock`readyState, sock`heartbeat, sock`keepAlives, sock`awaitingOpen, sock`registration, sock`receivers
    modifies peer`calls, peer.ForwardSockets()`calls
    ensures sock.Valid()
    ensures CallsRelayed(peer.calls, base, events, start, i + 1)
  {
    CallsAdvance(events, start, i, base, peer.calls);
    Step(sock, peer, null, events[i]);
  }

  /** What a script's await makes of its promise: still pending, thrown
      out of the script, or passed. */
  function AwaitOutcome<T>(s: Option<Settled<T>>): CallResult
  {
    match s
    case None => Pending
    case Some(Rejected(reason)) => Failed(reason)
    case Some(Resolved(_)) => Done
  }

  function RegistrationOutcome(s: Option<Registration>): CallResult
  {
    match s
    case None => Pending
    case Some(Refused(reason)) => Failed(reason)
    case Some(Registered) => Done
  }

  /** How a makeCallIn run went: the number of events consumed by the end
      of the registration await (`a`), of the OFFER await (`b`) and of the
      script (`used`); the OFFER and the gathered candidates; the socket,
      the calls made on it and the peer connection's calls afterwards. */
  datatype CallInRun = CallInRun(used: nat, a: nat, b: nat, offer: SignalMessage, gathered: seq<IceCandidate>,
                                 socket: PeerSocket?, socketCalls: seq<SocketCall>, peerCalls: seq<PeerCall>)

  /** makeCallIn(peer, peerId) on `events`, from a peer connection whose
      calls were `peerBefore`: it registers under `peerId`; a registration
      that is refused, or still pending, is the script's outcome; once
      registered, the rest is Answered. */
  ghost predicate CalledIn(events: seq<Event>, peerId: string, token: string, answer: Settled<Description>,
                           r: CallResult, run: CallInRun, peerBefore: seq<PeerCall>)
  {
    run.a <= run.b <= run.used <= |events| &&
    run.socket != null && run.socket.id == peerId && run.socket.url == RelayUrl(peerId, token) &&
    (r.Pending? ==> run.used == |events|) &&
    (RegistrationAt(events, run.a).Some? ==> 0 < run.a && RegistrationAt(events, run.a - 1).None?) &&
    (RegistrationAt(events, run.a).None? ==> run.a == |events|) &&
    if RegistrationAt(events, run.a) == Some(Registered) then
      Answered(events, run.a, run.b, run.used, answer, r, run.offer, run.gathered, peerBefore, run.peerCalls, [], run.socketCalls)
    else
      r == RegistrationOutcome(RegistrationAt(events, run.a)) && run.used == run.a &&
      run.peerCalls == peerBefore && run.socketCalls == []
  }

  /** makeCallIn(peer, peerId), the responder: register under `peerId`
      (`token` is generateToken()'s result), wait for an OFFER, apply it as
      the remote description, create the answer (`answer` is how
      createAnswer() settles), relay incoming CANDIDATE frames to the peer,
      apply the answer as the local description, wait for candidate
      gathering to complete, then send the ANSWER with the gathered
      candidates merged in to the offer's sender and close the socket.
      `a`, `b` and `used` are the numbers of events consumed by the end of
      each await. */
  method MakeCallIn(peer: PeerConnection, peerId: string, token: string, answer: Settled<Description>, events: seq<Event>)
    returns (r: CallResult, sock: PeerSocket, used: nat,
             a: nat, b: nat, offer: SignalMessage, gathered: seq<IceCandidate>)
    modifies peer`calls, peer.ForwardSockets()`calls
    ensures fresh(sock) && sock.Valid() && (r.Done? ==> sock.relaying)
    ensures CalledIn(events, peerId, token, answer, r, CallInRun(used, a, b, offer, gathered, sock, sock.calls, peer.calls), old(peer.calls))
  {
    sock := new PeerSocket(peerId, token);
    a := AwaitRegistration(sock, peer, events);
    if sock.registration != Some(Registered) {
      r, used, b := RegistrationOutcome(sock.registration), a, a;
      offer, gathered := SignalMessage("", Description(OfferSdp, None)), [];
      return;
    }
    r, used, b, offer, gathered := Answer(sock, peer, answer, events, a);
  }

  /** The responder's part after registering, from event `a` on: the OFFER
      await settles after `b` events; an OFFER that arrives is `offer`, and
      the script goes on as Responded; a closed socket (or a trace that runs
      out) ends the script there. */
  ghost predicate Answered(events: seq<Event>, a: nat, b: nat, used: nat, answer: Settled<Description>,
                           r: CallResult, offer: SignalMessage, gathered: seq<IceCandidate>,
                           peerBefore: seq<PeerCall>, peerAfter: seq<PeerCall>,
                           socketBefore: seq<SocketCall>, socketAfter: seq<SocketCall>)
    requires a <= b <= used <= |events|
  {
    (ReceivedBetween(OfferSignal, events, a, b).Some? ==> a < b && ReceivedBetween(OfferSignal, events, a, b - 1).None?) &&
    (ReceivedBetween(OfferSignal, events, a, b).None? ==> b == |events|) &&
    if ReceivedBetween(OfferSignal, events, a, b).Some? && ReceivedBetween(OfferSignal, events, a, b).value.Resolved? then
      offer == ReceivedBetween(OfferSignal, events, a, b).value.value &&
      Responded(events, b, used, answer, r, offer, gathered, peerBefore, peerAfter, socketBefore, socketAfter)
    else
      r == AwaitOutcome(ReceivedBetween(OfferSignal, events, a, b)) && used == b &&
      peerAfter == peerBefore && socketAfter == socketBefore
  }

  /** makeCallIn once the offer has arrived after `b` events: the remote
      description is set; if createAnswer rejects, the script throws its
      reason; otherwise the local description is set, every relayed
      candidate up to the end of gathering is added, and once gathering
      completes (and only then) the ANSWER carrying the merged description
      goes to the offer's sender, followed by the socket's close. */
  ghost predicate Responded(events: seq<Event>, b: nat, used: nat, answer: Settled<Description>,
                            r: CallResult, offer: SignalMessage, gathered: seq<IceCandidate>,
                            peerBefore: seq<PeerCall>, peerAfter: seq<PeerCall>,
                            socketBefore: seq<SocketCall>, socketAfter: seq<SocketCall>)
    requires b <= used <= |events|
  {
    match answer
    case Rejected(reason) =>
      r == Failed(reason) && used == b &&
      peerAfter == peerBefore + [RemoteDescriptionSet(offer.description)] && socketAfter == socketBefore
    case Resolved(local) =>
      peerAfter == peerBefore + [RemoteDescriptionSet(offer.description), LocalDescriptionSet(local)] +
        RelayedBetween(events, b, used) &&
      if GatheredBetween(events, b, used).Some? then
        r == Done && b < used && GatheredBetween(events, b, used - 1).None? &&
        GatheredBetween(events, b, used) == Some(gathered) &&
        socketAfter == socketBefore + [Sent(AnswerFrame(offer.peerId, MergeDescription(local, gathered))), CloseRequested]
      else
        r == Pending && used == |events| && socketAfter == socketBefore
  }

  /** A responder that returns has answered the OFFER it received: it set
      that OFFER as the remote description and its own answer as the local
      one, and its last socket calls are the ANSWER to the OFFER's sender and
      the close. */
  lemma AnsweredDone(events: seq<Event>, a: nat, b: nat, used: nat, answer: Settled<Description>,
                     r: CallResult, offer: SignalMessage, gathered: seq<IceCandidate>,
                     peerBefore: seq<PeerCall>, peerAfter: seq<PeerCall>,
                     socketBefore: seq<SocketCall>, socketAfter: seq<SocketCall>)
    requires a <= b <= used <= |events|
    requires Answered(events, a, b, used, answer, r, offer, gathered, peerBefore, peerAfter, socketBefore, socketAfter)
    requires r.Done?
    ensures ReceivedBetween(OfferSignal, events, a, b) == Some(Resolved(offer)) && answer.Resolved?
    ensures |peerAfter| >= |peerBefore| + 2 && peerAfter[..|peerBefore| + 2] ==
      peerBefore + [RemoteDescriptionSet(offer.description), LocalDescriptionSet(answer.value)]
    ensures socketAfter == socketBefore + [Sent(AnswerFrame(offer.peerId, MergeDescription(answer.value, gathered))), CloseRequested]
  {
    var head := peerBefore + [RemoteDescriptionSet(offer.description), LocalDescriptionSet(answer.value)];
    assert peerAfter == head + RelayedBetween(events, b, used);
    assert peerAfter[..|head|] == head;
  }

  /** makeCallIn after registering: the OFFER await, then Respond. */
  method Answer(sock: PeerSocket, peer: PeerConnection, answer: Settled<Description>, events: seq<Event>, a: nat)
    returns (r: CallResult, used: nat, b: nat, offer: SignalMessage, gathered: seq<IceCandidate>)
    requires a <= |events|
    requires sock.Valid() && sock !in peer.ForwardSockets()
    requires sock.registration.Some? && sock.receivers == [] && !sock.relaying
    modifies sock`readyState, sock`heartbeat, sock`calls, sock`keepAlives, sock`awaitingOpen, sock`registration, sock`receivers, sock`relaying
    modifies peer`calls, peer.ForwardSockets()`calls
    ensures a <= b <= used <= |events| && sock.Valid() && (r.Done? ==> sock.relaying)
    ensures Answered(events, a, b, used, answer, r, offer, gathered, old(peer.calls), peer.calls, old(sock.calls), sock.calls)
  {
    b := AwaitSignal(sock, peer, OfferSignal, events, a);
    used, offer, gathered := b, SignalMessage("", Description(OfferSdp, None)), [];
    var received := sock.receivers[0].result;
    if received.Some? && received.value.Resolved? {
      offer := received.value.value;
      r, used, gathered := Respond(sock, peer, answer, events, b, offer);
    } else {
      r := AwaitOutcome(received);
    }
  }

  /** The rest of makeCallIn once the offer has arrived after `b` events:
      apply it; once createAnswer has resolved, relay CANDIDATE frames,
      apply the answer, wait for gathering, send the ANSWER to the offer's
      sender and close the socket. */
  method Respond(sock: PeerSocket, peer: PeerConnection, answer: Settled<Description>, events: seq<Event>, b: nat, offer: SignalMessage)
    returns (r: CallResult, used: nat, gathered: seq<IceCandidate>)
    requires b <= |events|
    requires sock.Valid() && sock !in peer.ForwardSockets()
    modifies sock`readyState, sock`heartbeat, sock`calls, sock`keepAlives, sock`awaitingOpen, sock`registration, sock`receivers, sock`relaying
    modifies peer`calls, peer.ForwardSockets()`calls
    ensures b <= used <= |events| && sock.Valid() && (answer.Resolved? ==> sock.relaying)
    ensures Responded(events, b, used, answer, r, offer, gathered, old(peer.calls), peer.calls, old(sock.calls), sock.calls)
  {
    peer.SetRemoteDescription(offer.description);
    if answer.Rejected? {
      r, used, gathered := Failed(answer.reason), b, [];
      return;
    }
    sock.RelayCandidates();
    var g := new Gatherer();
    peer.SetLocalDescription(answer.value);
    used := AwaitGathering(sock, peer, g, events, b);
    gathered := g.candidates;
    if !g.resolved {
      r := Pending;
      return;
    }
    Reply(sock, AnswerFrame(offer.peerId, MergeDescription(answer.value, gathered)));
    r := Done;
  }

  /** The `.then` callback of makeCallIn's gathering promise and the
      `socket.close()` after it: send the ANSWER frame `f`, then close. */
  method Reply(sock: PeerSocket, f: Frame)
    requires sock.Valid() && f.kind == AnswerTag
    modifies sock`calls, sock`readyState
    ensures sock.Valid()
    ensures sock.calls == old(sock.calls) + [Sent(f), CloseRequested]
  {
    TagsDistinct();
    sock.Send(f);
    sock.Close();
  }

  /** How a makeCallOut run went: the number of events consumed by the end
      of the registration await (`a`) and of the script (`used`); the
      ANSWER; the socket, the calls made on it, and the peer connection's
      calls and forwarding listeners afterwards. */
  datatype CallOutRun = CallOutRun(used: nat, a: nat, answer: SignalMessage, socket: PeerSocket?,
                                   socketCalls: seq<SocketCall>, peerCalls: seq<PeerCall>, forwarders: seq<Forwarder>)

  /** makeCallOut(peer, peerId) on `events`, from a peer connection whose
      calls were `peerBefore` and whose forwarding listeners were
      `forwardersBefore`: it registers under `uuid`; a refused or pending
      registration is the outcome; once registered, the rest is Offered, and
      the forwarding listener is attached exactly when the script returns. */
  ghost predicate CalledOut(events: seq<Event>, peerId: string, uuid: string, token: string, offer: Settled<Description>,
                            r: CallResult, run: CallOutRun, peerBefore: seq<PeerCall>, forwardersBefore: seq<Forwarder>)
  {
    run.a <= run.used <= |events| &&
    run.socket != null && run.socket.id == uuid && run.socket.url == RelayUrl(uuid, token) &&
    (RegistrationAt(events, run.a).Some? ==> 0 < run.a && RegistrationAt(events, run.a - 1).None?) &&
    (RegistrationAt(events, run.a).None? ==> run.a == |events|) &&
    if RegistrationAt(events, run.a) == Some(Registered) then
      Offered(events, run.a, run.used, peerId, offer, r, run.answer, peerBefore, run.peerCalls, [], run.socketCalls) &&
      run.forwarders == forwardersBefore + (if r.Done? then [Forwarder(run.socket, peerId)] else [])
    else
      r == RegistrationOutcome(RegistrationAt(events, run.a)) && run.used == run.a &&
      run.peerCalls == peerBefore && run.forwarders == forwardersBefore && run.socketCalls == []
  }

  /** makeCallOut(peer, peerId), the initiator: register under `uuid`
      (crypto.randomUUID()'s result; `token` is generateToken()'s), create
      the offer (`offer` is how createOffer() settles), apply it as the
      local description, send it as an OFFER to `peerId`, wait for an
      ANSWER, attach the listener that forwards local candidates to
      `peerId`, apply the answer as the remote description and close the
      socket. */
  method MakeCallOut(peer: PeerConnection, peerId: string, uuid: string, token: string, offer: Settled<Description>, events: seq<Event>)
    returns (r: CallResult, sock: PeerSocket, used: nat, a: nat, answer: SignalMessage)
    modifies peer`calls, peer`forwarders, peer.ForwardSockets()`calls
    ensures fresh(sock) && sock.Valid()
    ensures CalledOut(events, peerId, uuid, token, offer, r, CallOutRun(used, a, answer, sock, sock.calls, peer.calls, peer.forwarders),
                      old(peer.calls), old(peer.forwarders))
  {
    sock := new PeerSocket(uuid, token);
    a := AwaitRegistration(sock, peer, events);
    if sock.registration != Some(Registered) {
      r, used := RegistrationOutcome(sock.registration), a;
      answer := SignalMessage("", Description(AnswerSdp, None));
      return;
    }
    r, used, answer := Offer(sock, peer, peerId, offer, events, a);
  }

  /** The initiator's part after registering, from event `a` on: if
      createOffer rejects, the script throws its reason; otherwise the local
      description is set and the OFFER sent to `peerId`, the ANSWER await
      settles after `used` events, and a resolved answer is applied as the
      remote description and then the socket is closed. */
  ghost predicate Offered(events: seq<Event>, a: nat, used: nat, peerId: string, offer: Settled<Description>,
                          r: CallResult, answer: SignalMessage,
                          peerBefore: seq<PeerCall>, peerAfter: seq<PeerCall>,
                          socketBefore: seq<SocketCall>, socketAfter: seq<SocketCall>)
    requires a <= used <= |events|
  {
    match offer
    case Rejected(reason) =>
      r == Failed(reason) && used == a && peerAfter == peerBefore && socketAfter == socketBefore
    case Resolved(local) =>
      (ReceivedBetween(AnswerSignal, events, a, used).Some? ==> a < used && ReceivedBetween(AnswerSignal, events, a, used - 1).None?) &&
      (ReceivedBetween(AnswerSignal, events, a, used).None? ==> used == |events|) &&
      r == AwaitOutcome(ReceivedBetween(AnswerSignal, events, a, used)) &&
      if r.Done? then
        ReceivedBetween(AnswerSignal, events, a, used) == Some(Resolved(answer)) &&
        peerAfter == peerBefore + [LocalDescriptionSet(local), RemoteDescriptionSet(answer.description)] &&
        socketAfter == socketBefore + [Sent(OfferFrame(peerId, local)), CloseRequested]
      else
        peerAfter == peerBefore + [LocalDescriptionSet(local)] &&
        socketAfter == socketBefore + [Sent(OfferFrame(peerId, local))]
  }

  /** makeCallOut after registering. */
  method Offer(sock: PeerSocket, peer: PeerConnection, peerId: string, offer: Settled<Description>, events: seq<Event>, a: nat)
    returns (r: CallResult, used: nat, answer: SignalMessage)
    requires a <= |events|
    requires sock.Valid() && sock !in peer.ForwardSockets()
    requires sock.registration.Some? && sock.receivers == [] && !sock.relaying
    modifies sock`readyState, sock`heartbeat, sock`calls, sock`keepAlives, sock`awaitingOpen, sock`registration, sock`receivers
    modifies peer`calls, peer`forwarders, peer.ForwardSockets()`calls
    ensures a <= used <= |events| && sock.Valid()
    ensures Offered(events, a, used, peerId, offer, r, answer, old(peer.calls), peer.calls, old(sock.calls), sock.calls)
    ensures peer.forwarders == old(peer.forwarders) + (if r.Done? then [Forwarder(sock, peerId)] else [])
  {
    answer := SignalMessage("", Description(AnswerSdp, None));
    if offer.Rejected? {
      r, used := Failed(offer.reason), a;
      return;
    }
    peer.SetLocalDescription(offer.value);
    var frame := OfferFrame(peerId, offer.value);
    TagsDistinct();
    sock.Send(frame);
    used := AwaitSignal(sock, peer, AnswerSignal, events, a);
    var received := sock.receivers[0].result;
    r := AwaitOutcome(received);
    if r.Done? {
      answer := received.value.value;
      peer.Forward(sock, peerId);
      peer.SetRemoteDescription(answer.description);
      sock.Close();
    }
  }
}
