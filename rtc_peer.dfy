/** apps/react-webrtc/lib/rtc-peer.ts: the relay socket with the listeners
    createPeerWebSocket attaches (registration handshake and keep-alive), the
    peer connection seen as a log of the calls made on it, and the two role
    scripts makeCallIn (responder) and makeCallOut (initiator).

    The browser is an ordered trace of events. Each `await` in a script is a
    loop that hands the next events, one at a time, to every listener that is
    attached at that point, until the awaited promise settles; if the trace
    runs out first, the script is still waiting (`Pending`). */
module RtcPeer {
  import opened Wire
  import opened Trace
  import opened Handshake
  import opened Sdp

  /** WebSocket.readyState */
  datatype ReadyState = CONNECTING | OPEN | CLOSING | CLOSED

  /** A call the page makes on the socket. */
  datatype SocketCall = Sent(frame: Frame) | CloseRequested

  /** `wss://0.peerjs.com/peerjs?key=peerjs&id=${id}&token=${token}` */
  function RelayUrl(id: string, token: string): string
  {
    "wss://0.peerjs.com/peerjs?key=peerjs&id=" + id + "&token=" + token
  }

  /** Two sockets open the same URL only for the same id and token, as long
      as ids hold no `&` (the separator before `token=`). */
  lemma RelayUrlDistinct(id: string, token: string, id': string, token': string)
    requires '&' !in id && '&' !in id'
    requires RelayUrl(id, token) == RelayUrl(id', token')
    ensures id == id' && token == token'
  {
    var prefix := "wss://0.peerjs.com/peerjs?key=peerjs&id=";
    var tail, tail' := id + "&token=" + token, id' + "&token=" + token';
    assert RelayUrl(id, token) == prefix + tail && RelayUrl(id', token') == prefix + tail';
    assert tail == tail' by {
      assert tail == RelayUrl(id, token)[|prefix|..];
      assert tail' == RelayUrl(id', token')[|prefix|..];
    }
    AmpersandAfterId(id, token);
    AmpersandAfterId(id', token');
    assert id == tail[..|id|] && id' == tail'[..|id'|];
    assert token == tail[|id| + 7..] && token' == tail'[|id'| + 7..];
  }

  /** In `id + "&token=" + token` with an `&`-free id, the first `&` is the
      one right after the id. */
  lemma AmpersandAfterId(id: string, token: string)
    requires '&' !in id
    ensures IndexOf(id + "&token=" + token, "&") == Some(|id|)
  {
    var t := id + "&token=" + token;
    forall j | 0 <= j < |id|
      ensures !OccursAt(t, "&", j)
    {
      assert t[j..j + 1][0] == id[j];
    }
    assert t[|id|..|id| + 1] == "&";
    IndexOfIsFirst(t, "&", |id|);
  }

  /** A listener attached by recvOfferMessage or recvAnswerMessage, with the
      state of its promise. */
  datatype Receiver = Receiver(kind: SignalKind, result: Option<Settled<SignalMessage>>)

  /** One socket event handed to every attached receiver. */
  function DeliverAll(rs: seq<Receiver>, e: SocketEvent): (r: seq<Receiver>)
    ensures |r| == |rs|
    ensures forall i :: 0 <= i < |rs| ==> r[i] == Receiver(rs[i].kind, Then(rs[i].result, Delivery(rs[i].kind, e)))
  {
    seq(|rs|, i requires 0 <= i < |rs| => Receiver(rs[i].kind, Then(rs[i].result, Delivery(rs[i].kind, e))))
  }

  /** The socket's readyState after a socket event: `open` opens it, `close`
      closes it, nothing else changes it. */
  function ReadyStateAfter(s: ReadyState, e: SocketEvent): ReadyState
  {
    match e
    case Opened => OPEN
    case Closed => CLOSED
    case _ => s
  }

  /** Whether the keep-alive interval is running after a socket event: the
      `open` listener starts it and the `close` listener clears it. */
  function HeartbeatAfter(running: bool, e: SocketEvent): bool
  {
    match e
    case Opened => true
    case Closed => false
    case _ => running
  }

  /** The HEARTBEAT frames (0 or 1) a socket event makes the keep-alive send:
      one per tick of a running interval on an OPEN socket. */
  function KeepAliveSent(running: bool, s: ReadyState, e: SocketEvent): nat
  {
    if e.Tick? && running && s == OPEN then 1 else 0
  }

  /** Whether awaitPeerOpen and `reject` are still attached after a socket
      event: an `OPEN` frame removes them. */
  function AwaitingOpenAfter(attached: bool, e: SocketEvent): bool
  {
    attached && !(e.Message? && e.frame.kind == OpenTag)
  }

  /** The keep-alive of a socket: whether its interval is running, the
      socket's readyState that the interval checks, and the HEARTBEAT frames
      sent so far. */
  datatype KeepAlive = KeepAlive(running: bool, state: ReadyState, sent: nat)

  /** The keep-alive after one socket event. */
  function KeepAliveAfter(k: KeepAlive, e: SocketEvent): KeepAlive
  {
    KeepAlive(HeartbeatAfter(k.running, e), ReadyStateAfter(k.state, e), k.sent + KeepAliveSent(k.running, k.state, e))
  }

  /** The keep-alive after a run of socket events, in order. */
  function KeepAliveOver(k: KeepAlive, evs: seq<SocketEvent>): KeepAlive
  {
    if evs == [] then k else KeepAliveAfter(KeepAliveOver(k, evs[..|evs| - 1]), evs[|evs| - 1])
  }

  /** At most one HEARTBEAT per tick. */
  lemma {:induction false} KeepAlivesPerTick(k: KeepAlive, evs: seq<SocketEvent>)
    ensures KeepAliveOver(k, evs).sent <= k.sent + multiset(evs)[Tick]
  {
    if evs != [] {
      var init := evs[..|evs| - 1];
      KeepAlivesPerTick(k, init);
      assert evs == init + [evs[|evs| - 1]];
    }
  }

  /** Once the socket has closed, the keep-alive sends nothing more unless
      the socket opens again; without an `open` it never sends at all. */
  lemma {:induction false} SilentWithoutOpen(k: KeepAlive, evs: seq<SocketEvent>)
    requires !k.running || (evs != [] && evs[0].Closed?)
    requires forall i :: 0 <= i < |evs| ==> !evs[i].Opened?
    ensures KeepAliveOver(k, evs).sent == k.sent
    ensures evs != [] ==> !KeepAliveOver(k, evs).running
  {
    if evs != [] {
      var init := evs[..|evs| - 1];
      if init != [] {
        assert init[0] == evs[0];
        SilentWithoutOpen(k, init);
      }
    }
  }

  /** The relay socket of createPeerWebSocket(id): the WebSocket's own state,
      the calls made on it, and the state of the listeners attached to it. */
  class PeerSocket {
    const id: string
    const token: string
    const url: string
    var readyState: ReadyState
    /** socket.send and socket.close calls, in order, other than the
        keep-alive's HEARTBEAT frames. */
    var calls: seq<SocketCall>
    /** HEARTBEAT frames sent by the keep-alive interval. */
    var keepAlives: nat
    /** The keep-alive interval exists and has not been cleared. */
    var heartbeat: bool
    /** `awaitPeerOpen` (message) and `reject` (error) are still attached. */
    var awaitingOpen: bool
    /** createPeerWebSocket's promise; None while pending. */
    var registration: Option<Registration>
    /** recvOfferMessage / recvAnswerMessage listeners, in attachment order. */
    var receivers: seq<Receiver>
    /** handleICECandidate's listener is attached. */
    var relaying: bool

    /** The socket's keep-alive. */
    function KeepAliveState(): KeepAlive
      reads this
    {
      KeepAlive(heartbeat, readyState, keepAlives)
    }

    ghost predicate Valid()
      reads this
    {
      (registration.None? ==> awaitingOpen) &&
      (readyState == CLOSED ==> !heartbeat)
    }

    /** createPeerWebSocket(id), with generateToken()'s result passed in:
        opens the socket and attaches the `open`, `message` and `error`
        listeners. */
    constructor (id: string, token: string)
      ensures Valid()
      ensures this.id == id && this.token == token && url == RelayUrl(id, token)
      ensures readyState == CONNECTING && calls == [] && keepAlives == 0 && !heartbeat
      ensures awaitingOpen && registration == None && receivers == [] && !relaying
    {
      this.id := id;
      this.token := token;
      url := RelayUrl(id, token);
      readyState := CONNECTING;
      calls := [];
      keepAlives := 0;
      heartbeat := false;
      awaitingOpen := true;
      registration := None;
      receivers := [];
      relaying := false;
    }

    /** The `open` event: the socket is open, the 5000 ms keep-alive interval
        is created and a `close` listener that clears it is attached. */
    method OnOpened()
      requires Valid()
      modifies this`readyState, this`heartbeat
      ensures Valid() && readyState == OPEN && heartbeat
    {
      readyState := OPEN;
      heartbeat := true;
    }

    /** A `message` event carrying frame `f`, handed to awaitPeerOpen (while
        attached), to every receiver and to handleICECandidate's listener;
        `relayed` is what the latter passes to peer.addIceCandidate. */
    method OnMessage(f: Frame) returns (relayed: Option<IceCandidate>)
      requires Valid()
      modifies this`awaitingOpen, this`registration, this`receivers
      ensures Valid()
      ensures awaitingOpen == (old(awaitingOpen) && f.kind != OpenTag)
      ensures registration == Then(old(registration), Decisive(Message(f)))
      ensures receivers == DeliverAll(old(receivers), Message(f))
      ensures relayed == if relaying then Relay(Message(f)) else None
    {
      if awaitingOpen {
        if f.kind == OpenTag {
          awaitingOpen := false;
          registration := Then(registration, Some(Registered));
          // `case 'OPEN'` has no break: it falls through into `case 'ID-TAKEN'`
          registration := Then(registration, Some(Refused(IdTakenError)));
        } else if f.kind == IdTakenTag {
          registration := Then(registration, Some(Refused(IdTakenError)));
        }
      }
      receivers := DeliverAll(receivers, Message(f));
      relayed := if relaying then RelayedCandidate(f) else None;
    }

    /** The `error` event: `reject` while it is still attached. */
    method OnErrored()
      requires Valid()
      modifies this`registration
      ensures Valid()
      ensures registration == Then(old(registration), Decisive(Errored))
    {
      if awaitingOpen {
        registration := Then(registration, Some(Refused(SocketError)));
      }
    }

    /** The `close` event: the keep-alive interval is cleared and every
        receiver is offered the rejection "socket closed". */
    method OnClosed()
      requires Valid()
      modifies this`readyState, this`heartbeat, this`receivers
      ensures Valid()
      ensures readyState == CLOSED && !heartbeat
      ensures receivers == DeliverAll(old(receivers), Closed)
    {
      readyState := CLOSED;
      heartbeat := false;
      receivers := DeliverAll(receivers, Closed);
    }

    /** A tick of the keep-alive interval: `{type: 'HEARTBEAT'}` is sent when
        the socket is OPEN, nothing otherwise; without an interval there is no
        tick at all. */
    method OnTick()
      requires Valid()
      modifies this`keepAlives
      ensures Valid()
      ensures keepAlives == old(keepAlives) + (if heartbeat && readyState == OPEN then 1 else 0)
    {
      if heartbeat {
        if readyState == OPEN {
          keepAlives := keepAlives + 1;
        }
      }
    }

    /** One socket event, handed to the listeners it concerns. */
    method OnEvent(e: SocketEvent) returns (relayed: Option<IceCandidate>)
      requires Valid()
      modifies this`readyState, this`heartbeat, this`keepAlives, this`awaitingOpen, this`registration, this`receivers
      ensures Valid()
      ensures registration == Then(old(registration), Decisive(e))
      ensures receivers == DeliverAll(old(receivers), e)
      ensures relayed == if relaying then Relay(e) else None
      ensures readyState == ReadyStateAfter(old(readyState), e)
      ensures heartbeat == HeartbeatAfter(old(heartbeat), e)
      ensures keepAlives == old(keepAlives) + KeepAliveSent(old(heartbeat), old(readyState), e)
      ensures awaitingOpen == AwaitingOpenAfter(old(awaitingOpen), e)
    {
      relayed := None;
      match e
      case Opened => OnOpened();
      case Message(f) => relayed := OnMessage(f);
      case Errored => OnErrored();
      case Closed => OnClosed();
      case Tick => OnTick();
    }

    /** socket.send(JSON.stringify(f)) */
    method Send(f: Frame)
      modifies this`calls
      ensures calls == old(calls) + [Sent(f)]
    {
      calls := calls + [Sent(f)];
    }

    /** socket.close(): a socket that is connecting or open starts closing;
        the `close` event comes later, from the browser. */
    method Close()
      requires Valid()
      modifies this`calls, this`readyState
      ensures Valid()
      ensures calls == old(calls) + [CloseRequested]
      ensures readyState == if old(readyState) in {CONNECTING, OPEN} then CLOSING else old(readyState)
    {
      calls := calls + [CloseRequested];
      if readyState == CONNECTING || readyState == OPEN {
        readyState := CLOSING;
      }
    }

    /** The listeners of recvOfferMessage / recvAnswerMessage are attached. */
    method Receive(k: SignalKind)
      modifies this`receivers
      ensures receivers == old(receivers) + [Receiver(k, None)]
    {
      receivers := receivers + [Receiver(k, None)];
    }

    /** handleICECandidate(socket, peer) attaches its listener. */
    method RelayCandidates()
      modifies this`relaying
      ensures relaying
    {
      relaying := true;
    }
  }

  /** recvICECandidate's `icecandidate` listener and its `candidates` array. */
  class Gatherer {
    var candidates: seq<IceCandidate>
    /** The promise has been resolved with `candidates`. */
    var resolved: bool

    constructor ()
      ensures candidates == [] && !resolved
    {
      candidates := [];
      resolved := false;
    }

    /** An `icecandidate` event; `None` is the null end-of-gathering sentinel. */
    method OnIceCandidate(c: Option<IceCandidate>)
      modifies this
      ensures c.None? ==> resolved && candidates == old(candidates)
      ensures c.Some? ==> resolved == old(resolved) && candidates == old(candidates) + [c.value]
    {
      match c
      case None => resolved := true;
      case Some(x) => candidates := candidates + [x];
    }
  }

  /** RTCDataChannelState */
  datatype ChannelState = ChannelConnecting | ChannelOpen | ChannelClosing | ChannelClosed

  /** An RTCDataChannel: its state, the data sent on it, and whether close()
      was called. Its state changes are the browser's. */
  class DataChannel {
    const name: string  // RTCDataChannel.label
    var readyState: ChannelState
    var sent: seq<string>
    var closeCalled: bool

    constructor (name: string)
      ensures this.name == name && readyState == ChannelConnecting && sent == [] && !closeCalled
    {
      this.name := name;
      readyState := ChannelConnecting;
      sent := [];
      closeCalled := false;
    }

    method Send(data: string)
      modifies this`sent
      ensures sent == old(sent) + [data]
    {
      sent := sent + [data];
    }

    method Close()
      modifies this`readyState, this`closeCalled
      ensures closeCalled
      ensures readyState == if old(readyState) == ChannelClosed then ChannelClosed else ChannelClosing
    {
      closeCalled := true;
      if readyState != ChannelClosed {
        readyState := ChannelClosing;
      }
    }
  }

  /** A call the page makes on the peer connection. */
  datatype PeerCall =
    | RemoteDescriptionSet(description: Description)
    | LocalDescriptionSet(description: Description)
    | IceCandidateAdded(candidate: IceCandidate)
    | DataChannelCreated(name: string)
    | PeerClosed

  /** makeCallOut's `icecandidate` listener: forwards each non-null local
      candidate to `peerId` over `socket`. */
  datatype Forwarder = Forwarder(socket: PeerSocket, peerId: string)

  /** What the forwarders send on socket `s` for one `icecandidate` event. */
  function Forwarded(fs: seq<Forwarder>, s: PeerSocket, c: Option<IceCandidate>): seq<SocketCall>
  {
    if fs == [] then []
    else
      Forwarded(fs[..|fs| - 1], s, c) +
      (if fs[|fs| - 1].socket == s && c.Some? then [Sent(CandidateFrame(fs[|fs| - 1].peerId, c.value))] else [])
  }

  /** The addIceCandidate calls for a run of relayed candidates. */
  function AddedCandidates(cs: seq<IceCandidate>): seq<PeerCall>
  {
    if cs == [] then [] else AddedCandidates(cs[..|cs| - 1]) + [IceCandidateAdded(cs[|cs| - 1])]
  }

  /** One addIceCandidate call per relayed candidate, in order. */
  lemma {:induction false} AddedCandidatesIndex(cs: seq<IceCandidate>)
    ensures |AddedCandidates(cs)| == |cs|
    ensures forall i :: 0 <= i < |cs| ==> AddedCandidates(cs)[i] == IceCandidateAdded(cs[i])
  {
    if cs != [] {
      AddedCandidatesIndex(cs[..|cs| - 1]);
    }
  }

  /** The number of forwarding listeners attached with socket `s`. */
  function ListenersOn(fs: seq<Forwarder>, s: PeerSocket): nat
  {
    if fs == [] then 0
    else ListenersOn(fs[..|fs| - 1], s) + (if fs[|fs| - 1].socket == s then 1 else 0)
  }

  /** The forwarding listeners send on socket `s` only for a non-null
      candidate, and then exactly one CANDIDATE frame for each listener
      attached with `s`, addressed to that listener's peer. */
  lemma {:induction false} ForwardedTargets(fs: seq<Forwarder>, s: PeerSocket, c: Option<IceCandidate>)
    ensures c.None? ==> Forwarded(fs, s, c) == []
    ensures |Forwarded(fs, s, c)| <= |fs|
    ensures c.Some? ==> |Forwarded(fs, s, c)| == ListenersOn(fs, s)
    ensures forall m :: m in Forwarded(fs, s, c) ==>
              c.Some? && exists j :: 0 <= j < |fs| && fs[j].socket == s && m == Sent(CandidateFrame(fs[j].peerId, c.value))
    ensures c.Some? ==>
              forall j :: 0 <= j < |fs| && fs[j].socket == s ==> Sent(CandidateFrame(fs[j].peerId, c.value)) in Forwarded(fs, s, c)
  {
    if fs != [] {
      var init := fs[..|fs| - 1];
      ForwardedTargets(init, s, c);
      assert forall j :: 0 <= j < |init| ==> init[j] == fs[j];
    }
  }

  /** One more forwarder sends on its own socket only. */
  lemma ForwardedStep(fs: seq<Forwarder>, k: nat, c: Option<IceCandidate>)
    requires k < |fs|
    ensures forall s ::
              Forwarded(fs[..k + 1], s, c) ==
              Forwarded(fs[..k], s, c) + (if fs[k].socket == s && c.Some? then [Sent(CandidateFrame(fs[k].peerId, c.value))] else [])
  {
    assert fs[..k + 1][..k] == fs[..k];
  }

  /** An RTCPeerConnection, as the calls made on it and the forwarding
      listeners attached to it. Offers, answers and candidates are produced by
      the browser and enter the model as parameters and events. */
  class PeerConnection {
    var calls: seq<PeerCall>
    var forwarders: seq<Forwarder>

    constructor ()
      ensures calls == [] && forwarders == []
    {
      calls := [];
      forwarders := [];
    }

    function ForwardSockets(): set<PeerSocket>
      reads this`forwarders
    {
      set f | f in forwarders :: f.socket
    }

    method SetRemoteDescription(d: Description)
      modifies this`calls
      ensures calls == old(calls) + [RemoteDescriptionSet(d)]
    {
      calls := calls + [RemoteDescriptionSet(d)];
    }

    method SetLocalDescription(d: Description)
      modifies this`calls
      ensures calls == old(calls) + [LocalDescriptionSet(d)]
    {
      calls := calls + [LocalDescriptionSet(d)];
    }

    method AddIceCandidate(c: IceCandidate)
      modifies this`calls
      ensures calls == old(calls) + [IceCandidateAdded(c)]
    {
      calls := calls + [IceCandidateAdded(c)];
    }

    method CreateDataChannel(name: string) returns (ch: DataChannel)
      modifies this`calls
      ensures fresh(ch) && ch.name == name && ch.readyState == ChannelConnecting && ch.sent == [] && !ch.closeCalled
      ensures calls == old(calls) + [DataChannelCreated(name)]
    {
      ch := new DataChannel(name);
      calls := calls + [DataChannelCreated(name)];
    }

    method Close()
      modifies this`calls
      ensures calls == old(calls) + [PeerClosed]
    {
      calls := calls + [PeerClosed];
    }

    /** makeCallOut attaches its forwarding listener. */
    method Forward(socket: PeerSocket, peerId: string)
      modifies this`forwarders
      ensures forwarders == old(forwarders) + [Forwarder(socket, peerId)]
    {
      forwarders := forwarders + [Forwarder(socket, peerId)];
    }

    /** An `icecandidate` event handed to the forwarding listeners, in the
        order they were attached: each sends a CANDIDATE frame for a non-null
        candidate on its socket and ignores the null sentinel. Whatever the
        browser does with a send on a socket that is closing is not modelled. */
    method OnIceCandidate(c: Option<IceCandidate>)
      modifies ForwardSockets()`calls
      ensures forall s :: s in old(ForwardSockets()) ==> s.calls == old(s.calls) + Forwarded(forwarders, s, c)
    {
      ghost var targets := ForwardSockets();
      var k := 0;
      while k < |forwarders|
        invariant 0 <= k <= |forwarders|
        invariant forall s :: s in targets ==> s.calls == old(s.calls) + Forwarded(forwarders[..k], s, c)
      {
        var f := forwarders[k];
        assert f.socket in targets;
        ForwardedStep(forwarders, k, c);
        if c.Some? {
          f.socket.Send(CandidateFrame(f.peerId, c.value));
        }
        k := k + 1;
      }
      assert forwarders[..k] == forwarders;
    }
  }
}
