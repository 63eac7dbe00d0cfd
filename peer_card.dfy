/** apps/react-webrtc/components/rtc-peer-card.tsx: `connect`, which tries the
    responder role first and falls back to the initiator role, and the state
    logic of the ConnectionCard component's handlers (handleConnect,
    handleDisconnect, handleSendMessage and the listeners handleConnect
    attaches to the data channel). Rendering, scrolling and URL syncing are
    not part of this model. */
module PeerCard {
  import opened Wire
  import opened Trace
  import opened Handshake
  import opened RtcPeer
  import opened Calls

  /** WhiteSpace and LineTerminator code points of section 12.2 and 12.3 of
      ECMA-262, which String.prototype.trim removes. */
  predicate IsJsSpace(c: char)
  {
    c == '\t' || c == '\n' || c == '\U{000B}' || c == '\U{000C}' || c == '\r' || c == ' ' ||
    c == '\U{00A0}' || c == '\U{1680}' || ('\U{2000}' <= c <= '\U{200A}') ||
    c == '\U{2028}' || c == '\U{2029}' || c == '\U{202F}' || c == '\U{205F}' ||
    c == '\U{3000}' || c == '\U{FEFF}'
  }

  /** The leading white space removed. */
  function TrimStart(s: string): string
  {
    if s == [] || !IsJsSpace(s[0]) then s else TrimStart(s[1..])
  }

  /** TrimStart leaves a suffix of `s` that is empty or starts with a
      non-space, having cut off only spaces. */
  lemma {:induction false} TrimStartShape(s: string)
    ensures |TrimStart(s)| <= |s| && TrimStart(s) == s[|s| - |TrimStart(s)|..]
    ensures TrimStart(s) != [] ==> !IsJsSpace(TrimStart(s)[0])
    ensures forall i :: 0 <= i < |s| - |TrimStart(s)| ==> IsJsSpace(s[i])
  {
    if s != [] && IsJsSpace(s[0]) {
      TrimStartShape(s[1..]);
      forall i | 1 <= i < |s| - |TrimStart(s)| ensures IsJsSpace(s[i]) {
        assert s[i] == s[1..][i - 1];
      }
    }
  }

  /** The trailing white space removed. */
  function TrimEnd(s: string): string
  {
    if s == [] || !IsJsSpace(s[|s| - 1]) then s else TrimEnd(s[..|s| - 1])
  }

  /** TrimEnd leaves a prefix of `s` that is empty or ends with a non-space,
      having cut off only spaces. */
  lemma {:induction false} TrimEndShape(s: string)
    ensures |TrimEnd(s)| <= |s| && TrimEnd(s) == s[..|TrimEnd(s)|]
    ensures TrimEnd(s) != [] ==> !IsJsSpace(TrimEnd(s)[|TrimEnd(s)| - 1])
    ensures forall i :: |TrimEnd(s)| <= i < |s| ==> IsJsSpace(s[i])
  {
    if s != [] && IsJsSpace(s[|s| - 1]) {
      TrimEndShape(s[..|s| - 1]);
      forall i | |TrimEnd(s)| <= i < |s| - 1 ensures IsJsSpace(s[i]) {
        assert s[i] == s[..|s| - 1][i];
      }
    }
  }

  /** String.prototype.trim */
  function Trim(s: string): string
  {
    TrimEnd(TrimStart(s))
  }

  /** `!s.trim()`: the string is empty once trimmed. */
  predicate IsBlank(s: string)
  {
    Trim(s) == ""
  }

  /** A string is blank exactly when every character of it is white space. */
  lemma BlankIff(s: string)
    ensures IsBlank(s) <==> forall i :: 0 <= i < |s| ==> IsJsSpace(s[i])
  {
    var t := TrimStart(s);
    TrimStartShape(s);
    TrimEndShape(t);
    if IsBlank(s) {
      assert t == [];
    }
    assert t != [] ==> t[0] == s[|s| - |t|];
  }

  /** The `datachannel` listener of `connect`: the first such event's channel. */
  function ChannelDecision(e: Event): Option<DataChannel>
  {
    if e.DataChannelEvent? then Some(e.channel) else None
  }

  function ChannelOf(evs: seq<Event>): Option<DataChannel>
  {
    First(ChannelDecision, evs)
  }

  /** The channel of the first `datachannel` event among `events[from..to]`. */
  function ChannelBetween(events: seq<Event>, from: nat, to: nat): Option<DataChannel>
    requires from <= to <= |events|
  {
    ChannelOf(events[from..to])
  }

  /** The responder's channel is the one carried by the first `datachannel`
      event, whatever comes before it. */
  lemma ChannelOfIff(evs: seq<Event>, ch: DataChannel)
    ensures ChannelOf(evs) == Some(ch) <==>
      exists i :: 0 <= i < |evs| && evs[i] == DataChannelEvent(ch) &&
        forall j :: 0 <= j < i ==> !evs[j].DataChannelEvent?
  {
    FirstIff(ChannelDecision, evs, ch);
    assert forall i :: 0 <= i < |evs| ==> (ChannelDecision(evs[i]) == Some(ch) <==> evs[i] == DataChannelEvent(ch));
  }

  /** The channel of a trace one event longer. */
  lemma ChannelSnoc(events: seq<Event>, start: nat, i: nat)
    requires start <= i < |events|
    ensures ChannelBetween(events, start, i + 1) ==
      if ChannelBetween(events, start, i).Some? then ChannelBetween(events, start, i) else ChannelDecision(events[i])
  {
    assert events[start..i + 1] == events[start..i] + [events[i]];
    FirstAppend(ChannelDecision, events[start..i], events[i]);
  }

  /** How `await connect(peer, peerId)` ends: still waiting, thrown, or with a
      data channel. */
  datatype Connection = Waiting | Threw(reason: string) | Connected(channel: DataChannel)

  /** One event of the wait of `connect` for the `datachannel` event, which
      has not come yet: the event goes to the socket's and the peer's
      listeners, and to the `datachannel` listener. */
  method ChannelWaitStep(sock: PeerSocket, peer: PeerConnection, events: seq<Event>, start: nat, i: nat,
                         ghost base: seq<PeerCall>)
    returns (next: nat, found: Option<DataChannel>)
    requires start <= i < |events| && ChannelSoFar(None, events, start, i)
    requires sock.Valid() && sock !in peer.ForwardSockets() && sock.relaying
    requires CallsRelayed(peer.calls, base, events, start, i)
    modifies sock`readyState, sock`heartbeat, sock`keepAlives, sock`awaitingOpen, sock`registration, sock`receivers
    modifies peer`calls, peer.ForwardSockets()`calls
    ensures next == i + 1 && start <= next <= |events| && sock.Valid()
    ensures ChannelSoFar(found, events, start, next)
    ensures CallsRelayed(peer.calls, base, events, start, next)
  {
    next := i + 1;
    found := ChannelDecision(events[i]);
    ChannelAdvance(events, start, i);
    ChannelStep(sock, peer, events, start, i, base);
  }

  /** While no channel has been found, the next event decides. */
  lemma ChannelAdvance(events: seq<Event>, start: nat, i: nat)
    requires start <= i < |events| && ChannelSoFar(None, events, start, i)
    ensures ChannelSoFar(ChannelDecision(events[i]), events, start, i + 1)
  {
    ChannelSnoc(events, start, i);
  }

  /** The channel found among the events from `start` to `i`, found no
      earlier than at the last of them. */
  ghost predicate ChannelSoFar(found: Option<DataChannel>, events: seq<Event>, start: nat, i: nat)
    requires start <= i <= |events|
  {
    found == ChannelBetween(events, start, i) &&
    (found.Some? ==> start < i && ChannelBetween(events, start, i - 1).None?)
  }

  /** The wait of `connect` for the responder's `datachannel` event: events
      are delivered from `start` on (makeCallIn's socket still relays
      candidates to the peer) until the first `datachannel` event, whose
      channel is the result. */
  method AwaitChannel(sock: PeerSocket, peer: PeerConnection, events: seq<Event>, start: nat)
    returns (i: nat, found: Option<DataChannel>)
    requires start <= |events|
    requires sock.Valid() && sock !in peer.ForwardSockets() && sock.relaying
    modifies sock`readyState, sock`heartbeat, sock`keepAlives, sock`awaitingOpen, sock`registration, sock`receivers
    modifies peer`calls, peer.ForwardSockets()`calls
    ensures start <= i <= |events| && sock.Valid()
    ensures ChannelSoFar(found, events, start, i)
    ensures found.None? ==> i == |events|
    ensures CallsRelayed(peer.calls, old(peer.calls), events, start, i)
  {
    i, found := start, None;
    assert events[start..i] == [] && SocketsBetween(events, start, i) == [];
    assert RelayedBetween(events, start, i) == [];
    while i < |events| && found.None?
      invariant start <= i <= |events| && sock.Valid() && sock !in peer.ForwardSockets()
      invariant ChannelSoFar(found, events, start, i)
      invariant CallsRelayed(peer.calls, old(peer.calls), events, start, i)
    {
      i, found := ChannelWaitStep(sock, peer, events, start, i, old(peer.calls));
    }
  }

  /** The Connection a finished makeCallOut leaves `connect` with: the
      fallback channel once it returns, its reason once it throws. */
  function FallbackOutcome(callOut: CallResult, fallback: DataChannel): (c: Connection)
    ensures c.Connected? <==> callOut.Done?
    ensures c.Threw? <==> callOut.Failed?
    ensures c.Connected? ==> c.channel == fallback
    ensures c.Threw? ==> c.reason == callOut.reason
  {
    match callOut
    case Pending => Waiting
    case Failed(reason) => Threw(reason)
    case Done => Connected(fallback)
  }

  /** The fallback of `connect` once makeCallIn has thrown: a data channel
      labelled "default" is created, then makeCallOut runs on `events` (the
      parameters after `peerId` are those of MakeCallOut); the channel is the
      result once makeCallOut returns. */
  method Fallback(peer: PeerConnection, peerId: string, initiatorId: string, initiatorToken: string,
                  offer: Settled<Description>, events: seq<Event>)
    returns (c: Connection, used: nat, callOut: CallResult, ghost fallback: DataChannel, ghost outRun: CallOutRun)
    modifies peer`calls, peer`forwarders, peer.ForwardSockets()`calls
    ensures fresh(fallback) && fallback.name == "default" && used == outRun.used
    ensures CalledOut(events, peerId, initiatorId, initiatorToken, offer, callOut, outRun,
                      old(peer.calls) + [DataChannelCreated("default")], old(peer.forwarders))
    ensures peer.calls == outRun.peerCalls && peer.forwarders == outRun.forwarders
    ensures c == FallbackOutcome(callOut, fallback)
  {
    var ch := peer.CreateDataChannel("default");
    fallback := ch;
    var sock: PeerSocket, a: nat, answer: SignalMessage;
    callOut, sock, used, a, answer := MakeCallOut(peer, peerId, initiatorId, initiatorToken, offer, events);
    outRun := CallOutRun(used, a, answer, sock, sock.calls, peer.calls, peer.forwarders);
    c := FallbackOutcome(callOut, ch);
  }

  /** How a `connect` run went: `u` events were consumed by makeCallIn, which
      ended as `callIn` (its run is `inRun`), and `used` by the whole of
      `connect`; after a throwing makeCallIn, `fallback` is the channel it
      created and makeCallOut ended as `callOut` (its run is `outRun`). */
  datatype ConnectRun = ConnectRun(used: nat, u: nat, callIn: CallResult, callOut: CallResult,
                                   fallback: DataChannel?, inRun: CallInRun, outRun: CallOutRun)

  /** connect(peer, peerId) on `events`, from a peer connection with calls
      `peerBefore` and forwarding listeners `forwardersBefore`, ending with
      `peerAfter` and `forwardersAfter`: makeCallIn runs first, as CalledIn.
      If it is still waiting, so is `connect`. If it returns, the result is
      the channel of the first `datachannel` event after it, meanwhile its
      socket keeps relaying candidates and no channel is created. If it
      throws, a channel labelled "default" is created and makeCallOut runs on
      the rest of the trace, as CalledOut, and decides the result. */
  ghost predicate ConnectRan(events: seq<Event>, peerId: string, responderToken: string, initiatorId: string,
                             initiatorToken: string, answer: Settled<Description>, offer: Settled<Description>,
                             c: Connection, run: ConnectRun, peerBefore: seq<PeerCall>, peerAfter: seq<PeerCall>,
                             forwardersBefore: seq<Forwarder>, forwardersAfter: seq<Forwarder>)
  {
    run.u <= run.used <= |events| &&
    CalledIn(events, peerId, responderToken, answer, run.callIn, run.inRun, peerBefore) && run.inRun.used == run.u &&
    match run.callIn
    case Pending =>
      c == Waiting && run.used == |events| && run.fallback == null &&
      peerAfter == run.inRun.peerCalls && forwardersAfter == forwardersBefore
    case Done =>
      run.fallback == null && !c.Threw? &&
      ChannelSoFar(if c.Connected? then Some(c.channel) else None, events, run.u, run.used) &&
      (c.Waiting? ==> run.used == |events|) &&
      CallsRelayed(peerAfter, run.inRun.peerCalls, events, run.u, run.used) && forwardersAfter == forwardersBefore
    case Failed(_) =>
      run.fallback != null && run.fallback.name == "default" &&
      CalledOut(events[run.u..], peerId, initiatorId, initiatorToken, offer, run.callOut, run.outRun,
                run.inRun.peerCalls + [DataChannelCreated("default")], forwardersBefore) &&
      peerAfter == run.outRun.peerCalls && forwardersAfter == run.outRun.forwarders &&
      run.used == run.u + run.outRun.used && c == FallbackOutcome(run.callOut, run.fallback)
  }

  /** connect(peer, peerId): makeCallIn first; if it throws, a data channel
      labelled "default" is created and makeCallOut runs on the rest of the
      trace, and that channel is the result; if makeCallIn returns, the
      result is the channel of the first `datachannel` event after it.
      `responderToken`, `initiatorId`, `initiatorToken`, `answer` and `offer`
      are the results of generateToken, crypto.randomUUID, createAnswer and
      createOffer. */
  method Connect(peer: PeerConnection, peerId: string, responderToken: string, initiatorId: string,
                 initiatorToken: string, answer: Settled<Description>, offer: Settled<Description>, events: seq<Event>)
    returns (c: Connection, ghost run: ConnectRun)
    modifies peer`calls, peer`forwarders, peer.ForwardSockets()`calls
    ensures run.fallback != null ==> fresh(run.fallback)
    ensures ConnectRan(events, peerId, responderToken, initiatorId, initiatorToken, answer, offer, c, run,
                       old(peer.calls), peer.calls, old(peer.forwarders), peer.forwarders)
  {
    var callIn, sock, u, a, b, offerMessage, gathered := MakeCallIn(peer, peerId, responderToken, answer, events);
    ghost var inRun := CallInRun(u, a, b, offerMessage, gathered, sock, sock.calls, peer.calls);
    ghost var noRun := CallOutRun(0, 0, SignalMessage("", Description(AnswerSdp, None)), null, [], [], []);
    match callIn {
      case Pending =>
        c := Waiting;
        run := ConnectRun(u, u, callIn, Pending, null, inRun, noRun);
      case Failed(_) =>
        var used: nat, callOut: CallResult;
        ghost var fallback: DataChannel, outRun: CallOutRun;
        c, used, callOut, fallback, outRun := Fallback(peer, peerId, initiatorId, initiatorToken, offer, events[u..]);
        run := ConnectRun(u + used, u, callIn, callOut, fallback, inRun, outRun);
      case Done =>
        assert sock !in peer.ForwardSockets();
        var used: nat, found: Option<DataChannel>;
        used, found := AwaitChannel(sock, peer, events, u);
        c := if found.Some? then Connected(found.value) else Waiting;
        run := ConnectRun(used, u, callIn, Pending, null, inRun, noRun);
    }
  }

  /** `type` of a chat message: 'sent' or 'received'. */
  datatype MessageType = Outgoing | Incoming

  /** A chat message; its `id` and `timestamp` come from the clock and are
      not part of this model. */
  datatype ChatMessage = ChatMessage(text: string, messageType: MessageType)

  /** The ConnectionCard component: its refs and its state. React's
      asynchronous state updates are applied at once, in program order. */
  class ConnectionCard {
    var peerId: string
    var peerRef: PeerConnection?
    var channelRef: DataChannel?
    var isConnecting: bool
    var state: ChannelState
    var messages: seq<ChatMessage>
    var messageInput: string
    /** The channels handleConnect has attached its listeners to. */
    ghost var listening: set<DataChannel>

    ghost predicate Valid()
      reads this
    {
      channelRef != null ==> channelRef in listening
    }

    /** The first render: `peerId` from the `id` search parameter, or ''. */
    constructor (idParam: Option<string>)
      ensures Valid() && peerId == (if idParam.Some? then idParam.value else "")
      ensures peerRef == null && channelRef == null && !isConnecting && state == ChannelConnecting
      ensures messages == [] && messageInput == "" && listening == {}
    {
      peerId := if idParam.Some? then idParam.value else "";
      peerRef, channelRef := null, null;
      isConnecting, state := false, ChannelConnecting;
      messages, messageInput := [], "";
      listening := {};
    }

    /** The connect button is enabled: a non-blank id and no peer yet. */
    predicate CanConnect()
      reads this
    {
      !IsBlank(peerId) && peerRef == null
    }

    /** handleSendMessage's guard: a non-blank input and an open channel. */
    predicate CanSend()
      reads this, channelRef
    {
      !IsBlank(messageInput) && channelRef != null && channelRef.readyState == ChannelOpen
    }

    /** handleChangeConnectionId; the URL update is not part of this model. */
    method ChangeConnectionId(value: string)
      modifies this`peerId
      ensures peerId == value
    {
      peerId := value;
    }

    /** handleDisconnect: clears the messages, closes the channel and the peer
        connection that are held, and drops both refs. */
    method HandleDisconnect()
      requires Valid()
      modifies this`messages, this`channelRef, this`peerRef, channelRef, ({peerRef} - {null})`calls
      ensures Valid() && messages == [] && channelRef == null && peerRef == null
      ensures old(channelRef) != null ==>
        old(channelRef).closeCalled && old(channelRef).sent == old(channelRef.sent) &&
        old(channelRef).readyState == (if old(channelRef.readyState) == ChannelClosed then ChannelClosed else ChannelClosing)
      ensures old(peerRef) != null ==> old(peerRef).calls == old(peerRef.calls) + [PeerClosed]
      ensures !IsBlank(peerId) ==> CanConnect()
    {
      messages := [];
      if channelRef != null {
        channelRef.Close();
        channelRef := null;
      }
      if peerRef != null {
        peerRef.Close();
        peerRef := null;
      }
    }

    /** handleConnect: on a blank id nothing happens; no peer connection is
        made, so `peer` is null and `c` (then `Waiting`) reports no outcome.
        On a non-blank id, a new peer connection is held in `peerRef` and
        `connect` runs on it (the parameters are those of Connect). While it
        waits the card is connecting; if it throws the peer is dropped; once
        it yields a channel, the channel is held, its state shown and the
        listeners attached. */
    method HandleConnect(responderToken: string, initiatorId: string, initiatorToken: string,
                         answer: Settled<Description>, offer: Settled<Description>, events: seq<Event>)
      returns (c: Connection, peer: PeerConnection?, ghost run: ConnectRun)
      requires Valid()
      modifies this`isConnecting, this`peerRef, this`channelRef, this`state, this`listening
      ensures Valid()
      ensures peerId == old(peerId) && messages == old(messages) && messageInput == old(messageInput)
      ensures peer == null <==> IsBlank(peerId)
      ensures IsBlank(peerId) ==>
        c == Waiting && peer == null && isConnecting == old(isConnecting) && peerRef == old(peerRef) &&
        channelRef == old(channelRef) && state == old(state) && listening == old(listening)
      ensures !IsBlank(peerId) ==> fresh(peer) && (run.fallback != null ==> fresh(run.fallback))
      ensures !IsBlank(peerId) ==>
        ConnectRan(events, peerId, responderToken, initiatorId, initiatorToken, answer, offer, c, run,
                   [], peer.calls, [], peer.forwarders)
      ensures !IsBlank(peerId) ==> (CanConnect() <==> c.Threw?)
      ensures !IsBlank(peerId) && c.Waiting? ==>
        isConnecting && peerRef == peer && channelRef == old(channelRef) && state == old(state) && listening == old(listening)
      ensures c.Threw? ==>
        !isConnecting && peerRef == null && channelRef == old(channelRef) && state == old(state) && listening == old(listening)
      ensures c.Connected? ==>
        !isConnecting && peerRef == peer && channelRef == c.channel && state == c.channel.readyState &&
        listening == old(listening) + {c.channel}
    {
      if IsBlank(peerId) {
        c, peer := Waiting, null;
        run := ConnectRun(0, 0, Pending, Pending, null, CallInRun(0, 0, 0, SignalMessage("", Description(OfferSdp, None)), [], null, [], []),
                          CallOutRun(0, 0, SignalMessage("", Description(AnswerSdp, None)), null, [], [], []));
        return;
      }
      c, peer, run := Start(responderToken, initiatorId, initiatorToken, answer, offer, events);
    }

    /** handleConnect past its guard: the card is connecting, a new peer
        connection is held in `peerRef`, `connect` runs on it, and the card
        shows how it settled. */
    method Start(responderToken: string, initiatorId: string, initiatorToken: string,
                 answer: Settled<Description>, offer: Settled<Description>, events: seq<Event>)
      returns (c: Connection, peer: PeerConnection, ghost run: ConnectRun)
      requires Valid()
      modifies this`isConnecting, this`peerRef, this`channelRef, this`state, this`listening
      ensures Valid() && fresh(peer) && (run.fallback != null ==> fresh(run.fallback))
      ensures ConnectRan(events, peerId, responderToken, initiatorId, initiatorToken, answer, offer, c, run,
                         [], peer.calls, [], peer.forwarders)
      ensures c.Waiting? ==>
        isConnecting && peerRef == peer && channelRef == old(channelRef) && state == old(state) && listening == old(listening)
      ensures c.Threw? ==>
        !isConnecting && peerRef == null && channelRef == old(channelRef) && state == old(state) && listening == old(listening)
      ensures c.Connected? ==>
        !isConnecting && peerRef == peer && channelRef == c.channel && state == c.channel.readyState &&
        listening == old(listening) + {c.channel}
    {
      isConnecting := true;
      peer := new PeerConnection();
      peerRef := peer;
      assert peer.ForwardSockets() == {};
      c, run := Connect(peer, peerId, responderToken, initiatorId, initiatorToken, answer, offer, events);
      Show(c);
    }

    /** The end of handleConnect once `connect` has settled as `c`: still
        connecting while it waits; the peer dropped if it throws; the channel
        held, its state shown and listened to once it yields one. */
    method Show(c: Connection)
      requires Valid()
      modifies this`isConnecting, this`peerRef, this`channelRef, this`state, this`listening
      ensures Valid()
      ensures c.Waiting? ==>
        isConnecting == old(isConnecting) && peerRef == old(peerRef) && channelRef == old(channelRef) &&
        state == old(state) && listening == old(listening)
      ensures c.Threw? ==>
        !isConnecting && peerRef == null && channelRef == old(channelRef) && state == old(state) && listening == old(listening)
      ensures c.Connected? ==>
        !isConnecting && peerRef == old(peerRef) && channelRef == c.channel && state == c.channel.readyState &&
        listening == old(listening) + {c.channel}
    {
      match c {
        case Waiting =>
        case Threw(_) =>
          peerRef := null;
          isConnecting := false;
        case Connected(ch) =>
          channelRef := ch;
          state := ch.readyState;
          listening := listening + {ch};
          isConnecting := false;
      }
    }

    /** The `open` and `closing` listeners: the card shows the channel's state. */
    method OnChannelStateChange(ch: DataChannel)
      requires ch in listening
      modifies this`state
      ensures state == ch.readyState
    {
      state := ch.readyState;
    }

    /** The `close` listener: the card shows the channel's state, then
        disconnects. */
    method OnChannelClose(ch: DataChannel)
      requires Valid() && ch in listening
      modifies this`state, this`messages, this`channelRef, this`peerRef, channelRef, ({peerRef} - {null})`calls
      ensures Valid() && messages == [] && channelRef == null && peerRef == null
      ensures state == old(ch.readyState)
      ensures old(channelRef) != null ==> old(channelRef).closeCalled
      ensures old(peerRef) != null ==> old(peerRef).calls == old(peerRef.calls) + [PeerClosed]
    {
      state := ch.readyState;
      HandleDisconnect();
    }

    /** The `message` listener: the data is appended as a received message. */
    method OnChannelMessage(ch: DataChannel, data: string)
      requires ch in listening
      modifies this`messages
      ensures messages == old(messages) + [ChatMessage(data, Incoming)]
    {
      messages := messages + [ChatMessage(data, Incoming)];
    }

    /** handleSendMessage: when CanSend, the input is appended as a sent
        message, sent on the channel and cleared; otherwise nothing happens. */
    method HandleSendMessage()
      modifies this`messages, this`messageInput, ({channelRef} - {null})`sent
      ensures old(CanSend()) ==>
        messages == old(messages) + [ChatMessage(old(messageInput), Outgoing)] &&
        channelRef.sent == old(channelRef.sent) + [old(messageInput)] && messageInput == ""
      ensures !old(CanSend()) ==>
        messages == old(messages) && messageInput == old(messageInput) &&
        (channelRef != null ==> channelRef.sent == old(channelRef.sent))
    {
      if IsBlank(messageInput) || channelRef == null || channelRef.readyState != ChannelOpen {
        return;
      }
      messages := messages + [ChatMessage(messageInput, Outgoing)];
      channelRef.Send(messageInput);
      messageInput := "";
    }

    /** handleKeyDown: Enter without Shift sends. */
    method HandleKeyDown(key: string, shiftKey: bool)
      modifies this`messages, this`messageInput, ({channelRef} - {null})`sent
      ensures key == "Enter" && !shiftKey && old(CanSend()) ==>
        messages == old(messages) + [ChatMessage(old(messageInput), Outgoing)] &&
        channelRef.sent == old(channelRef.sent) + [old(messageInput)] && messageInput == ""
      ensures !(key == "Enter" && !shiftKey && old(CanSend())) ==>
        messages == old(messages) && messageInput == old(messageInput) &&
        (channelRef != null ==> channelRef.sent == old(channelRef.sent))
    {
      if key == "Enter" && !shiftKey {
        HandleSendMessage();
      }
    }
  }
}
