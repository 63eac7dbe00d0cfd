# react-webrtc signalling, modelled in Dafny

This project models the browser-side signalling of the `react-webrtc` app.
Two browsers set up a WebRTC data channel through the public PeerJS relay
(`wss://0.peerjs.com/peerjs`). The relay carries one JSON frame per WebSocket
message. The model covers:

- **the relay socket** (`createPeerWebSocket`): the registration handshake
  (`OPEN` / `ID-TAKEN` / `error`) and the 5-second `HEARTBEAT` keep-alive;
- **the signalling frames**: `OFFER`, `ANSWER` and `CANDIDATE`, their
  builders and their receivers;
- **the responder script** `makeCallIn`: it registers under the peer id,
  waits for an OFFER, relays incoming CANDIDATE frames to the peer
  connection, waits for local candidate gathering to finish, then sends an
  ANSWER. The gathered candidates are merged into the SDP text after the
  `a=setup:active` line (`mergeDescription`);
- **the initiator script** `makeCallOut`: it registers under a fresh id,
  sends the OFFER, waits for the ANSWER and forwards its local candidates
  as CANDIDATE frames;
- **the `ConnectionCard` component**: `connect` tries the responder role
  first and falls back to the initiator role. The state logic of the card's
  connect, disconnect and send handlers and of its data-channel listeners is
  modelled too.

The browser is an ordered trace of events (`Calls.Event`): socket events,
`icecandidate` events and `datachannel` events. Each `await` is a loop. The
loop hands the next event to every listener attached at that point, until
the awaited promise settles. If the trace runs out first, the script is
still waiting (`Pending`). Promises settle once: a later `resolve` or
`reject` is a no-op (`Wire.Then`, `Trace.First`).

The socket, the peer connection, the data channel and the card are classes
whose fields the handlers update. The peer connection is recorded as the log
of calls made on it, and the socket as the log of `send`/`close` calls. The
specification functions over traces live in `Trace` and `Handshake`. Each
await loop is proved against them.

What `rtc-peer.ts` does not do is part of the model too. Candidates that
arrive before a receiver exists are not buffered. Received frames are not
checked against the expected sender's id. A send after close raises no error
in the script. makeCallOut closes its relay socket right after applying the
ANSWER, before the peer connection is up.

## Model

| member | source | states |
|---|---|---|
| Wire.CandidateFrame | apps/react-webrtc/lib/rtc-peer.ts:58-68 | a CANDIDATE frame is addressed to the peer id, has no `src`, and carries the candidate |
| Wire.HeartbeatFrame | apps/react-webrtc/lib/rtc-peer.ts:15 | the keep-alive frame has type HEARTBEAT and nothing else: no `src`, no `dst`, no payload |
| Wire.SignalFrame | apps/react-webrtc/lib/rtc-peer.ts:86-96 | an OFFER/ANSWER frame is addressed to the message's peer id and carries its description under the kind's tag |
| Wire.Received | apps/react-webrtc/lib/rtc-peer.ts:97-115 | a receiver accepts a frame iff it has its tag, a `src` and an SDP payload; the message is `{peerId: src, sdp}` |
| Wire.RelayedCandidate | apps/react-webrtc/lib/rtc-peer.ts:70-80 | only a CANDIDATE frame yields a candidate, and then exactly its payload's candidate |
| Wire.TagsDistinct | apps/react-webrtc/lib/rtc-peer.ts:24-33 | the frame types are pairwise distinct (OPEN and ID-TAKEN included), so no listener mistakes one frame for another |
| Wire.SignalRoundTrip | apps/react-webrtc/lib/rtc-peer.ts:86-151 | a sent OFFER/ANSWER, once relayed from `from`, is received as `(from, description)` by its own kind and ignored by the other kind |
| Wire.CandidateRoundTrip | apps/react-webrtc/lib/rtc-peer.ts:58-80 | a relayed CANDIDATE frame hands back exactly the sent candidate; relayed OFFER/ANSWER frames hand back none |
| Trace.FirstAppend | apps/react-webrtc/lib/rtc-peer.ts:97-115 | one more event settles a pending promise with that event's decision and leaves a settled one unchanged |
| Trace.FirstSettled | apps/react-webrtc/lib/rtc-peer.ts:97-115 | settle-once: events after the settling one never change the outcome |
| Trace.FirstIff | apps/react-webrtc/lib/rtc-peer.ts:97-115 | the promise settles with `v` iff some event decides `v` and no earlier event decides anything |
| Trace.FirstPending | apps/react-webrtc/lib/rtc-peer.ts:97-115 | the promise stays pending iff no event decides anything |
| Trace.PresentAllSome | apps/react-webrtc/lib/rtc-peer.ts:41-52 | with no sentinel, the collected candidates are all the events' candidates, in order |
| Trace.PresentCons | apps/react-webrtc/lib/rtc-peer.ts:49 | collecting is `push` in arrival order |
| Trace.GatheredIff | apps/react-webrtc/lib/rtc-peer.ts:41-52 | recvICECandidate resolves iff a null sentinel has arrived |
| Trace.GatheredOf | apps/react-webrtc/lib/rtc-peer.ts:41-52 | a resolved gathering holds fewer candidates than the events it saw, since the sentinel is not collected |
| Trace.GatheredPrefix | apps/react-webrtc/lib/rtc-peer.ts:41-52 | the resolved array is exactly the candidates before the first sentinel, in order |
| Trace.GatheredAppend | apps/react-webrtc/lib/rtc-peer.ts:44-50 | one more event: a sentinel resolves a pending gatherer with everything so far; a resolved gatherer ignores everything |
| Handshake.RegisteredIff | apps/react-webrtc/lib/rtc-peer.ts:22-37 | the handshake resolves iff its first decisive event is an `OPEN` frame |
| Handshake.Decisive | apps/react-webrtc/lib/rtc-peer.ts:22-37 | a single event registers iff it is an `OPEN` frame, and refuses iff it is `error` or an `ID-TAKEN` frame |
| Handshake.RefusedIff | apps/react-webrtc/lib/rtc-peer.ts:22-37 | it rejects with `reason` iff the first decisive event is `ID-TAKEN` ("id taken") or `error` ("error") |
| Handshake.RegistrationSettlesOnce | apps/react-webrtc/lib/rtc-peer.ts:25-32 | once decided, the handshake's outcome never changes, whatever events follow |
| Handshake.ReceivedAppend | apps/react-webrtc/lib/rtc-peer.ts:97-151 | one more socket event is offered to a pending receiver and ignored by a settled one |
| Handshake.Delivery | apps/react-webrtc/lib/rtc-peer.ts:97-151 | a receiver rejects on an event iff it is `close`; it resolves only on a frame of its type, with the message of the frame's `src`; it ignores exactly the events that are neither `close` nor such a frame with `src` and an SDP payload |
| Handshake.ReceivedIff | apps/react-webrtc/lib/rtc-peer.ts:97-151 | a receiver resolves with `m` iff some frame yields `m` and no earlier frame of its type or `close` came first |
| Handshake.ClosedRejectsIff | apps/react-webrtc/lib/rtc-peer.ts:111-113 | a receiver rejects iff a `close` precedes every frame of its type, and the reason is "socket closed" |
| Handshake.RejectedByClose | apps/react-webrtc/lib/rtc-peer.ts:147-149 | a rejected receiver saw a `close` before any frame of its type |
| Handshake.CloseRejects | apps/react-webrtc/lib/rtc-peer.ts:111-113 | a `close` before any frame of the awaited type rejects with "socket closed" |
| Handshake.ReceivedSettlesOnce | apps/react-webrtc/lib/rtc-peer.ts:97-151 | later frames and closes never change a settled receiver |
| Handshake.RelayedCandidates | apps/react-webrtc/lib/rtc-peer.ts:70-80 | relaying a run of CANDIDATE frames adds exactly those candidates, in order |
| Handshake.Relay | apps/react-webrtc/lib/rtc-peer.ts:70-80 | only a CANDIDATE frame relays a candidate, and a CANDIDATE frame with a candidate payload relays exactly that candidate |
| Handshake.RelayedOf | apps/react-webrtc/lib/rtc-peer.ts:70-80 | relaying never adds more candidates than there were events |
| Handshake.RelayIgnores | apps/react-webrtc/lib/rtc-peer.ts:74-78 | handleICECandidate ignores every event that is not a CANDIDATE frame |
| Sdp.IndexFrom | apps/react-webrtc/lib/rtc-peer.ts:159-160 | the search finds the first occurrence at or after `from`, or reports that there is none |
| Sdp.IndexOfIsFirst | apps/react-webrtc/lib/rtc-peer.ts:159-160 | the occurrence with none before it is the one `replace` finds |
| Sdp.Substitution | apps/react-webrtc/lib/rtc-peer.ts:159-167 | a template without `$` is inserted literally |
| Sdp.Replace | apps/react-webrtc/lib/rtc-peer.ts:159-167 | a string without an occurrence of the pattern is returned unchanged |
| Sdp.ReplaceKeepsOutside | apps/react-webrtc/lib/rtc-peer.ts:159-167 | whatever the replacement text, the text before the first occurrence and the text after it are kept |
| Sdp.ReplaceLiteral | apps/react-webrtc/lib/rtc-peer.ts:159-167 | a `$`-free replacement substitutes the first occurrence only and keeps the rest |
| Sdp.JoinAvoids | apps/react-webrtc/lib/rtc-peer.ts:162-166 | `join` introduces no character that is in neither the lines nor the separator |
| Sdp.SplitNoSeparator | apps/react-webrtc/lib/rtc-peer.ts:166 | `Split` is not in the source: it is the inverse through which SplitJoin states that the `join` here loses nothing; a line without the separator splits into itself |
| Sdp.SplitAfterLine | apps/react-webrtc/lib/rtc-peer.ts:166 | `Split` is not in the source (see SplitNoSeparator); splitting peels off one separator-free line |
| Sdp.SplitJoin | apps/react-webrtc/lib/rtc-peer.ts:162-166 | splitting the joined lines on the separator gives back the lines |
| Sdp.CandidateLines | apps/react-webrtc/lib/rtc-peer.ts:162-165 | one `a=<candidate>` line per candidate, in order |
| Sdp.InsertionLiteral | apps/react-webrtc/lib/rtc-peer.ts:160-166 | `$`-free candidates make a `$`-free replacement text |
| Sdp.MergeDescription | apps/react-webrtc/lib/rtc-peer.ts:153-169 | the description's type is kept, and the merged SDP is present iff the original SDP is |
| Sdp.MergeShape | apps/react-webrtc/lib/rtc-peer.ts:153-169 | the type is kept; a missing SDP stays missing; no marker means no change; otherwise the candidate lines follow the first marker and a newline |
| Sdp.MergeNoCandidates | apps/react-webrtc/lib/rtc-peer.ts:153-169 | with no candidates only a newline is added after the marker |
| Sdp.IndexOfPrefix | apps/react-webrtc/lib/rtc-peer.ts:159-160 | the first occurrence depends only on the text up to its end |
| Sdp.CandidateLinesSingle | apps/react-webrtc/lib/rtc-peer.ts:163-165 | newline-free candidates give newline-free lines |
| Sdp.MergeHead | apps/react-webrtc/lib/rtc-peer.ts:153-169 | the merged SDP keeps the original text up to the end of the first `a=setup:active`, and is that text, a newline, the joined candidate lines and the rest of the original |
| Sdp.MergeKeepsMarker | apps/react-webrtc/lib/rtc-peer.ts:153-169 | the first `a=setup:active` of the merged SDP is where it was in the original |
| Sdp.MergeKeepsMarkerAndLines | apps/react-webrtc/lib/rtc-peer.ts:153-169 | in the merged SDP the first `a=setup:active` stays where it was, the original text is kept whole around the block inserted right after it (a newline, then the candidate lines), and that block splits back into exactly the candidate lines |
| RtcPeer.DeliverAll | apps/react-webrtc/lib/rtc-peer.ts:99-113 | every attached receiver, in order, is offered the event |
| RtcPeer.RelayUrlDistinct | apps/react-webrtc/lib/rtc-peer.ts:8-10 | for ids without `&`, the relay URL determines both the id and the token: two sockets with different ids or tokens never share a URL |
| RtcPeer.PeerSocket.constructor | apps/react-webrtc/lib/rtc-peer.ts:5-11 | the socket opens on the relay URL with the id and token, connecting, with nothing sent and the handshake pending |
| RtcPeer.PeerSocket.OnOpened | apps/react-webrtc/lib/rtc-peer.ts:12-20 | `open` starts the keep-alive interval |
| RtcPeer.PeerSocket.OnMessage | apps/react-webrtc/lib/rtc-peer.ts:22-36 | `OPEN` detaches awaitPeerOpen and resolves; `ID-TAKEN` rejects; receivers and the relay see every frame; the `OPEN` case falling through into `reject` does not change the resolved outcome |
| RtcPeer.PeerSocket.OnErrored | apps/react-webrtc/lib/rtc-peer.ts:37 | `error` rejects a pending handshake |
| RtcPeer.PeerSocket.OnClosed | apps/react-webrtc/lib/rtc-peer.ts:17-19 | `close` clears the interval and rejects pending receivers |
| RtcPeer.PeerSocket.OnTick | apps/react-webrtc/lib/rtc-peer.ts:13-16 | a tick sends one HEARTBEAT only while the interval exists and the socket is OPEN |
| RtcPeer.KeepAlivesPerTick | apps/react-webrtc/lib/rtc-peer.ts:12-19 | the keep-alive over any run of socket events (KeepAliveOver, which the await loops follow) sends at most one HEARTBEAT per tick |
| RtcPeer.SilentWithoutOpen | apps/react-webrtc/lib/rtc-peer.ts:12-19 | no HEARTBEAT is ever sent by a socket whose interval is not running (or is cleared by the first event) and that never sees `open`, and its interval is then not running |
| RtcPeer.PeerSocket.OnEvent | apps/react-webrtc/lib/rtc-peer.ts:12-37 | each socket event sets the ready state (`open` opens, `close` closes), starts or clears the keep-alive, sends a HEARTBEAT on a tick only while the interval runs on an OPEN socket, detaches awaitPeerOpen on `OPEN`, and updates the registration, receivers and relay as the handshake and receiver specifications say |
| RtcPeer.PeerSocket.Send | apps/react-webrtc/lib/rtc-peer.ts:59-67 | a send appends the frame to the socket's calls |
| RtcPeer.PeerSocket.Close | apps/react-webrtc/lib/rtc-peer.ts:184 | close is recorded, and a connecting or open socket starts closing |
| RtcPeer.PeerSocket.Receive | apps/react-webrtc/lib/rtc-peer.ts:97-115 | recvOffer/AnswerMessage attach one pending receiver |
| RtcPeer.PeerSocket.RelayCandidates | apps/react-webrtc/lib/rtc-peer.ts:70-71 | handleICECandidate attaches the relay |
| RtcPeer.Gatherer.OnIceCandidate | apps/react-webrtc/lib/rtc-peer.ts:44-50 | a null candidate resolves; any other is pushed |
| RtcPeer.DataChannel.Send | apps/react-webrtc/components/rtc-peer-card.tsx:137 | the data is appended to what the channel sent |
| RtcPeer.DataChannel.Close | apps/react-webrtc/components/rtc-peer-card.tsx:73 | close is recorded and an unclosed channel starts closing |
| RtcPeer.AddedCandidatesIndex | apps/react-webrtc/lib/rtc-peer.ts:75-77 | one addIceCandidate call per relayed candidate, in order |
| RtcPeer.ForwardedTargets | apps/react-webrtc/lib/rtc-peer.ts:197-203 | a null candidate makes no forwarding send; otherwise a socket gets exactly one CANDIDATE per listener attached to it (as many as ListenersOn counts), addressed to that listener's peer and carrying the candidate, and nothing else |
| RtcPeer.PeerConnection.SetRemoteDescription | apps/react-webrtc/lib/rtc-peer.ts:173 | the call is appended to the peer's log |
| RtcPeer.PeerConnection.SetLocalDescription | apps/react-webrtc/lib/rtc-peer.ts:182 | the call is appended to the peer's log |
| RtcPeer.PeerConnection.AddIceCandidate | apps/react-webrtc/lib/rtc-peer.ts:76 | the call is appended to the peer's log |
| RtcPeer.PeerConnection.CreateDataChannel | apps/react-webrtc/components/rtc-peer-card.tsx:18 | a fresh channel with the given label, connecting; the call is logged |
| RtcPeer.PeerConnection.Close | apps/react-webrtc/components/rtc-peer-card.tsx:78 | the call is appended to the peer's log |
| RtcPeer.PeerConnection.Forward | apps/react-webrtc/lib/rtc-peer.ts:197 | makeCallOut's listener is attached after the earlier ones |
| RtcPeer.PeerConnection.OnIceCandidate | apps/react-webrtc/lib/rtc-peer.ts:197-203 | every forwarding listener, in attachment order, sends a CANDIDATE for a non-null candidate to its peer on its socket; the null sentinel sends nothing |
| Calls.GatheringStep | apps/react-webrtc/lib/rtc-peer.ts:41-52 | the gatherer's state agrees with the gathering specification after each event |
| Calls.RelayStep | apps/react-webrtc/lib/rtc-peer.ts:70-80 | the relay's calls grow by the candidate of one more socket event |
| Calls.Step | apps/react-webrtc/lib/rtc-peer.ts:12-52 | one event goes to the socket's listeners (ready state, keep-alive, HEARTBEAT count, awaitPeerOpen, registration, receivers), the relay (once attached), the gatherer (if any) and every forwarding listener's socket; non-socket events leave the socket's state alone |
| Calls.AwaitRegistration | apps/react-webrtc/lib/rtc-peer.ts:171 | `await createPeerWebSocket` ends at the first decisive event, with that outcome, or the trace runs out; meanwhile the keep-alive follows KeepAliveOver over the socket events delivered |
| Calls.AwaitSignal | apps/react-webrtc/lib/rtc-peer.ts:172 | `await recv<Offer/Answer>Message` ends at the first event that settles the receiver, with that outcome; meanwhile the keep-alive follows KeepAliveOver over the socket events delivered |
| Calls.AwaitGathering | apps/react-webrtc/lib/rtc-peer.ts:175-183 | `await replyAnwserPromise` ends at the first sentinel with the candidates before it; every CANDIDATE frame meanwhile is added to the peer, and the keep-alive follows KeepAliveOver over the socket events delivered |
| Calls.MakeCallIn | apps/react-webrtc/lib/rtc-peer.ts:170-186 | responder: the socket carries the peer id and its URL; a refused or pending registration is the outcome with no peer call; once registered, the OFFER await, the answer and the reply go as Answered says |
| Calls.Answer | apps/react-webrtc/lib/rtc-peer.ts:172-185 | a closed socket rejects with "socket closed"; only a resolved OFFER leads to the response, with exactly that OFFER's sender and description |
| Calls.AnsweredDone | apps/react-webrtc/lib/rtc-peer.ts:172-185 | a responder that returns received an OFFER and answered exactly it: its remote description is that OFFER's, then the local answer, and its last socket calls are the ANSWER with merged candidates to the OFFER's sender and the close |
| Calls.Respond | apps/react-webrtc/lib/rtc-peer.ts:173-185 | the remote description is set; a rejected createAnswer throws its reason with nothing else done; otherwise the local description, the relayed candidates, and the ANSWER with merged candidates to the offer's sender only once gathering completes, then close |
| Calls.Reply | apps/react-webrtc/lib/rtc-peer.ts:176-184 | the ANSWER frame is sent, then the socket closes |
| Calls.MakeCallOut | apps/react-webrtc/lib/rtc-peer.ts:188-208 | initiator: the socket carries the fresh id and its URL; a refused or pending registration is the outcome; once registered, the offer goes as Offered says, and the forwarder to `peerId` on this socket is attached exactly when the script returns |
| Calls.Offer | apps/react-webrtc/lib/rtc-peer.ts:190-207 | a rejected createOffer throws its reason with nothing done; otherwise local description, then the OFFER to `peerId`, then the ANSWER await: on the ANSWER, the forwarder, the remote description and close; on a rejection only the OFFER was sent |
| PeerCard.TrimStartShape | apps/react-webrtc/components/rtc-peer-card.tsx:84 | trimming the start removes exactly a run of leading white space |
| PeerCard.TrimEndShape | apps/react-webrtc/components/rtc-peer-card.tsx:84 | trimming the end removes exactly a run of trailing white space |
| PeerCard.BlankIff | apps/react-webrtc/components/rtc-peer-card.tsx:84 | `!s.trim()` holds iff every character is white space |
| PeerCard.ChannelOfIff | apps/react-webrtc/components/rtc-peer-card.tsx:23-28 | the responder's channel is the one of the first `datachannel` event |
| PeerCard.ChannelSnoc | apps/react-webrtc/components/rtc-peer-card.tsx:23-28 | one more event settles the channel promise only if it is still pending |
| PeerCard.AwaitChannel | apps/react-webrtc/components/rtc-peer-card.tsx:23-30 | the wait ends at the first `datachannel` event with its channel; the relay keeps adding candidates meanwhile |
| PeerCard.FallbackOutcome | apps/react-webrtc/components/rtc-peer-card.tsx:17-20 | connect returns the fallback channel iff makeCallOut returns, and throws makeCallOut's reason iff it throws |
| PeerCard.Fallback | apps/react-webrtc/components/rtc-peer-card.tsx:17-21 | a "default" channel is created, then makeCallOut runs as MakeCallOut says, from the peer log ending in that creation; the channel is the result iff makeCallOut returns |
| PeerCard.Connect | apps/react-webrtc/components/rtc-peer-card.tsx:14-31 | makeCallIn runs first as MakeCallIn says; if it waits, so does connect; if it returns, the result is the first `datachannel` channel after it, no channel is created and its relay keeps adding candidates; only if it throws is a "default" channel created and makeCallOut run on the rest of the trace, and makeCallOut's outcome decides the result |
| PeerCard.ConnectionCard.constructor | apps/react-webrtc/components/rtc-peer-card.tsx:45-52 | the peer id comes from the `id` parameter or is ''; no peer, no channel, not connecting |
| PeerCard.ConnectionCard.ChangeConnectionId | apps/react-webrtc/components/rtc-peer-card.tsx:63-68 | the peer id is the input's value |
| PeerCard.ConnectionCard.HandleDisconnect | apps/react-webrtc/components/rtc-peer-card.tsx:70-81 | messages cleared; the held channel and peer are closed and dropped, so a non-blank id can connect again |
| PeerCard.ConnectionCard.HandleConnect | apps/react-webrtc/components/rtc-peer-card.tsx:83-119 | a blank id does nothing and makes no peer (`peer` is null exactly then, and `c` reports no outcome); otherwise a fresh peer is held, `connect` runs on it as Connect says, and the card is connecting while it waits, drops the peer (re-enabling connect) on a throw, and holds and listens to the channel it yields |
| PeerCard.ConnectionCard.Start | apps/react-webrtc/components/rtc-peer-card.tsx:86-118 | past the guard: a fresh peer is held and `connect` runs on it as Connect says; the card then shows how it settled |
| PeerCard.ConnectionCard.OnChannelStateChange | apps/react-webrtc/components/rtc-peer-card.tsx:92-97 | `open`/`closing` show the channel's state |
| PeerCard.ConnectionCard.OnChannelClose | apps/react-webrtc/components/rtc-peer-card.tsx:98-101 | `close` shows the state, then disconnects |
| PeerCard.ConnectionCard.OnChannelMessage | apps/react-webrtc/components/rtc-peer-card.tsx:102-112 | the data is appended as a received message |
| PeerCard.ConnectionCard.HandleSendMessage | apps/react-webrtc/components/rtc-peer-card.tsx:121-139 | with a non-blank input and an open channel: appended as sent, sent on the channel, input cleared; otherwise nothing changes |
| PeerCard.ConnectionCard.HandleKeyDown | apps/react-webrtc/components/rtc-peer-card.tsx:141-146 | Enter without Shift sends: the input is appended as sent, sent on the channel and cleared; any other key changes neither the messages, the input nor what the channel sent |

## Left out

- Real I/O: the WebSocket, ICE, DTLS and the relay server are not modelled. The browser is the event trace given to each script.
- The results of generateToken (`Math.random`) and `crypto.randomUUID` are parameters, and so is how createOffer and createAnswer settle: a description, or a rejection with its reason (`Wire.Settled`). No event is delivered while createOffer or createAnswer is awaited.
- The keep-alive's HEARTBEAT frames are counted in `keepAlives`. They are not ordered among the socket's other `send`/`close` calls (`Wire.HeartbeatFrame` is their frame).
- Message events are dispatched whatever the socket's `readyState`. The browser's own gating of events on closed sockets is not modelled.
- Malformed frames: `JSON.parse` and a missing `payload` would throw inside a listener. Here a frame of the awaited type without `src` or an SDP payload is simply not matched.
- `setRemoteDescription` and `setLocalDescription` are not awaited in the source. The model records them in program order and does not model their failures.
- A send on a closing or closed socket, and what the browser does with it, is not modelled.
- After makeCallIn returns, its socket keeps relaying candidates while `connect` waits for the `datachannel` event. Once makeCallOut starts, events from makeCallIn's socket are not followed any further. Listeners of a script that has returned are otherwise not followed.
- Every socket event in the trace goes to the socket of the script that is running.
- makeCallOut attaches its forwarding listener only after the ANSWER. Local candidates gathered before that are dropped, as in the source.
- React state updates are applied at once, in program order. Re-renders, `Date.now()` ids and timestamps, JSX, scrolling and the router/URL sync are not modelled.
- Handshake.RefusedIff: the `error` listener is `reject` itself, so the browser rejects with the Event object. The model names that reason "error".
- Sdp.MergeShape: the shape is proved for candidate strings without `$`. With a `$`, `String.prototype.replace` expands substitution patterns (`Sdp.Substitution` models section 22.1.3.19.1 of ECMA-262), and no shape is claimed.
- Sdp.MergeKeepsMarkerAndLines: requires `$`-free candidates with no newline, as ICE candidate attributes are single lines (section 5.1 of RFC 8839).
