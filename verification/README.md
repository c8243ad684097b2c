# xnet, modelled and verified

A Dafny model of the protocols of xnet, a library for connecting peers over QUIC, with proofs of
what they keep. It follows the four layers of the library.

**Messages on a channel.** `HeaderCodec`, `Messages`, `AckTables`, `ByteStreams`, `Channels` and
`Framing` model the framed codec of `network/channel.go` down to the bytes: the protobuf header is
written out as varints and length-delimited strings, the body codec is a parameter (an unmarshaler
per type, as in the code). `Channel` and `ByteStream` are classes with the loops and buffers of
the original; pure functions on the unread bytes and on the table of waiting sends specify them.
`AckProtocol` runs two such endpoints with any number of concurrent senders, a reader and a
closer on each side as a transition system; `Links` ties its streams of frames to the bytes.
`Handshake` is the stream handshake on top.

**Sessions of a server.** `Registry` specifies the session registry of `udp/server` on values, for
every interleaving of sessions; `Udps` has the classes `Client` and `Server` that refine it.

**Broker and relay.** `RelaySpec` and `RelayProtocol` join the broker's books, the relay's
connection table and the relay's session registry into one transition system; `RelayServer` (in
`Relay.dfy`) has the classes. `BrokerSpec` and `BrokerProtocol` do the same for setting up a
connection between source, broker and target; `Broker` has the broker's classes. `PeerProtocol` is
the target's side of direct connections, and `Peer` has the classes of a peer. The calls between
the parties are the abstract calls of `Calls`, which the senders of `AckProtocol` are proved to
refine.

**Client.** `ClientLifecycle` specifies dialling, initialization, reconnecting and closing of
`udp/client`; `Udpc` has the class. `CandidateRace` is the race of dialling candidates of
`p2p/client/p2p.go`, proved to refine the select loop that ends it.

Timers, lost links, scheduling and the order of map iteration are free choices: a theorem about
runs holds for every sequence of steps, where a step that is not possible does nothing. Regions
under a lock and handler bodies are single steps, except where a handler waits for a reply and for
the relay's admission of a client, which is two.

Where the code differs from what its text suggests, the model follows the code:

- `Read` never sets `Ackr`, so a round trip clears it.
- A send whose write fails leaves its entry in the table.
- The timer of the relay's `awaitPeer` does not end the wait, but makes it fail in the end
  (`RelaySpec.AwaitDecidedByMessage`).
- A broker that gives up on a target does not close the record it made for the request, but
  whatever is listed under the same id (`BrokerProtocol.GivingUpHitsSameId`).
- A session closed while it is being validated ends up in the registry
  (`Registry.LateValidationListsClosedSession`), and at the relay a client whose connection closes
  in the meantime is registered without it (`RelayProtocol.CloseInBetweenRuns`).
- A peer's connection closed before it began to connect is connected all the same as long as it is
  listed (`PeerProtocol.EarlyCloseRuns`).
- A second `Connect` on a live client starts a second reader (`ClientLifecycle.ReaderHandOver`).
- `CloseAllConnections` of the broker leaves the closed connections listed.
- A second client that checks in is told that it succeeded although it is not kept
  (`Peer.P2PConn.CheckinRemoteClient`).

Check the project with `dafny verify dfyconfig.toml` (Dafny 4.11).

## Model

| member | source | states |
|---|---|---|
| HeaderCodec.Uint32RoundTrip | network/channel.go:80 | the big-endian length field gives back any number modulo 2^32, so exactly the lengths below 2^32 survive |
| HeaderCodec.BigEndian | network/channel.go:166-170 | the length field holds the number modulo 2^32, most significant byte first |
| HeaderCodec.VarintRoundTrip | network/model/network.proto:6-16 | a varint (section 'Base 128 Varints' of the Protocol Buffers encoding guide) decodes to the number that was encoded and consumes its own bytes only, whatever follows |
| HeaderCodec.VarintsExactly | network/model/network.proto:6-16 | what the parser takes for a varint, for any bytes: at most ten, only the last one without the top bit, at most 64 bits; and its value is that of the seven-bit digits |
| HeaderCodec.ValidUtf8Exactly | network/model/network.proto:13-14 | a string passes the check if and only if it is the encoding (section 3 of RFC 3629) of some sequence of scalar values |
| HeaderCodec.HeaderRoundTrip | network/model/network.proto:6-16 | every header in range whose id and type are valid UTF-8 is recovered from its wire form, with proto3 defaults left out of it |
| HeaderCodec.HeaderOnTheWire | network/model/network.proto:12-15 | the bytes of a header: the tags of the four fields by number and wire type, in order, and nothing for a default value |
| HeaderCodec.ParsesAnyFields | network/model/network.proto:6-16 | for any list of fields in any order, repeated, unknown or of an unexpected wire type: the last value under each known number counts, cut to 32 bits, and an id or type that is not UTF-8 anywhere in it is an error |
| Messages.ReplyAnswersItsRequest | network/message.go:107-119 | a reply can be generated exactly for a message that is sent as ACK; it then is sent as ACKR, carries the request's id, and is received under that id |
| Messages.Message.WithOptions | network/message.go:80-99 | a constructed message has the given type, body and options, the default timeout for zero, and a fresh id, which is never empty if the generator's is not |
| Messages.Message.Init | network/message.go:101-104 | in place, only an empty id and a zero timeout are filled in; set ones stay |
| Messages.Message.GenReply | network/message.go:107-119 | returns a new message equal to the specified reply, or the error for a message without ACK; the request is not touched |
| AckTables.OperationsStaySafe | network/channel.go:108-116 | registering (even under an id in use), cleaning up, offering a reply, receiving and closing keep every registered channel open and owned by one id |
| ByteStreams.ByteStream.ReadSome | network/channel.go:77 | a stream may hand out its bytes in any pieces, in order and without loss; it is at its end only when nothing is left |
| ByteStreams.ByteStream.ReadFull | network/channel.go:77-84 | the loop over partial reads returns exactly the next n bytes under any chunking, or an error that tells an empty from a short rest |
| ByteStreams.ByteStream.Write | network/channel.go:172-177 | a write appends all of its bytes or, on a closed stream, none |
| Channels.Channel.UnmarshalData | network/channel.go:48-56 | the loop over the unmarshalers equals: the first that knows the type decides, also when its decoding fails |
| Framing.UnmarshalersDecide | network/channel.go:48-56 | for any list of unmarshalers: the first one that knows the type decides, whatever it makes of the bytes; the type is unknown if and only if there are some and none knows it; without any the body is absent |
| Channels.Channel.ReadFrame | network/channel.go:67-106 | one turn of the reading loop, byte for byte what the pure parser says of the unread bytes, including what each failure leaves unread |
| Channels.Channel.Read | network/channel.go:59-128 | the whole read loop equals its recursive specification: replies are offered to the table and skipped when reading on, everything else is returned; it ends because each turn consumes bytes |
| Channels.Channel.OfferReply | network/channel.go:108-116 | a reply goes into the registered channel only if that has room, and never blocks or overwrites |
| Channels.Channel.Write | network/channel.go:130-181 | appends the message's frame to the stream, or nothing at all when the body or header does not marshal or the stream fails; the ack table is untouched |
| Channels.Channel.BeginSend | network/channel.go:187-193 | a new empty channel is registered under the id, in place of any older one |
| Channels.Channel.Await | network/channel.go:199-209 | what a waiting send gets: a buffered reply first, then the closure, then its timer |
| Channels.Channel.EndSend | network/channel.go:211-213 | the id is deleted from the table, whoever is registered under it |
| Channels.Channel.SendAndRead | network/channel.go:221-224 | with a single read beside the send: table, unread bytes and result are those of the pure specification, and a failed write leaves the entry behind |
| Channels.Channel.Close | network/channel.go:227-237 | the loop over the table closes every registered channel once and empties it, in whatever order, and closes the stream |
| Framing.FrameRoundTrip | network/channel.go:67-104 | a printed frame followed by anything is read back with the same kind, id, type, body and ACK flag, with ACKR and options cleared, consuming exactly the frame |
| Framing.ParsePrintedFrame | network/channel.go:77-104 | what the reader makes of any printed frame, also when the body length was cut to 32 bits or no codec takes the body |
| Framing.FrameBoundary | network/channel.go:77-95 | the next read starts on a frame boundary if and only if the body is shorter than 2^32 bytes, whether or not the body could be decoded |
| Framing.PrintedIff | network/channel.go:130-173 | a message is printed if and only if its body marshals and id and type are UTF-8; the frame is length, header and body, and an absent body has no bytes |
| Framing.KindsOnTheWire | network/model/network.proto:7-12 | the first field of a request's header is 1, of a reply's 2, and other messages have none |
| Framing.BadHeaderFrame | network/channel.go:77-92 | a header that does not parse is an error that leaves all behind it unread |
| Framing.StrictPrefixIsNoMessage | network/channel.go:77-92 | no strict prefix of a frame is taken for a message: the reader reports the end of the stream |
| Framing.StreamRoundTrip | network/channel.go:59-181 | for every sequence of readable messages, reading the concatenated frames gives back that sequence with its kinds |
| Framing.Drain | network/channel.go:67-127 | the loop every reader goroutine runs; ends with the unread bytes as measure and equals its specification |
| Framing.ReaderPartition | network/channel.go:67-127 | over frames followed by an unreadable rest, repeated reading returns exactly the messages that are not ACKR, in order, and offers each ACKR exactly once, in order |
| Framing.WaiterGetsFirstReply | network/channel.go:108-116 | of any sequence of replies offered, a waiter with an empty channel gets the first with its id, and no later one |
| Framing.SendAndReadCleansUp | network/channel.go:184-224 | whatever comes of it, a `SendAndRead` that was written leaves nothing under its id and no reply in its channel that it returned, and all other entries |
| AckProtocol.AckMapSafety | network/channel.go:184-237 | over all interleavings of two endpoints, with repeated ids, timeouts, failed writes and closes: registered channels are open, distinct and each made by one send; nothing is sent to or closed twice |
| AckProtocol.AckMapExactness | network/channel.go:188-234 | over all runs with distinct ids: the table's keys are exactly the sends that registered and did not clean up, plus those whose write failed, less what a close removed |
| AckProtocol.ReplyCorrelation | network/channel.go:184-217 | over all runs: a reply returned by a send was generated by the other endpoint for a request with that id; with distinct ids, for this very request |
| AckProtocol.WaiterStillRegistered | network/channel.go:187-217 | over all runs: for every reply in transit its request was written, and its sender, as long as it waits on an open channel, is the one registered |
| AckProtocol.OutcomeIsFinal | network/channel.go:199-216 | once a send ended in reply, timeout, closure or failed write, no continuation of the run changes that |
| AckProtocol.StreamsConserve | network/channel.go:59-181 | over all runs: what a side has read and what is still on its stream is what its peer has sent, in order, without loss or repetition; and what each step sends |
| AckProtocol.InboxIsWhatWasRead | network/channel.go:67-127 | over all runs: the messages returned to the application are exactly those read that are no replies |
| AckProtocol.ReplyComesBack | network/channel.go:184-217 | for any request and any reply to it there is a run in which the sender gets this reply and nothing is left in the table or on the streams |
| AckProtocol.CloseWakesAll | network/channel.go:227-237 | in every state of a run: a close empties the table and closes exactly the channels in it, so that each sender waiting on one is woken, by its reply if that was there already |
| AckProtocol.SenderBehavesAsCall | network/channel.go:184-217 | every acknowledged send refines an abstract call whose answer, if any, was written for its request; the broker's protocol is built on this |
| Links.LinkIsItsBytes | network/channel.go:59-181 | at every point of every run of the two endpoints: as long as what is on a link can be printed and read back, the link is what reading the bytes of its frames gives |
| Links.WritesAppend | network/channel.go:168-173 | one more write appends the message's frame to the bytes of those before, or nothing if it cannot be printed |
| Links.AwaitIsAStep | network/channel.go:199-209 | the select of a waiting send is one of three steps of the protocol: its timer, else a buffered reply, be the channel closed or not, else the closure |
| Handshake.Stream.Initialize | udp/stream.go:106-131 | the opener's half: one request out, at most one frame in; initialized exactly on a confirmation with positive status |
| Handshake.HandleStream | udp/stream.go:37-71 | the acceptor's half in all its branches: what it returns, what it wrote, what it left unread, and whether the raw stream was closed |
| Handshake.Answer | udp/stream.go:46-66 | of a message read: confirmed exactly if it asks for a stream and for a reply and the stream takes the confirmation |
| Handshake.Stream.Close | udp/stream.go:144-158 | closes the channel with all waiting sends once, leaves one exit token, and does nothing the second time |
| Handshake.HandshakeHandsOver | udp/stream.go:37-131 | the opener succeeds if and only if its timer stayed quiet and the acceptor succeeded; then both agree on id, metadata and data, each direction consumed one frame, and all raw bytes behind it are unread from the first |
| Handshake.HandshakeMessages | udp/stream.go:48-126 | request and confirmation, field by field |
| Handshake.OpenerTakesReply | udp/stream.go:109-131 | what the opener makes of any reply to its request: initialized by a positive status and nothing else, told of a refusal with its message, and the bytes behind the reply unread |
| Handshake.AcceptorFailures | udp/stream.go:37-71 | for any bytes: which error the acceptor ends with, that it closes the raw stream exactly if it read no message or none that asks for a stream, and that only a success writes |
| Registry.CloseRemovesOnlyItself | udp/server/client.go:114-145 | a close deletes the registry entry only if it leads to this very session; the session that replaced it under the id and all other ids stay |
| Registry.ValidateReplaces | udp/server/server.go:185-203 | after a validation the new session is registered under its id, every older one under that id is closed, every other id leads where it led |
| Registry.ValidateNeedsOpenSession | udp/server/server.go:185-203 | a validation keeps the registry free of closed sessions if and only if the session was not closed before it; the code does not check that, as `Close` takes no lock |
| Registry.RegistryIsLiveIffTimely | udp/server/server.go:185-203 | over all runs: the registry holds live sessions only at every point if and only if no step validates a session that is closed already |
| Registry.LateValidationListsClosedSession | udp/server/handler.go:24-60 | the run in which that happens: a session closed while its validation message is being handled, after which a lookup by its id finds a closed session |
| Registry.LookupsFindTheLive | udp/server/server.go:206-226 | in every reachable state: there is at most one live session per id and the lookup by its id finds it; a lookup by tag finds exactly the registered sessions with the tag; what lookups find was validated under that id; and all of it is live exactly if the registry holds no closed session |
| Registry.DispatchGate | udp/server/handler.go:24-99 | in every run: connected callback, handlers and streams come after the validation of their session; validation, connected and disconnected callbacks happen once at most; disconnected exactly for closed sessions when it is set |
| Registry.HandlersCalledExactly | udp/server/handler.go:78-97 | in every run: the handlers are called for exactly the messages whose session is validated and whose type is registered with it or the server at that moment, in order, once each |
| Registry.StepFollows | udp/server/handler.go:10-99 | every step in full, for any session: which callbacks it makes, if and only if which condition; which sessions it opens, validates, closes, stops reading and lets accept streams; their id, tags, context and handlers; and that it changes no other |
| Registry.ApplyKeeps | udp/server/handler.go:24-99 | every atomic step of any session keeps what always holds of registry and events, and keeps the registry free of closed sessions exactly if it does not validate a closed one |
| Udps.Client.Initialize | udp/server/client.go:92-97 | in place update of id, tags, metadata and flag; all other sessions unchanged |
| Udps.Client.Close | udp/server/client.go:114-145 | the object's close is the specified step on the whole server state, and a second close changes nothing |
| Udps.Client.HandleMessage | udp/server/handler.go:29-97 | each turn of the message loop, in all its branches and in any state of the session, is the specified step on the whole server state |
| Udps.Client.HandleValidate | udp/server/handler.go:38-70 | the branch of validation messages: ignored, refused and closed, or validated and announced |
| Udps.Client.Dispatch | udp/server/handler.go:78-97 | the default branch: an unvalidated session is closed, a validated one reaches its own handler or the server's |
| Udps.Client.HandleTick | udp/server/handler.go:10-18 | only a session that is still not validated is closed |
| Udps.Server.NewClient | udp/server/client.go:52-78 | a new session is unregistered, unvalidated and open |
| Udps.Server.ValidateClient | udp/server/server.go:185-203 | refines the specified validation: older session closed first, then replaced |
| Udps.Server.GetClient | udp/server/server.go:206-213 | agrees with the specified lookup |
| Udps.Server.GetClientsWithTag | udp/server/server.go:216-226 | the loop over the registry collects exactly the sessions with the tag, each once |
| Udps.Server.SearchClients | udp/server/handler.go:110-156 | a search by id goes before one by tag; results are ids of registered clients, exactly those that match; an empty result and empty parameters are errors |
| Udps.Server.CloseRegistered | udp/server/server.go:237-242 | the loop: every registered session ends closed and every entry is deleted, in whatever order the map is visited, closed entries included |
| Udps.Server.Close | udp/server/server.go:229-261 | as the loop, once; refused without any change the second time |
| RelaySpec.ClientIdsCollide | p2p/relay/conn.go:98-100 | two client ids coincide for some peers if and only if the connection ids are equal or one is the other behind a colon |
| RelaySpec.ClientIdInjective | p2p/relay/conn.go:98-100 | for connection ids without a colon the client id determines peer and connection |
| RelayProtocol.RelayJointInvariant | p2p/relay/conn.go:98-119 | in every reachable state of broker and relay, with sessions and connections closed at any moment of an admission: a registered client was validated for a connection in the broker's books and its id is that of source or target; as long as that connection is listed, the relay's record is the broker's, the error branch of the peer lookup is dead, and the lookup undoes itself when the two differ |
| RelayProtocol.PeerLookupDefined | p2p/relay/conn.go:102-111 | for any validated client, closed or not, whose connection is listed: the record is open, has the client's own peers, and the lookup finds the other one of the connection's two client ids, never the client's own unless source and target are the same peer |
| RelayProtocol.BridgesTheOtherSide | p2p/relay/conn.go:102-119 | in every reachable state, for a validated client of a listed connection: a stream is bridged to whoever is registered under the other one of the two client ids, to nobody if nobody is, and never to the client itself unless source and target are the same peer |
| RelayProtocol.AdmittedAsApproved | p2p/relay/handler.go:13-49 | in every reachable state: each validated client is the very peer that the broker approved, under that peer's client id, with the tags and peers of that connection |
| RelayProtocol.RelayIsolation | p2p/relay/conn.go:160-188 | in every reachable state with ids free of colons: the client that a stream of a validated client is bridged to was validated for the same broker connection; it is live if the registry holds no closed session |
| RelayProtocol.OneOpenConnectionPerId | p2p/relay/handler.go:23-29 | in every reachable state: a connection is open exactly if the table leads to it, so there is one per id and all clients admitted meanwhile share it; closing any other record changes nothing |
| RelayProtocol.CloseEvictsBothPeers | p2p/relay/conn.go:209-229 | in every reachable state: after a close the connection is unlisted, no live client belongs to it, and all other connections stay listed; the ids of its two clients are gone from the registry if and only if neither led to a session closed before |
| RelayProtocol.RegistersKeeps | p2p/relay/handler.go:23-49 | the second half of an admission, the registration under the server's mutex, keeps registry and table in agreement (registered clients are open and their connections listed) if and only if the connection looked up before is still listed and the session still open |
| RelayProtocol.ApplyKeeps | p2p/relay/handler.go:13-157 | every step of broker, relay, sessions, closes and waits keeps what always holds, and keeps registry and table in agreement exactly if it is no registration that comes too late |
| RelayProtocol.AgreementIffOrderly | p2p/relay/handler.go:23-49 | over all runs: registry and table agree at every point if and only if every registration finds its connection still listed and its session still open |
| RelayProtocol.BothHalvesAdmit | udp/server/server.go:185-203 | the two halves one after the other are the admission that the relay's objects are proved to do, and so is a refusal |
| RelayProtocol.CloseInBetweenBreaks | p2p/relay/conn.go:209-229 | from every state in agreement with an admission in flight, of a first client or of one that joins: registered at once it stays in agreement, and after a close of the connection it is broken |
| RelayProtocol.CloseInBetweenRuns | p2p/relay/conn.go:209-229 | the two runs in which this happens: the first peer of a connection, and the second one joining it while the first is registered |
| RelayProtocol.AwaitSoundness | p2p/relay/conn.go:121-158 | in every reachable state: a wait that succeeded found a client validated under the other one of the connection's two client ids, not the waiting client unless source and target are the same peer; with ids free of colons, for the same connection |
| RelayProtocol.WaiterRunsLoop | p2p/relay/conn.go:142-157 | however the steps of a run interleave: what becomes of a listening waiter is the verdict of the loop of `awaitPeer` on the messages and timers that the run brings to it |
| RelayProtocol.WaitIsTheLoop | p2p/relay/conn.go:121-158 | the same from the look at the registry on: found at once, failed at once without a subscription or an id, and the loop otherwise |
| RelayProtocol.PeerIsHeard | p2p/relay/conn.go:121-158 | two clients of a connection meet: when one asks while the other listens, the other one, whose timer has not fired, succeeds with it when it hears of it |
| RelaySpec.AwaitDecidedByMessage | p2p/relay/conn.go:142-157 | the wait is over exactly with the first message that is the peer's id or past the deadline, never by its timer; it succeeds exactly if that is the peer's id and the timer has not fired before, as the timer's branch leaves its error set |
| RelayServer.Connection.AwaitPeer | p2p/relay/conn.go:121-158 | publish, look, subscribe, loop: equals the specified verdict for any events |
| RelayServer.Connection.GetPeerClient | p2p/relay/conn.go:113-119 | finds whoever is registered under the other one of the connection's two client ids, and nobody if nobody is |
| RelayServer.Connection.OpenStream | p2p/relay/conn.go:160-201 | bridges exactly if the peer is registered and both streams open; the client's own stream is marked to be ignored, the peer's is not; on failure all that was opened is closed |
| RelayServer.Server.OpenPeerStreamHandler | p2p/relay/handler.go:119-157 | the stream of a validated client is bridged to the very client that the isolation theorem speaks of, or nothing stays open |
| RelayServer.Server.AwaitPeerConnection | p2p/relay/handler.go:85-117 | found at once exactly when that client is registered; otherwise the wait decides, or fails without a connection or its bus |
| RelayServer.Connection.Close | p2p/relay/conn.go:209-229 | refines the specified close: table entry and both peers' sessions go, a second close does nothing |
| RelayServer.Server.ClientValidateHandler | p2p/relay/handler.go:13-49 | an approved client is admitted under its client id to the listed connection, or to one made for it; without approval nothing changes |
| RelayServer.Server.NewConnection | p2p/relay/conn.go:45-62 | the new connection is open and listed under its id |
| RelayServer.Server.Admit | p2p/relay/handler.go:13-49 | a validation message refines the admission on values, of which the joint steps are the halves: table and registry change together |
| BrokerProtocol.ThreePartyAgreement | p2p/server/handler.go:13-121 | in every run with timeouts and failures: before a source builds its end, first the target stored its own and then the broker its record; ids, mode and relay address agree, peers are crossed, exactly the source is the initiator, and it is the connection asked for |
| BrokerProtocol.StoredExactly | p2p/server/handler.go:93-121 | in every run: the target holds an end exactly if it accepted, the broker a record exactly if it was told so in time |
| BrokerProtocol.OfferedExactly | p2p/server/handler.go:43-108 | in every state of a run: a request becomes an offer to the client registered under the target's id, with a record between the two, if and only if it comes from a client of the broker, names a relay if it needs one, both peers are registered and there is an id; otherwise a failure is reported; nothing is listed yet |
| BrokerProtocol.TargetAnswers | p2p/client/handler.go:29-86 | the target accepts if and only if the addresses parse, and then has stored its end of the offered connection |
| BrokerProtocol.BrokerConcludes | p2p/server/handler.go:13-121 | the record is listed and reported if and only if the target's acceptance came back; otherwise a failure is reported and nothing is listed under the id |
| BrokerProtocol.SourceConcludes | p2p/client/conn.go:71-98 | the source builds its end if and only if it was told of a connection and the addresses parse |
| BrokerProtocol.OnlyCheckedOffers | p2p/server/handler.go:43-77 | in every run: what was passed on to a target came from a client of the broker and names a relay if it is to go through one |
| BrokerProtocol.CloseHitsListed | p2p/server/manager.go:80-85 | a close takes what is listed under the id out of the table, closed, and nothing else |
| BrokerProtocol.OneOfEachPerId | p2p/server/manager.go:68-73 | in every run whose ids do not repeat: each of the three parties stores a connection at most once |
| BrokerProtocol.ApprovalsAreAgreed | p2p/server/handler.go:176-231 | in every run: a peer the broker approves to a relay is source or target of a connection that target and broker both stored before, under that id and between these peers |
| BrokerSpec.ApprovedExactly | p2p/server/handler.go:176-231 | approved are exactly the two peers of a listed connection, closed or not, with its record |
| BrokerProtocol.GivingUpHitsSameId | p2p/server/handler.go:64-68 | in every run with any ids: giving up on a target never closes the record made for the request, leaves the table as it was if and only if nothing is listed under the new id, and otherwise closes and unlists that one other connection |
| BrokerProtocol.GivingUpClosesAnother | p2p/server/manager.go:68-85 | the run in which this happens, with a generator that repeats an id: a request that times out closes the connection set up before |
| BrokerProtocol.ApplyKeeps | p2p/server/handler.go:13-121 | every step of any request, session or close keeps the joint invariant of broker, sources and targets |
| Broker.Manager.ConnectionRequestHandler | p2p/server/handler.go:13-61 | in all branches: which requests become offers, from and to which registered clients, when the connection is stored, and what is reported |
| Broker.Manager.CreateConnection | p2p/server/handler.go:63-108 | a connection and its offer come about exactly if relay address, both peers and a new id are there; the record names the registered clients |
| Broker.Manager.FinishRequest | p2p/server/handler.go:108-121 | stored and reported as created on acceptance; otherwise whatever is listed under the id is closed and a failure reported |
| Broker.Manager.CloseConnectionById | p2p/server/manager.go:80-85 | the entry is deleted and the connection it led to closed, and no other |
| Broker.Manager.CloseAllConnections | p2p/server/manager.go:88-98 | closes exactly the listed connections and leaves them listed |
| Broker.Manager.RelayValidationHandler | p2p/server/handler.go:176-231 | answers with the connection exactly if it is listed and the validated client is its source or target |
| Broker.Connection.HandleTick | p2p/server/conn.go:58-81 | closes through the manager exactly if a peer's session is closed or a peer does not confirm its status; a closed connection does nothing |
| Broker.Connection.Close | p2p/server/conn.go:107-123 | closed afterwards, one exit token, idempotent |
| Peer.P2PConn.ConnectToCandidates | p2p/client/p2p.go:69-94 | the loop equals its specification, and this side is connected exactly with the adopted client |
| Peer.ConnectToPeer | p2p/client/p2p.go:126-146 | a candidate dials under the race's gate; if it connects and is not taken, it is closed |
| Peer.P2PConn.InitClient | p2p/client/p2p.go:148-171 | local client and flag are set together, only on a confirmation |
| Peer.P2PConn.AwaitRemoteConnection | p2p/client/p2p.go:173-189 | refines the protocol's taking of a check-in, or fails without a change |
| Peer.P2PConn.CheckinRemoteClient | p2p/client/p2p.go:191-206 | refused exactly once connected or taken; before that the first client is kept and later ones are told they succeeded but are not; refines the protocol's check-in |
| Peer.P2PConn.Close | p2p/client/p2p.go:242-266 | both clients are closed, as their own specifications say, and dropped; idempotent |
| Peer.RelayConn.Connect | p2p/client/relay.go:52-67 | connected exactly if the relay's client connected and its peer came; otherwise a connected client is closed and dropped |
| Peer.RelayConn.Close | p2p/client/relay.go:154-173 | the client is closed and dropped; idempotent |
| Peer.Connection.ConnectDirect | p2p/client/conn.go:140-162 | success, `IsConnected` and the client in use agree for either role; the part of a failed connection is closed and dropped |
| Peer.Connection.ConnectRelay | p2p/client/conn.go:164-178 | success exactly if address, relay and peer are there; otherwise the part is closed and dropped, and the relay's client is as its own connect left it, closed if only the peer was missing, untouched if the address does not parse |
| Peer.Connection.Close | p2p/client/conn.go:254-279 | what it owns is closed and dropped and it is not connected any more; a second close does nothing |
| Peer.CreateConnection | p2p/client/conn.go:71-98 | a connection, as initiator, exactly if the broker reported one and the addresses parse |
| Peer.Manager.ConnectionRequestHandler | p2p/client/handler.go:29-86 | accepts exactly if the addresses parse, and then holds a new connection with the offer's data, not as initiator, and no other change |
| Peer.Manager.ClientValidateHandler | p2p/client/handler.go:120-164 | a client is admitted exactly as the protocol of the target says, the loop over the peer's addresses included, and gets the connection's id, peer and no tags |
| Peer.Manager.ClientInitHandler | p2p/client/handler.go:166-196 | active exactly when the check-in is accepted by the connection the client was validated for; the missing direct part, which the code dereferences, is an outcome of its own |
| PeerProtocol.ConnectedEndHoldsItsPeer | p2p/client/handler.go:120-196 | over all runs of offers, validations, check-ins, waits, timers, closes and disconnects on the target: a connected end holds one client, validated under this connection's id for its peer and from one of the peer's addresses; for this very connection if ids do not repeat; it is not closed, unless that was before it began to connect and while it was listed |
| PeerProtocol.OneCheckInTaken | p2p/client/p2p.go:173-206 | over all runs: at most one check-in is ever taken per connection, and that client is closed at the latest with the connection, unless the connection was closed so early that it uses the client still |
| PeerProtocol.CheckInCounts | p2p/client/p2p.go:191-206 | in every run: a check-in with an end that has taken a client changes nothing at all; with one that has taken nobody it makes the client active, and it is the one kept exactly if none was there before |
| PeerProtocol.ActiveExactly | p2p/client/handler.go:166-196 | in every run: the active clients are exactly those that checked in with a connection before it had taken a client |
| PeerProtocol.DisconnectDropsOnlyActive | p2p/client/handler.go:17-26 | the disconnect of a client that was only turned away changes nothing; that of an active one takes its connection out of the table, to be closed |
| PeerProtocol.AdmitsExactly | p2p/client/handler.go:120-164 | admitted is exactly who names a listed direct connection that is being set up and comes from one of its peer's addresses, with that connection's data; everybody else is closed |
| PeerProtocol.EveryEndFollows | p2p/client/handler.go:17-196 | every step, end by end: when it waits, takes, stops waiting, is unlisted, is to be closed and is closed, and that no other end is touched |
| PeerProtocol.ClosedEndIsFinal | p2p/client/conn.go:254-279 | an end that is closed and cannot be checked in to any more stays so and is never connected in any continuation, even if it was closed before it began to connect, although `connect` does not look at `Closed` |
| PeerProtocol.LateCloseSettles | p2p/client/conn.go:254-279 | in every run: every close but one before `connect` begins on a listed connection leaves the end in that state |
| PeerProtocol.EarlyCloseIsFinalIffUnlisted | p2p/client/conn.go:140-162 | a direct connection closed before `connect` begins, that some client could still come for, is never connected in any continuation if and only if it is not listed any more |
| PeerProtocol.EarlyCloseRuns | p2p/client/conn.go:109-162 | the run in which a listed connection that was closed early is connected all the same |
| PeerProtocol.ApplyKeeps | p2p/client/handler.go:29-196 | every step of the target keeps its joint invariant of sessions, connections and check-ins |
| CandidateRace.RaceRefinesLoop | p2p/client/p2p.go:55-102 | over all interleavings: the local client of the race is the one that the sequential select loop adopts from what the race brings to its select, and the race times out exactly if the loop gives up |
| CandidateRace.FirstConfirmedIsAdopted | p2p/client/p2p.go:69-94 | the select loop adopts a client exactly if it is the first confirmed one and the timer did not come before it; it gives up exactly if the timer came first |
| CandidateRace.OnlyDialsInFlight | p2p/client/p2p.go:126-130 | once the race is completed, the only candidates still dialling, in any continuation, are those let through before |
| CandidateRace.AtMostOneAdopted | p2p/client/p2p.go:69-94 | over all interleavings of any number of candidates: at most one is adopted, and it is the local client |
| CandidateRace.NoDialAfterAdoption | p2p/client/p2p.go:126-130 | over all interleavings: at most three dials per candidate are let through, none after the adoption, in any continuation |
| CandidateRace.EndsStay | p2p/client/p2p.go:104-146 | a candidate at one of its four ends stays there in every continuation |
| CandidateRace.RaceEnds | p2p/client/p2p.go:55-146 | every race ends after at most 11n + 2 steps, and then each candidate is never connected, closed because its hand-off was not taken, adopted, or failed to initialize, and the connecting goroutine adopted one or timed out |
| CandidateRace.TurnsDecide | p2p/client/p2p.go:55-146 | a candidate may dial if and only if the race is open and it is at most its third time; it is taken exactly if the connecting goroutine is in its select, and closed otherwise; it is adopted exactly if confirmed, which ends the race |
| CandidateRace.FirstToConnectWins | p2p/client/p2p.go:55-146 | in any open race a candidate that gets its turn is adopted, and the others are left as they were |
| CandidateRace.GateBoundsDials | p2p/client/p2p.go:126-134 | under the race's gate a call of `Connect` dials at most three times |
| ClientLifecycle.ConnectsAtFirstLink | udp/client/client.go:178-198 | `Connect` succeeds if and only if the first attempt that links is reached under the limit and accepted by the server |
| ClientLifecycle.ReconnectsAtFirstAccepted | udp/client/client.go:241-276 | a reconnect succeeds if and only if some attempt links and is accepted, it and all before it are allowed, and none before it linked and was refused, or linked in vain while a refusal was known |
| ClientLifecycle.ConnectEnds | udp/client/client.go:164-207 | for any course of a call: with which attempt it ends, and all fields and the verdict it leaves then |
| ClientLifecycle.ReconnectEnds | udp/client/client.go:241-276 | likewise for a reconnect, with the attempts that link in vain and the close it leaves under way |
| ClientLifecycle.RetriesBounded | udp/client/client.go:164-276 | with the default handlers and positive limits every connect and reconnect dials at most as often as configured and is over after that many attempts |
| ClientLifecycle.ConnectedIsLinked | udp/client/client.go:328-369 | in every run: connected implies session, its channel and initialization; closed implies none of them |
| ClientLifecycle.ClosedIsFinal | udp/client/client.go:345-369 | in every continuation of a closed client: closed, unlinked, and not one more dial |
| ClientLifecycle.StepEffects | udp/client/client.go:164-369 | every step in full: a close leaves no link and everything else, a reader that ends becomes a pending reconnect exactly on an open client, and the calls leave what their attempts call for |
| ClientLifecycle.ReconnectHandsOn | udp/client/client.go:241-276 | a reconnect leaves either exactly one new reader on a session dialled since, connected, or no new reader and one more close under way |
| ClientLifecycle.ReaderHandOver | udp/client/handler.go:53-82 | over all runs with any number of `Connect` calls: an initialized open client has a reader, a pending reconnect or a close under way; never more than one of the first two at any point if and only if no `Connect` succeeded on an open client that had one; readers read the current session at every point if and only if no call dialled while an open client had a reader |
| ClientLifecycle.BoundAfterConnect | udp/client/client.go:164-207 | a call of `Connect` that ends keeps the bound of one if and only if it did not succeed while there was one |
| ClientLifecycle.ConnectMayBreakBound | udp/client/client.go:164-207 | before the call: some course of events breaks the bound if and only if the client is open, has a reader or a pending reconnect, and may dial |
| ClientLifecycle.SecondConnectBreaksHandOver | udp/client/client.go:164-207 | the run in which the bound fails: a second successful call of `Connect` starts a second reader |
| Udpc.Client.Connect | udp/client/client.go:164-207 | the retry loop on the object equals its recursive specification, field by field |
| Udpc.Client.Reconnect | udp/client/client.go:241-276 | likewise, with the break on a refusal and the background close |
| Udpc.Client.DialServer | udp/client/client.go:209-231 | old link dropped first; a session without a stream is kept but gives no channel |
| Udpc.Client.InitializeClient | udp/client/client.go:278-304 | connected and one reader more exactly on a positive reply |
| Udpc.Client.HandleInitData | udp/client/handler.go:12-26 | the data is kept in any case, id and flag only with a positive status |
| Udpc.Client.Close | udp/client/client.go:345-369 | refines the specified close, idempotent |
| Udpc.Client.EndReader | udp/client/handler.go:53-62 | a reader that ends goes on as a reconnect exactly if the client is not closed |

## Left out

- Channels.Channel.SendAndRead: the background read is taken to finish before the send looks at its channel; a slower read only turns a reply into a timeout.
- Handshake.Stream.Initialize: the same holds of its background read; what is left in the table of waiting sends is not stated.
- RelayServer.Connection.OpenStream: whether opening a stream succeeds is a parameter, and the copying between two bridged streams is not modelled.
- RelayServer.Server.OpenPeerStreamHandler: the same parameter.
- RelayProtocol.RelayJointInvariant: takes it that the broker never gives the same id to two connections, as its default generator of UUIDs does not.
- CandidateRace.NoDialAfterAdoption: is about the dials of `Connect`; the reconnects of a candidate that has lost its link are not gated by the race in the code either.
- Peer.ConnectToPeer: whether the hand-off is taken is a parameter; `CandidateRace` says when it is.
- Peer.P2PConn.InitClient: the other side's answer to the init message is a parameter.
- Peer.P2PConn.AwaitRemoteConnection: only what has checked in when it looks; the interleaving is that of `PeerProtocol`. The channel is never closed in the code, so that branch is not modelled.
- Peer.CreateConnection: ends where the connection is made; connecting it is `Peer.Connection.ConnectDirect` or `Peer.Connection.ConnectRelay`, and the close after a failure `Peer.Connection.Close`.
- Peer.Manager.ConnectionRequestHandler: the goroutine that starts connecting is not part of it; it is a step of `PeerProtocol`.
- PeerProtocol.ApplyKeeps: a check-in for a listed connection whose direct part is gone, which the code dereferences without a check, is not a step; see `Peer.Manager.ClientInitHandler`.
- Udpc.Client.EndReader: the dispatch of the reader's messages to handlers is not modelled, only its end.
- The callbacks of the UDP client (connected, disconnected, closed) and its ping and stream goroutines: they change none of the modelled fields.
- Status requests about a connection, on the broker and on a peer: two lookups without consequences for the tables.
- Candidates whose initialization failed are not closed by the code (p2p/client/p2p.go:75-79), so nothing is claimed of them.
- QUIC, TLS, UDP sockets and punching: a stream is a reliable ordered byte sequence that ends or fails; a reset looks like an early end.
- The body codecs: round trips assume that a type's own codec gives a body back; groups (wire types 3 and 4) in unknown header fields are refused rather than skipped.
- Panics and `recover`: nil dereferences in races between a close and a reader, and a failing type assertion on a reply's body, are not modelled.
- Real time: timers fire or not at any moment; the deadline of `awaitPeer` is the one clock reading that is modelled.
- That two peers of a relay always meet: one may register and publish between the other's check and its subscription.
- That a relay connection of a peer implies the other peer's presence: the status in the reply is not looked at by the code (p2p/client/relay.go:109-118).
- The choice of the nearest relay, `ping`, `util`, configuration defaults, `String` methods, tickers, logging, the broker's client and server wrappers and `MessageStream`: they carry no state of the protocols.
- Aliasing of the metadata map in the relay's `openStream`: the map is a value, so the stream opened first does not see the mark put in later.
- The dispatch of incoming streams to the application (p2p/client/handler.go:198-235) and `openStream` of a peer's connection: branches without state.
- Datagrams, TUN devices and the addresses exchanged with a connection, except for the check of a client's address.
