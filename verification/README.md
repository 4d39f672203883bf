# Rabbit proxy server: a verified model

The program is a SOCKS proxy whose dials can travel through an ICE data channel: a SOCKS5 session
(`CProxySocks5`) asks a connector for a target; the connector is either a socket or the client end of a tunnel
(`CPeerConnectorIceClient`), whose far end (`CPeerConnectorIceServer`) dials for it. This project models the session,
the tunnel, the byte stream below it, and the registries that own connectors, peer connections, channel ids and the
list of authentication methods, and proves what they are for.

`dafny verify dfyconfig.toml` checks everything.

## How it is organised

| files | what they hold |
|---|---|
| `Bytes`, `Decimal`, `Readings`, `PeerConnector` | octets, byte order, C strings, decimal printing, connector errors |
| `Socks5Frames` | the frames of RFC 1928 (sections 3, 4 and 6) and RFC 1929 (section 2): parsers, encoders, round trips |
| `Socks5Session` | the session as a state machine over socket reads and peer events, and the octets it writes |
| `Socks5Chunking`, `Socks5OneShot`, `Socks5Safety`, `Socks5Runs`, `Socks5Interleaving`, `Socks5Readings` | independence of the chunking, an independent one-shot reading, invariants over runs, independence of the interleaving, agreement of the readings |
| `Socks5Answers`, `Socks5Client` | what each request and each peer event leads to, in octets, and what a client reads |
| `Socks5Proxy`, `Socks5Slots` | the class with its re-entrant slots, in place, refining the state machine |
| `DataChannel` | fragmentation, reassembly, and the class that does it |
| `TunnelCodec`, `TunnelSides`, `TunnelFeeding`, `Tunnel`, `TunnelProgress`, `TunnelReadings`, `IceConnectors` | the tunnel protocol: codec, handlers, reading in pieces, step relation, safety, delivery, agreement of the readings, and the two classes |
| `EndToEnd`, `EndToEndProgress`, `EndToEndClient`, `EndToEndWritten` | session and tunnel running together: safety in either reading, delivery, whole conversations, and when the written program does as intended |
| `OfferGuard`, `ConnectorRegistry`, `IceManager`, `IceManagerLifetime`, `IceManagerObject`, `ChannelIds`, `MethodStore` | the registries and the stored method list |

**Two readings.** At a few places the text of the program and the contract it documents part. Functions that contain
such a place take a `Variant`: `Written` is the program's own branch, `Intended` is the documented one. The classes
refine `Written` only. A result about `Intended` is accompanied by the exact condition under which `Written` agrees,
or by an input on which it does not. Over whole runs the agreement is `Socks5Readings.RunAgrees`,
`TunnelReadings.RunAgrees` and, for both together, `EndToEndWritten.WrittenAsIntended`. The results about session and
tunnel together (`EndToEnd`, `EndToEndProgress`) hold of both readings.

| place | as written | as intended | what is proved about `Written` |
|---|---|---|---|
| `Src/ProxySocks5.cpp:177` | a checked login with result 0 closes the session, another result goes on | 0 means success (`Src/ProxySocks5.cpp:216-217`) | `WrittenReadExact`, `RefusedLogin`, `AcceptedLoginDiffers` |
| `Src/ProxySocks5.cpp:82`, `:105` | the method count is a signed char | an octet (section 3 of RFC 1928) | `WrittenReadExact`, `ReadLargeCount` |
| `Src/ProxySocks5.cpp:163-165` | the guard waits for one octet too few | waits for the password length | `ShortLoginGuardIsHarmless`: no difference |
| `Src/ProxySocks5.cpp:413-414` | a read while the dial is pending dials again and hits `Q_ASSERT(false)` | it waits | `WrittenChunkingExact`, `DataWhileDialling` |
| `Src/ProxySocks5.cpp:45-61` | octets behind the request stay in the buffer for ever | they are forwarded first | `CoalescedBytesAreStuck`, `BytesGetStuck` |
| `Src/PeerConnectorIceClient.cpp:173` | octets behind the reply are cleared with it | they stay readable | `LostWithReply`, `LossHappens`, `WrittenTransparency` |
| `Src/PeerConnectorIceClient.cpp:165`, `Src/PeerConnectorIceServer.cpp:159-160` | the host length is a signed char | an octet | `HostBoundExact`, `LongHostNeverDials` |
| `Src/DataChannelIce.cpp:349` | the data pointer is not advanced | it is | `WrittenFragmentsExact`, `WrittenFragmentsFail` |
| `Src/DataChannelIceChannel.cpp:36-50`, `Src/IceManager.cpp:135-138` | an opened channel is not listed, a closed one is taken off the other list | listed and taken off by its role | `WrittenLifetimeExact` and `WrittenLastCloseExact` for the two halves, `WrittenClientExact`, `WrittenServerNeverDrops`, `WrittenKeepsClosedPeer` |

Further findings that remain as intended: a target that disconnects before it connects ends a tunnelled session with
reply code 2 but a direct one silently, and that is the only ending that differs (`EndingsAgreeExact`,
`DisconnectDiffers`); the late close of a channel whose peer connection was replaced can drop the replacement
(`CloseExact`, `LateCloseLosesOffer`); an empty method list is saved but not restored (`RestoredExact`). The first of
these takes a connector other than `CPeerConnector`: that one only passes on `disconnected()` of its socket
(`Src/PeerConnector.cpp:23-24`), which Qt emits only for a socket that was connected. The model allows the signal because
the `CONNECT` branch of `slotPeerDisconnectd` (`Src/PeerConnectorIceServer.cpp:237-241`) expects it.

Sockets, signals and the channel are events and FIFO queues. A slot or callback is one atomic step. The channel is a
reliable queue of messages; `readyRead` signals are queued separately, so several messages may be read at once.
Random and unknown values (what lies behind a buffer, whether the channel accepts a message) are arbitrary.

## Model

| member | source | states |
|---|---|---|
| `Socks5Frames.SelectIsFirst` | Src/ProxySocks5.cpp:105-117 | the chosen method is the first offered one that the server supports, and 0xFF exactly when it supports none |
| `Socks5Frames.MethodsRoundTrip` | Src/ProxySocks5.cpp:78-96 | a method frame reads back to its list and length whatever follows it, up to 255 methods as intended and 127 as written |
| `Socks5Frames.ShortLoginGuardIsHarmless` | Src/ProxySocks5.cpp:160-173 | whatever octet lies behind the buffer is taken for the password length, the login goes on waiting |
| `Socks5Frames.LoginRoundTrip` | Src/ProxySocks5.cpp:146-189 | every NUL-free user name and password of at most 255 octets reads back, with the frame's length |
| `Socks5Frames.RequestRoundTrip` | Src/ProxySocks5.cpp:230-280 | every IPv4 or NUL-free domain request reads back to its command, host and port, and the length is the frame's |
| `Socks5Frames.AcceptedRequestIsEncoding` | Src/ProxySocks5.cpp:230-280 | conversely, an accepted buffer starts with the encoding of what was read from it |
| `Socks5Frames.RequestPrefixWaits` | Src/ProxySocks5.cpp:235-280 | every proper prefix of a request frame asks for more input |
| `Socks5Frames.RequestsPrefixFree` | Src/ProxySocks5.cpp:250-280 | no request frame is a proper prefix of another one |
| `Socks5Frames.DialledText` | Src/ProxySocks5.cpp:255-274 | the text dialled for an IPv4 request, cut at its dots and read as plain decimal numbers, is the four octets of the request in their order; a domain is dialled as it stands |
| `Socks5Frames.ReplyReadsBack` | Src/ProxySocks5.cpp:317-376 | a client reads back code, port and address, whatever follows: an IPv4 address as it is, a mapped one as IPv4, none and the unspecified one as 0.0.0.0, any other IPv6 address as it is |
| `Socks5Frames.ReplyOctets` | Src/ProxySocks5.cpp:317-376 | the octets of the reply for each of these addresses |
| `Socks5Chunking.ChunkingIndependence` | Src/ProxySocks5.cpp:29-296 | as intended, every split of every client stream shows the same replies, state and dial as one read of all of it |
| `Socks5Chunking.WrittenChunkingExact` | Src/ProxySocks5.cpp:29-296 | as written, all splits of a stream show the same if and only if the stream has no hazard: octets behind a CONNECT request, behind a refused login, or behind a method count of 128 to 254 |
| `Socks5Chunking.ServeAsOne` | Src/ServerSocks.cpp:258-307 | the same through the version dispatch, for either reading, free of hazards |
| `Socks5Chunking.ServedByVersion` | Src/ServerSocks.cpp:258-307 | for every split the first octet alone decides: 5 and 4 are served where switched on and ignored where not, anything else is refused |
| `Socks5Chunking.HazardSplits` | Src/ProxySocks5.cpp:406-416 | for every hazardous stream, the point at which splitting it in two shows something else |
| `EndToEnd.DataWhileDialling` | Src/ProxySocks5.cpp:406-416 | in every state that satisfies the session invariant and has a pending dial, a read of any octets sends, forwards and dials nothing; as intended the session waits on, as written it runs into the assertion |
| `Socks5Chunking.RefusedLogin` | Src/ProxySocks5.cpp:175-195 | as written, a refused login reaches a null socket exactly when octets wait behind it |
| `Socks5Chunking.ReadLargeCount` | Src/ProxySocks5.cpp:78-98 | as written, a count of 128 to 254 is answered with 0xFF at once and everything read is dropped |
| `Socks5OneShot.SessionIsOneShot` | Src/ProxySocks5.cpp:29-296 | as intended, however a stream is split, the session shows the verdict of a one-shot reading that has no buffer and no state |
| `Socks5OneShot.WrittenReadExact` | Src/ProxySocks5.cpp:66-296 | one read by the written code shows the intended result if and only if the stream has no slip: a completed login accepted or followed by octets, or a count of 128 or more that is not refused alike |
| `Socks5OneShot.WrittenOneShotExact` | Src/ProxySocks5.cpp:29-296 | as written, every split of a stream shows the one-shot verdict if and only if the stream has neither a hazard nor a slip |
| `Socks5OneShot.AcceptedLoginDiffers` | Src/ProxySocks5.cpp:175-189 | as written, a correct login is answered by status 0 and closed without a dial, which always differs from what is intended |
| `Socks5OneShot.CompliantClientDials` | Src/ProxySocks5.cpp:66-426 | as intended, a client with an acceptable method, correct credentials and a CONNECT request gets exactly the opening replies, and exactly its target is dialled, for every split |
| `Socks5OneShot.WrittenClientDials` | Src/ProxySocks5.cpp:66-426 | as written, the same for every client of fewer than 128 methods that is not asked to log in and sends nothing behind its request |
| `Socks5Answers.RequestRefused` | Src/ProxySocks5.cpp:230-296 | in the request stage, octet by octet: code 8 for any address type but 1 and 3 (type 4 once its 22 octets are there), 7 for any command but 1, 2 and 3, 4 for a CONNECT without a host, each as the one reply that closes; too short a buffer and another version change nothing |
| `Socks5Answers.RequestAccepted` | Src/ProxySocks5.cpp:383-426 | octet by octet: a CONNECT dials the host and port it names, BIND leaves the model, UDP ASSOCIATE has no effect |
| `Socks5Answers.RefusalsReachTheClient` | Src/ProxySocks5.cpp:230-404 | for every split of an opening and a refused request, with anything behind it, the octets the client gets, and no dial |
| `Socks5Answers.NoMethodReachesTheClient` | Src/ProxySocks5.cpp:101-142 | as intended, for every split: a client without a supported method gets 5, 255 and is closed when it goes on |
| `Socks5Answers.WrongLoginReachesTheClient` | Src/ProxySocks5.cpp:143-227 | as intended, for every split: a wrong user name or password gets 5, 2, 1, 255 and is closed without a dial |
| `Socks5Answers.OtherLoginReachesTheClient` | Src/ProxySocks5.cpp:147-154 | as intended, for every split: a login of another version gets 5, 2, 1, 1 and is closed |
| `Socks5Answers.ConnectDialsIPv4` | Src/ProxySocks5.cpp:250-258 | in either reading, for every split of the octets of an opening and an IPv4 CONNECT request: one dial, whose text reads back to octets 4 to 7 and whose port is that of octets 8 and 9; and the octets the client has got |
| `Socks5Answers.ConnectDialsDomain` | Src/ProxySocks5.cpp:262-274 | the same for a domain |
| `Socks5Safety.StepInv` | Src/ProxySocks5.cpp:29-471 | every event keeps the session's invariant, in either reading |
| `Socks5Runs.ByteConservation` | Src/Proxy.cpp:84-100 | in every run: received = version, frames taken, buffer, octets forwarded, in this order |
| `Socks5Runs.OutputGrammar` | Src/ProxySocks5.cpp:101-471 | in every run: one method reply; one login status if method 2 was chosen; at most one request reply of version 5, after method 0 or a login status of 0; peer octets only after a reply of code 0; a failure leaves the session closed; at most one dial |
| `Socks5Client.ClientReadsReplies` | Src/ProxySocks5.cpp:119-210 | in every run a client that reads the octets on its socket by RFC 1928 and RFC 1929 finds exactly the method, the login status, the reply and the peer octets that the session sent |
| `Socks5Session.SilentAfterClose` | Src/Proxy.cpp:49-68 | on a closed session the slots, called without any guard and in any order, send, forward and dial nothing and leave it closed; a read before the Forward stage hits the null socket |
| `Socks5Runs.ReplyTimeBuffer` | Src/ProxySocks5.cpp:428-436 | whenever a dial is pending, the complete request it was made for is at the front of the buffer and the recorded length is its length |
| `Socks5Runs.ForwardedStream` | Src/ProxySocks5.cpp:45-61 | as intended, the peer is given exactly the stream behind the opening frames and the request, whose endpoint is the one dialled |
| `Socks5Runs.CoalescedBytesAreStuck` | Src/ProxySocks5.cpp:428-436 | as written, in every later state the peer has got the whole stream behind the request if and only if nothing waited behind it when the dial succeeded |
| `Socks5Runs.BytesGetStuck` | Src/ProxySocks5.cpp:428-436 | the run, from a new session, in which any octets sent right behind the request get stuck |
| `Socks5Readings.RunAgrees` | Src/ProxySocks5.cpp:29-471 | on a run free of the listed situations the written code goes through the intended states |
| `Socks5Client.ConnectionAnswered` | Src/ProxySocks5.cpp:428-436 | the connection is answered by version 5, code 0 and the connector's local address and port, octet by octet for IPv4 |
| `Socks5Client.FailureAnswered` | Src/ProxySocks5.cpp:445-471 | a failed dial is answered by code 5, 4 or 2 for errors 1, 2 and 4 with the local address, or not at all, and closes |
| `Socks5Client.LossCloses` | Src/ProxySocks5.cpp:438-453 | once the session forwards, an error, a disconnect or the end of the client closes it without another octet |
| `Socks5Client.SuccessNamesConnector` | Src/ProxySocks5.cpp:428-436 | in every run each success reply names an address and port that the connector reported when it connected |
| `Socks5Interleaving.InterleavingIndependence` | Src/ProxySocks5.cpp:29-436 | two runs with any interleaving of reads, connection and peer data that have received the same octets and both forward have taken the same frames and dialled the same target; as intended they have forwarded the same octets, as written the same up to what is stuck |
| `Socks5Proxy.CProxySocks5.SlotRead` | Src/ProxySocks5.cpp:29-64 | takes the specified step; terminates by stage and position; at most three nested calls for one event |
| `Socks5Proxy.CProxySocks5.RemoveCommandBuffer` | Src/Proxy.cpp:84-100 | drops a frame and re-enters slotRead for what is left, as specified, with the nesting of a later stage |
| `Socks5Proxy.CProxySocks5.ProcessNegotiate` | Src/ProxySocks5.cpp:66-99 | answers the offer, switches the stage and goes on with the rest |
| `Socks5Proxy.CProxySocks5.ChooseMethod` | Src/ProxySocks5.cpp:104-117 | the loop returns the selection that SelectIsFirst characterises |
| `Socks5Proxy.CProxySocks5.ProcessAuthenticator` | Src/ProxySocks5.cpp:130-198 | the three branches by method, as specified for the written text |
| `Socks5Proxy.CProxySocks5.ReadLogin` | Src/ProxySocks5.cpp:143-173 | with an arbitrary octet behind the buffer the guards read the login the frame parser reads |
| `Socks5Proxy.CProxySocks5.ProcessClientRequest` | Src/ProxySocks5.cpp:230-296 | reads, waits, refuses or executes the request, by its command, as specified |
| `Socks5Proxy.CProxySocks5.ProcessConnect` | Src/ProxySocks5.cpp:406-426 | refuses an empty host, asserts against a second dial, else dials |
| `Socks5Proxy.CProxySocks5.BuildReply` | Src/ProxySocks5.cpp:317-376 | the buffer filled octet by octet is the encoded reply, with the IPv4 form where there is one |
| `Socks5Proxy.CProxySocks5.SlotPeerConnected` | Src/ProxySocks5.cpp:428-436 | sends the success reply, forwards from then on, and takes the request off the buffer |
| `Socks5Proxy.CProxySocks5.SlotPeerError` | Src/ProxySocks5.cpp:445-471 | maps the connector error to a reply code or a silent close |
| `Socks5Slots.Handle` | Src/ProxySocks5.cpp:29-471 | in every state of every run each slot may be called, takes the step of the state machine and keeps its invariant |
| `DataChannel.PiecesCount` | Src/DataChannelIce.cpp:346-356 | a write of n octets sends max(1, ceil(n / 65535)) messages |
| `DataChannel.PiecesSizes` | Src/DataChannelIce.cpp:346-356 | all messages but the last are full, the last has the remainder, none is empty unless the write is |
| `DataChannel.FragmentationReassembles` | Src/DataChannelIce.cpp:174-192 | for every sequence of writes, deliveries and reads: written = returned, then m_data, then the messages on their way |
| `DataChannel.WrittenFragmentsExact` | Src/DataChannelIce.cpp:346-356 | as written, a block arrives unchanged if and only if octet i equals octet i mod 65535 throughout; always up to 65535 octets |
| `DataChannel.WrittenFragmentsFail` | Src/DataChannelIce.cpp:349-349 | a block of 65536 octets that arrives changed |
| `DataChannel.ShortWritesAgree` | Src/DataChannelIce.cpp:318-388 | with writes of at most one message the written code goes through the intended states |
| `DataChannel.CDataChannelIce.WriteData` | Src/DataChannelIce.cpp:318-357 | sends the fragments in order and gives up at the first one refused; -1 or the length |
| `DataChannel.CDataChannelIce.ReadBlock` | Src/DataChannelIce.cpp:359-382 | returns and removes the front of m_data; the exact sizes for which the narrowed comparison overruns it |
| `TunnelCodec.RequestRoundTrip` | Src/PeerConnectorIceServer.cpp:137-161 | every NUL-free host the length octet can carry and every port read back, whatever follows |
| `TunnelCodec.ReplyRoundTrip` | Src/PeerConnectorIceClient.cpp:159-168 | the same for the bind address and port of a success reply |
| `TunnelCodec.ErrorRoundTrip` | Src/PeerConnectorIceServer.cpp:195-216 | every error code from -128 to 127 comes out of its one-octet field unchanged, -1 included |
| `TunnelCodec.FrameOctets` | Src/PeerConnectorIceClient.h:80-86 | the octets of a request, a success reply and an error reply |
| `TunnelCodec.PrefixWaits` | Src/PeerConnectorIceServer.cpp:137-159 | every proper prefix of a request or success reply asks for more input |
| `TunnelFeeding.RequestFedInPieces` | Src/PeerConnectorIceServer.cpp:126-191 | for every split of a request into non-empty pieces the server dials nothing before the last piece, and then exactly the requested target, once |
| `TunnelFeeding.ReplyFedInPieces` | Src/PeerConnectorIceClient.cpp:135-179 | for every split of a success reply with anything behind it the client finds its host and port, signals once and hands over what stands behind, but for what the written code clears |
| `TunnelFeeding.ErrorFedInPieces` | Src/PeerConnectorIceClient.cpp:149-179 | for every split of an error reply into non-empty pieces the client signals exactly that error |
| `TunnelFeeding.OtherRequestsRefused` | Src/PeerConnectorIceServer.cpp:143-155 | a request of another version or command signals error -1 and is never dialled |
| `TunnelCodec.HostBoundExact` | Src/PeerConnectorIceServer.cpp:157-161 | as written, a host of up to 255 octets is dialled if and only if it has at most 127; otherwise the server crashes |
| `Tunnel.LongHostNeverDials` | Src/PeerConnectorIceServer.cpp:157-161 | as written, over every run with a host of 128 to 255 octets nothing is dialled, signalled or given to either end |
| `Tunnel.TakeInv` | Src/PeerConnectorIceServer.cpp:54-270 | every step of client, server, channel and target keeps the tunnel's invariant |
| `Tunnel.TunnelTransparency` | Src/PeerConnectorIceClient.cpp:135-179 | as intended, in every run the target is given a prefix of what the session wrote and the session a prefix of what the target sent, without any handshake octet |
| `Tunnel.WrittenTransparency` | Src/PeerConnectorIceClient.cpp:162-175 | as written the same up to the octets cleared with the reply; on a drained channel nothing is missing if and only if none were cleared |
| `Tunnel.LostWithReply` | Src/PeerConnectorIceClient.cpp:173-173 | as written, octets are lost if and only if the reply is not read alone |
| `TunnelProgress.LossHappens` | Src/PeerConnectorIceClient.cpp:173-173 | for every target, bind address and first block there is a run from the start in which that block arrives before the reply is read, and is lost |
| `Tunnel.Agreement` | Src/PeerConnectorIceServer.cpp:218-233 | a client in FORWORD implies a server in FORWORD, one dial for exactly the host and port given to Connect, and equal bind address and port |
| `Tunnel.NoDoubleDial` | Src/PeerConnectorIceServer.cpp:126-167 | over every run at most one dial, for the requested target; the asserted-against second parse and the crashes are never reached |
| `Tunnel.ReplyFirstAndOnce` | Src/PeerConnectorIceServer.cpp:195-270 | the success reply is posted first and once; all that follows it is what the target sent |
| `Tunnel.SignalsOnce` | Src/PeerConnectorIceClient.cpp:149-179 | the client connector signals at most one thing: the connection, or the error by which the target went |
| `Tunnel.ServerReportsTarget` | Src/PeerConnectorIceServer.cpp:235-257 | over every run the server connector signals nothing while its target is there, and then once how it went: the error, or a disconnect |
| `TunnelProgress.HandshakeCompletes` | Src/PeerConnectorIceClient.cpp:89-179 | for every target and bind address there is a run that brings both sides to FORWORD |
| `TunnelProgress.EverythingArrives` | Src/PeerConnectorIceServer.cpp:54-72 | from every established state, delivering and reading what is on the channel gives each end everything the other wrote, but for what the written code cleared |
| `TunnelProgress.FailureArrives` | Src/PeerConnectorIceServer.cpp:235-257 | after every run in which the target went before it connected, delivering and reading makes the open client connector signal exactly that |
| `TunnelProgress.FailureCompletes` | Src/PeerConnectorIceServer.cpp:235-257 | for every target and every way it can go there is a run in which the client connector hears of it |
| `TunnelReadings.RunAgrees` | Src/PeerConnectorIceClient.cpp:135-179 | for hosts of at most 127 octets, a run whose writes fit one message and whose success reply is read alone goes through exactly the intended states |
| `IceConnectors.CPeerConnectorIceClient.SlotDataChannelConnected` | Src/PeerConnectorIceClient.cpp:89-110 | the buffer filled in place is the encoded request, posted as one block |
| `IceConnectors.CPeerConnectorIceClient.OnConnectionReply` | Src/PeerConnectorIceClient.cpp:149-179 | waits, accepts, crashes or reports the error as specified for the written text |
| `IceConnectors.CPeerConnectorIceServer.OnReciveConnectRequst` | Src/PeerConnectorIceServer.cpp:126-193 | waits, refuses, crashes, asserts or dials as specified |
| `IceConnectors.CPeerConnectorIceServer.Reply` | Src/PeerConnectorIceServer.cpp:195-216 | the zeroed and filled buffer is the encoded reply |
| `IceConnectors.CPeerConnectorIceServer.SlotPeerConnected` | Src/PeerConnectorIceServer.cpp:218-233 | stores the bind address, switches to FORWORD and replies, in this order |
| `EndToEnd.HostTextFits` | Src/ProxySocks5.cpp:250-280 | the host of any accepted request is NUL-free and at most 255 octets long |
| `EndToEnd.EndingsAgreeExact` | Src/PeerConnectorIceServer.cpp:235-257 | over every run of the tunnel in which the target goes before it connects, the tunnelled and the direct ending of the session are equal if and only if the target reported an error and did not just disconnect |
| `EndToEnd.ErrorTransparency` | Src/PeerConnector.cpp:126-163 | for every run of the tunnel in which a socket error comes before the connection, the error is delivered, and the session ends as with a direct connector: with code 5 for a refused connection, 4 for an unknown host, 2 for a forbidden one, and silently for the others |
| `EndToEnd.DisconnectDiffers` | Src/PeerConnectorIceServer.cpp:235-243 | for every target, the run from the start in which a disconnect makes the tunnel signal "not allowed" and ends the session with code 2, where a direct connector ends it silently |
| `EndToEnd.EndToEndTransparency` | Src/ProxySocks4.cpp:276-313 | in either reading, over every run of client, session, tunnel and target with, as written, blocks of at most 65535 octets: received octets are accounted for; at most the session's dial is dialled; the target gets a prefix of what the session forwarded; the octets lost with the reply followed by those relayed are a prefix of what the target sent; on a drained channel everything is relayed if and only if nothing was lost |
| `EndToEnd.EndToEndPosted` | Src/ProxySocks4.cpp:276-313 | the same for blocks of any size, in terms of the octets that the data channel was given |
| `EndToEnd.EndToEndTarget` | Src/ProxySocks5.cpp:406-436 | in either reading, while the session forwards, the target reached is the one named in the request frame it took last; as intended everything behind that frame has been forwarded |
| `EndToEndProgress.DialCompletes` | Src/PeerConnectorIceServer.cpp:218-233 | in either reading, every dial whose host fits the tunnel can be completed, with the session then linked to its target |
| `EndToEndProgress.FailureReaches` | Src/PeerConnectorIceServer.cpp:235-257 | and every way the target can go reaches the session as that error |
| `EndToEndProgress.EverythingArrivesEndToEnd` | Src/ProxySocks4.cpp:276-293 | after every run that has linked a session, delivering and reading gives the target everything forwarded and the client everything sent, but for what was lost with the reply |
| `EndToEndClient.ClientReachesTarget` | Src/ProxySocks5.cpp:66-436 | in either reading, for every client the code serves, every split of its opening and every bind address, the run from the beginning that links its session to exactly the target it asked for |
| `EndToEndClient.ClientReachesIPv4` | Src/ProxySocks5.cpp:66-436 | the same octet by octet for IPv4: the one host the far server dials reads back to octets 4 to 7 of the request, and the client has got exactly the method, the login status and the success reply |
| `EndToEndClient.Conversation` | Src/ProxySocks4.cpp:276-313 | and then, for everything the client sends and the target answers, the run in which the target is given exactly what stood behind the request and was sent since, and the client exactly the answer |
| `EndToEndWritten.WrittenAsIntended` | Src/ProxySocks5.cpp:29-471 | on a run of session and tunnel free of the situations in which the readings part, the written program goes through exactly the intended states |
| `ConnectorRegistry.RegistryHoldsOpenConnectors` | Src/ServerSocks.cpp:154-247 | after every sequence of offers, signals and stops the non-null entries are exactly the open connectors under their own keys; closed connectors were closed once; none was stored before its predecessor was closed |
| `ConnectorRegistry.OfferReplaces` | Src/ServerSocks.cpp:154-204 | an accepted offer closes the connector that held the key, once, and then stores the new one; a refused offer changes nothing |
| `ConnectorRegistry.ConnectorsWereOffered` | Src/ServerSocks.cpp:162-173 | in every run each connector goes back to an offer under its key that came from the configured peer, went to the configured signal user, or found no peer configured |
| `ConnectorRegistry.OfferAdmittedExact` | Src/ServerSocks.cpp:162-203 | in every run each such offer leaves a new open connector under its key, and any other offer changes nothing |
| `ConnectorRegistry.SignalExact` | Src/ServerSocks.cpp:206-247 | a signal closes its sender if and only if that is open and named; a late one changes nothing, so it never touches a successor |
| `ConnectorRegistry.IssuedOffersNeverReplace` | Src/ServerSocks.cpp:173-203 | when each peer's ids come from a counter within its range, no offer of any run finds its key taken, so none closes a connector |
| `ConnectorRegistry.StopInv` | Src/ServerSocks.cpp:136-152 | stopping empties the registry, leaves no connector open, closes none, and keeps the invariant |
| `ConnectorRegistry.CServerSocks.OnOffer` | Src/ServerSocks.cpp:154-204 | the nested map updated in place is the specified one |
| `ConnectorRegistry.CServerSocks.CloseServer` | Src/ServerSocks.cpp:229-247 | looks the key up, removes it and closes what was there |
| `IceManagerLifetime.OpenChannelsStayRegistered` | Src/IceManager.cpp:85-143 | as intended, over every run with issued ids: an open channel's peer is registered with the connection the channel was opened on, and no connection is registered twice |
| `IceManagerLifetime.CloseExact` | Src/IceManager.cpp:124-143 | as intended, for every peer, a close drops the entry if and only if no other channel of the peer is open and no announced label is left on its list; the late close of a replaced channel can take such a label off |
| `IceManagerLifetime.MadeConnectionIsUsed` | Src/IceManager.cpp:85-122 | as intended, a connection made for a local channel is registered only while the peer has an open channel or an announced label |
| `IceManagerLifetime.ConnectorsRideOnOffers` | Src/IceManager.cpp:64-80 | in either reading, over every run, a connector is made only for a channel on a connection that goes back to an offer of its peer which was let in |
| `IceManagerLifetime.OfferAdmittedExact` | Src/IceManager.cpp:250-301 | in either reading, over every run, an offer from the configured peer, to the configured signal user, or with no peer configured registers a new connection with empty lists, and any other offer changes nothing |
| `IceManagerLifetime.OtherPeersUntouchedRun` | Src/IceManager.cpp:64-143 | in either reading, a run for other peers leaves a peer's entry and channels as they were |
| `IceManagerLifetime.LateCloseLosesOffer` | Src/IceManager.cpp:138-141 | a run in which a late close unregisters a new offer, so that the channel announced on it is lost |
| `IceManagerLifetime.WrittenLifetimeExact` | Src/IceManager.cpp:124-143 | as written, for any mixture of opens, announcements, offers and closes, the peers of the open channels stay registered along a run if and only if every close beside another open channel leaves something on the two lists |
| `IceManagerLifetime.WrittenLastCloseExact` | Src/IceManager.cpp:135-141 | as written, for any mixture of roles and from every state, all last closes of a run drop their peer if and only if each of them finds nothing listed but what it takes off itself |
| `IceManagerLifetime.WrittenListsAnnounced` | Src/IceManager.cpp:64-79 | as written, whatever is listed for a peer after a run from the empty state was announced on the connection that is registered for it |
| `IceManagerLifetime.WrittenKeepsClosedPeer` | Src/IceManager.cpp:135-141 | an offer, an announced channel and its close: as written the peer stays registered with no channel open, as intended it is dropped |
| `IceManagerLifetime.WrittenClientExact` | Src/IceManager.cpp:124-143 | as written, a client keeps the peers of its open channels registered along a run if and only if it never closes a channel while another one to the peer is open |
| `IceManagerLifetime.WrittenDropsSharedConnection` | Src/DataChannelIceChannel.cpp:36-50 | two channels to a peer; closing one unregisters the connection under the other |
| `IceManagerLifetime.WrittenServerNeverDrops` | Src/IceManager.cpp:135-141 | as written, on a side that only takes offers, a peer whose offer was accepted once is registered at the end of every run, whatever was closed |
| `IceManagerLifetime.IssuedAreFresh` | Src/PeerConnectorIceClient.cpp:204-206 | ids issued by one counter, at most 2^64 of them, never repeat among the channels opened in a run |
| `IceManagerObject.CIceManager.OnOffer` | Src/IceManager.cpp:242-311 | closes the connectors of the old entry one by one and stores a new connection, leaving other peers alone |
| `IceManagerObject.CIceManager.OnDataChannel` | Src/IceManager.cpp:64-80 | lists an announced label, or makes a connector for it, by how the connection was made |
| `IceManagerObject.CIceManager.Unlink` | Src/IceManager.cpp:124-143 | the list chosen by the role flag loses the id, and an entry with two empty lists is dropped |
| `IceManagerObject.CIceManager.CreateDataChannel` | Src/DataChannelIceChannel.cpp:36-50 | finds or makes the connection, whichever the role, and sets the role |
| `ChannelIds.IdsCollideExact` | Src/ParameterIce.cpp:188-196 | two issued ids are equal if and only if their numbers agree modulo 2^64 |
| `ChannelIds.IdsDiffer` | Src/ParameterIce.cpp:188-196 | any two of 2^64 ids issued in a row differ |
| `ChannelIds.IdText` | Src/ParameterIce.cpp:188-196 | an id is "c_" and the decimal digits of its number |
| `ChannelIds.CParameterIce.GenerateChannelId` | Src/ParameterIce.cpp:188-196 | each of the first 2^64 ids is new |
| `MethodStore.LoadGivesLastSaved` | Src/ParameterSocks.cpp:45-58 | after any history of saves and other settings, Load gives the list saved last if it is not empty, else the loader's own; stale keys of longer lists never show |
| `MethodStore.RestoredExact` | Src/ParameterSocks.cpp:52-53 | the saved list is restored if and only if it is not empty or the loader's list is empty |
| `MethodStore.SavedUnderKeys` | Src/ParameterSocks.cpp:28-34 | a save leaves the length and each method under its key, and every other key as it was |
| `MethodStore.CParameterSocks.SaveTo` | Src/ParameterSocks.cpp:21-34 | the loop writes the length and every indexed key |
| `MethodStore.CParameterSocks.LoadFrom` | Src/ParameterSocks.cpp:45-58 | the loop rebuilds the list from the keys, clearing the old one only for a positive length |

## Left out

- SOCKS4 and 4a: the request parser does not settle where a frame ends (`Src/ProxySocks4.cpp:75-120`); only the version dispatch to it and the relaying slot are modelled.
- BIND: a BIND request ends the model's run (`Halt.Outside`); its result convention disagrees with its use (`Src/ProxySocks5.cpp:396-398`).
- UDP ASSOCIATE: accepted without any effect, as in the code; there is no UDP relay to model.
- Host name lookup: the calls are commented out, so its slots are unreachable.
- IPv6 dialling: an IPv6 request is answered with "address type not supported", as in the code.
- Write failures of sockets: a write to an open socket succeeds; the data channel's refusal of a message is modelled.
- Text encoding: hosts, user names and passwords are octets up to the first NUL; decoding them as UTF-8 is not modelled. Users and channel ids are strings.
- QHostAddress: its IPv4 conversion is taken from Qt's documentation (mapped and unspecified IPv6 addresses convert); its rules for the text of an IPv6 address are not modelled, the tunnel takes any NUL-free bind text of at most 127 octets.
- An offered method octet of 128 or more is compared as an octet with the supported ones.
- An out-of-range `QByteArray::at` in the login guard is an arbitrary octet; a build with assertions would stop there.
- The mutex of the connector registry: `slotOffer` and `CloseConnectServer` lock it in one call chain (`Src/ServerSocks.cpp:174`, `Src/ServerSocks.cpp:236`), which blocks for ever on a replacing offer; the model has single-threaded events without the lock.
- An assertion that fires stops the program; where session and tunnel run together the model then closes the session's connector, as the end of the process would.
- Thread interleavings inside a handler: each slot or callback is atomic, and an announced channel gets its connector in the same step.
- libdatachannel, session descriptions, candidates, STUN, TURN and the signalling services: the channel is a reliable queue, and a peer connection that is replaced or unregistered announces nothing any more.
- The password of the stored parameters: it is saved under one key and loaded from another (`Src/ParameterSocks.cpp:36-38`, `Src/ParameterSocks.cpp:60`), so it does not round-trip; only the method list is modelled.
- The count of connectors, starting and stopping the service beyond the registry, getters and setters, the user interface and `Server/`: plumbing.
- Socks5Proxy.CProxySocks5.SlotRead: models the written text only; the intended reading exists as functions.
