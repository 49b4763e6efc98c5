# DTN2 in Dafny

Models of four parts of the DTN2 reference implementation, with proofs about them:

- **The application IPC protocol.** Client library and daemon session exchange framed requests and
  replies over a byte stream. A poll leaves a request outstanding, and its cancel can cross its reply.
  `PollProtocol` is both sides and both streams as one transition system; `PollRuns` has the
  theorems over whole runs, and `PollHistory` those about what was said: the requests and replies
  each side sent and the other decoded, bodies included. `DtnIpc` is the client's end in place, over
  its message buffer and a kernel that may cut short, interrupt or fail any read or write;
  `ApiSession` is the daemon's end in the same style. `ClientView` ties those two to the transition
  system: what a handle's calls do is the client's part of its runs. `Registrations` and `ApiServer` are the ownership of registrations by any number
  of sessions, and the session's service loop.
- **The IPC data encoding.** `Xdr` and `DtnTypes` are encoders and decoders for every structure the
  requests carry, with round trips, sizes and the message-fit bound. `BlockPacking` is the
  count-then-fill packing of extension and metadata blocks, and `RecvReply` says when a bundle so
  packed reaches the application.
- **The simulator.** `SimLinkModel`, `SimLinkRuns` and `SimLink` are the link with its pending slot,
  two queues and three timers. `Simulator` is the event loop, `NodeEvents` the nodes' queues and the
  repeat-until-quiet loop, `Connectivity` the wildcard connectivity table.
- **The analytic flow model.** `FlowModel` is the script that moves an amount of data along a chain
  of intermittent links.

State that the sources change in place is a class here. Its methods are proved against a function of
the old state or, where the kernel leaves more than one outcome, against a relation between the old
state and the new; the theorems are about those and the runs made of them.
`Bytes` holds bytes, words and frames, `IpcDefs` the codes and sizes both ends share, `Collections`
a few small definitions. `dafny verify dfyconfig.toml` checks the project.

## What the proofs found

- After a cancel whose first reply is not SUCCESS, or a begin-poll whose timeout has no room behind
  what failed packs left in the encoder, the client's `in_poll` flag no longer matches the channel.
  These are the only two such steps (`InStepUnlessSlip`). From then on a call gets the reply to a
  request as many places before its own as cancels failed more often than begin-polls (`WhichReply`),
  and a body read can run past its frame exactly while another answer is in flight and the body does
  not fill the buffer (`BodyReadSafety`). One late reply is enough for a body read to swallow a whole
  reply (`SlipLeadsToOverRead`), and one begin-poll that was not sent is enough for its cancel to wait
  for ever (`FullEncoderDeadlocks`).
- The encoder and the replies share one buffer: after a begin-poll that was not sent, the body of the
  reply a receiving call collects overwrites what failed packs left there, and the next request sends
  the mixture (`Recv`, `ReceivingCall`).
- `handle_recv` takes a bundle off its list before it encodes it; one with more than 256 kept blocks,
  a block over 1024 bytes, or more than the reply buffer holds is not delivered (`DeliveredIff`).
- A chain of one node with the sequential or shifted schedule ends in an index error
  (`StrayedTurn`).
- `dtn_cancel_poll` compares the result of `dtnipc_send_recv` with a status, but that result is 0
  or -1; `err` ends as -1 (`CancelPoll`).
- `dtnipc_close` skips `close` for descriptor 0; a descriptor is closed once exactly when it is
  positive (`Released`).
- A link can be open and idle with a bundle queued, when the contact comes up after one was queued
  (`StallsOnlyOnContactUp`). Reopening a link whose bundle is still being clocked out, or a report
  falling due without a contact, fails an assertion (`WhenAssertionsHold`).
- The simulator stops making progress when only events beyond INT_MAX are left
  (`StuckBeyondLimit`). `run_node_events` can return with events queued: `QuiescentIff` says when,
  and `LeaveBehind` is such a call on a network of two nodes.
- `update_connectivity` changes the rate of every link of the first node, before it looks at the
  peer (`RateOfEveryLink`).
- When the flow model finishes exactly at an event, the elapsed time it prints counts the interval
  twice, whatever links are open (`PrintedTime`). With both periods zero it never ends (`ZeroPeriodsSpin`).

## Model

| member | source | states |
|---|---|---|
| Bytes.WordRoundTrip | applib/dtn_ipc.c:390-396 | a 32-bit word written in network order reads back as itself |
| Bytes.WordOfValue | applib/APIServer.cc:320-330 | and the other way round, so a length field stands for exactly one number |
| Bytes.NetworkOrder | applib/dtn_ipc.c:390-396 | the first byte in which two words differ is the one that decides |
| Bytes.RequestFrameParses | applib/APIServer.cc:299-330 | the type, length and body of a request frame are recovered whatever follows it on the stream |
| Bytes.ReplyFrameParses | applib/dtn_ipc.c:453-487 | the status, length and body of a reply frame are recovered whatever follows it |
| Bytes.RequestsPrefix | applib/APIServer.cc:287-361 | requests decoded off the front of a stream are the first of those sent on it, and what is left is the bytes of the others |
| Bytes.RepliesPrefix | applib/dtn_ipc.c:430-490 | the same for replies |
| PollProtocol.StepBasic | applib/APIServer.cc:287-420 | every step of client, server or network keeps both streams made of whole frames and all four byte counters exact |
| PollProtocol.StepBalanced | applib/dtn_api.c:850-912 | every step keeps the ledger of requests sent, replies read and what the client expects |
| PollProtocol.StepInStep | applib/dtn_api.c:850-912 | every step from a state in step ends in step or is one of the two slips, and the server never drops a session in step on its own |
| PollProtocol.InStepUnlessSlip | applib/dtn_api.c:850-912 | exactness: a step keeps the two sides in step if and only if it is not a failed cancel and not a begin-poll with less than four bytes of room |
| PollProtocol.SocketReadyIsCancel | applib/APIServer.cc:2011-2052 | in step, what wakes a blocked handler through its socket is always a cancel with an empty body, and the blocked handler is a poll |
| PollProtocol.BodyAlone | applib/dtn_ipc.c:465-487 | in step, while a body is being read the reply stream holds only the rest of it |
| PollProtocol.CancelInPollInStep | applib/APIServer.cc:2037-2064 | a cancel consumed inside the poll handler, answered twice, leaves the two sides in step |
| PollRuns.StreamsStayFramed | applib/dtn_ipc.c:369-490 | over every run both streams are whole frames, and bytes sent are bytes received plus bytes in flight, in both directions |
| PollRuns.Ledger | applib/dtn_api.c:850-912 | over every run without over-read, requests sent minus replies read is what the client expects plus failed cancels minus failed begin-polls |
| PollRuns.Synchronised | applib/dtn_api.c:850-912 | without those, between calls exactly one reply is due while `in_poll` is set and none otherwise, no read runs past its frame, and the channel stays open |
| PollRuns.BodyReadSafety | applib/dtn_ipc.c:465-487 | over every run without over-read so far: a body is alone on the stream if and only if no other answer is in flight; a read can run past it if and only if one is and the body does not fill the buffer; and nothing else is due if and only if what is expected plus the failed cancels is one more than the begin-polls never sent |
| PollRuns.HeaderFound | applib/dtn_ipc.c:430-463 | over every such run, when a call finds a header, exactly how many replies are due and whether it is its own alone |
| PollRuns.NoOverRead | applib/dtn_ipc.c:465-487 | so without the two slips a body read that asks for all remaining buffer space cannot reach a later reply |
| PollRuns.OwnHeader | applib/dtn_ipc.c:498-519 | and a plain call that finds a reply header finds its own, alone on the stream |
| PollRuns.NoDeadlock | applib/APIServer.cc:1984-2065 | over every run without over-read, a waiting client has a request, a blocked handler or a reply on the way if and only if what it expects plus the failed cancels outnumbers the begin-polls never sent |
| PollRuns.FullEncoderDeadlocks | applib/dtn_api.c:850-912 | a concrete run: a failed send fills the encoder, the begin-poll is not sent, and its cancel waits on an open connection on which nothing but the end can happen |
| PollRuns.TimedOutCancelSlips | applib/dtn_api.c:880-912 | a concrete run: a poll times out, its cancel reads ETIMEOUT first and returns with one reply unread |
| PollRuns.SlipLeadsToOverRead | applib/dtn_ipc.c:465-487 | continued by two calls, each is answered with its predecessor's reply and a body read swallows the next one whole |
| PollHistory.StepRecorded | applib/APIServer.cc:287-459 | every step keeps requests sent as those served then those in flight, replies sent as those decoded then the one being read then those in flight, with every byte of their bodies |
| PollHistory.Delivered | applib/dtn_ipc.c:369-490 | over every run without over-read, the requests served are the first of those sent, the replies decoded are the first of those sent, bodies included, and the n-th reply answers the n-th request |
| PollHistory.DeliveredInStep | applib/dtn_api.c:850-912 | so it is over every run without the two slips, and between calls with no poll outstanding everything asked has been served, answered and decoded |
| PollHistory.BetweenCalls | applib/dtn_api.c:850-912 | over every run without over-read, between calls with no poll, the requests sent outnumber the replies decoded by the failed cancels minus the begin-polls never sent, and both lists are in turn |
| PollHistory.WhichReply | applib/dtn_ipc.c:498-519 | over every such run, a plain call that returns has decoded, body included, the answer to the request exactly that many places before its own |
| PollHistory.OwnReply | applib/dtn_ipc.c:498-519 | so without the two slips it has decoded the answer to its own |
| ClientView.SeenAlone | applib/dtn_ipc.c:369-490 | every run of both sides, seen from the client, is a run of the client alone on the bytes the daemon sends in it |
| ClientView.PlainPlays | applib/dtn_api.c:437-478 | every outcome of a plain call is that of a run of the protocol's client |
| ClientView.BeginPlays | applib/dtn_api.c:849-876 | the same for begin-poll, sent or not |
| ClientView.CancelPlays | applib/dtn_api.c:879-912 | the same for a cancel, whatever its first reply |
| ClientView.ReceivingPlays | applib/dtn_api.c:508-560 | the same for a call that first collects a poll's reply |
| ClientView.PlaysJoin | applib/dtn_api.c:849-912 | one call after another is one run |
| ClientView.WholeRun | applib/dtn_ipc.c:369-519 | refinement: if a handle's calls went through the client's events of a run of both sides, handle and client agree again after it, on flag, encoder, both streams and both counts |
| ClientView.CanFinish | applib/dtn_ipc.c:369-519 | and wherever both sides have got to in a call, once the bytes it reads have come the rest of it can happen and ends as the handle did |
| ClientView.HandleLedger | applib/dtn_api.c:850-912 | a handle's own count of requests minus replies is its poll flag plus failed cancels minus begin-polls never sent, over every run without over-read |
| ClientView.DaemonTurn | applib/APIServer.cc:287-459 | reading one request off the bytes and writing one reply is one step of the daemon |
| ClientView.DaemonBlocks | applib/APIServer.cc:1984-2065 | with a handler that blocks in between it is two |
| ClientView.DaemonWoken | applib/APIServer.cc:2011-2064 | taking an empty cancel inside the poll handler and answering both is one step, and any other front request ends the session |
| DtnIpc.Handle.WriteAll | applib/dtn_ipc.c:397-418 | whatever the pattern of short and interrupted writes, all the bytes or a proper prefix of them go out, and all of them if and only if no write fails before they have |
| DtnIpc.Handle.Send | applib/dtn_ipc.c:369-420 | one frame holding exactly what the encoder held, the encoder rewound, if and only if the writes carry it; on failure the handle closed with ECOMM |
| DtnIpc.Handle.Recv | applib/dtn_ipc.c:430-490 | a reply is taken if and only if its header comes in one read and the reads after it carry its body, which must fit the buffer; status, length and body are those of the frame at the front of the stream, and exactly what was read stands over what the encoder held; on failure the handle closed with ECOMM |
| DtnIpc.Handle.SendRecv | applib/dtn_ipc.c:498-519 | one request goes out and one reply comes in if and only if the calls carry both, and otherwise the connection is gone; 0 or -1, with any other status in `err` |
| DtnIpc.Handle.Close | applib/dtn_ipc.c:339-361 | a close request goes out first unless err is ECOMM; close, send_recv, send and recv call each other at most two closes deep, because err is ECOMM before re-entry; the descriptor is released once |
| DtnIpc.Handle.Open | applib/dtn_ipc.c:71-196 | succeeds if and only if the greetings match; every failure releases the descriptor, and a version mismatch is reported as EVERSION whatever its closing exchange does, any other failure as ECOMM |
| ApiSession.Handshake | applib/dtn_ipc.c:130-193 | the two halves run against each other, each reading what the other wrote: both go on if and only if the versions are equal, and otherwise the client knows why |
| DtnIpc.Handle.Greet | applib/dtn_ipc.c:130-193 | the client's half of the handshake, for a client of any version: how it ends is a function of the two system calls and the word read, agreed exactly on an open word of its own version |
| ApiSession.Session.HandleHandshake | applib/APIServer.cc:239-283 | the daemon's half, for any version: it answers an open word of any version with its own, refuses any other word unanswered, and goes on exactly with its own version |
| DtnIpc.Handle.Pack | applib/dtn_api.c:453-459 | packing succeeds exactly when the arguments fit behind what earlier failed packs left, and appends exactly the items before the first that does not fit |
| DtnIpc.Handle.PlainCall | applib/dtn_api.c:437-478 | rejected with EINPOLL while a poll is outstanding, with EXDR if it does not fit; otherwise the connection stays up exactly when the calls carry request and reply, and the result is 0 exactly on SUCCESS, with exactly its request out and the body of the reply in the buffer to be decoded; one of the outcomes of `PlainPlays` |
| DtnIpc.Handle.BeginPoll | applib/dtn_api.c:849-876 | the flag is set before anything can fail; the connection stays up exactly when the frame is carried; stays in step if and only if the timeout can be packed |
| DtnIpc.Handle.CancelPoll | applib/dtn_api.c:879-912 | stays in step if and only if the first reply is SUCCESS; otherwise -1 with one reply unread; after both replies 0 exactly if the second is an empty SUCCESS |
| DtnIpc.Handle.ReceivingCall | applib/dtn_api.c:508-560 | a pending poll's reply is collected before the call, which goes on only after an empty SUCCESS and leaves the two sides in step; exactly when the connection stays up, and the result and error of each case |
| ApiSession.Session.ReadRequest | applib/APIServer.cc:302-361 | a request is read exactly when its header comes in one read and the reads after it carry its body; then its whole frame, and nothing behind it, has come off the stream |
| ApiSession.Session.ReadRequests | applib/APIServer.cc:295-361 | whatever the pattern of short reads, the requests decoded are the first of those sent, one for one, and reading stops early only by closing |
| ApiSession.Session.SendResponse | applib/APIServer.cc:424-459 | one reply frame with the status and exactly what was encoded, if and only if the writes carry it; otherwise a closed session and a proper prefix of it |
| ApiSession.Session.WokenBySocket | applib/APIServer.cc:2011-2064 | the hand-written copy of the request format takes an empty cancel frame if and only if one is there and its two reads get it, and answers it once; -1 exactly when the first read gives nothing, and anything else is an error |
| ApiSession.RequestsDetermined | applib/APIServer.cc:287-361 | two sequences of requests with the same bytes are the same sequence |
| ApiSession.RepliesDetermined | applib/dtn_ipc.c:430-490 | two sequences of replies with the same bytes are the same sequence |
| Registrations.PerformKeeps | applib/APIServer.cc:513-852 | every step of any session, timer or the daemon keeps exclusive ownership and loses no expiry, with the daemon's own registrations in the table |
| Registrations.RunExclusive | applib/APIServer.cc:606-850 | over every interleaving, an API registration is active if and only if one running session holds it, once; the daemon's own are active and held by none |
| Registrations.AddInternalKeeps | servlib/reg/LoggingRegistration.cc:33-38 | a registration of the daemon's own is new, active from its construction, and disturbs no session's |
| Registrations.Teardown | applib/APIServer.cc:215-236 | closing makes exactly the session's registrations inactive, posts exactly the expired ones in binding order, and a second close changes nothing |
| Registrations.ReleaseAllPosts | applib/APIServer.cc:218-230 | the expiry events of a close are those of its expired bindings, in order |
| Registrations.RegisterMeaning | applib/APIServer.cc:512-622 | register succeeds if and only if the request is valid: an endpoint, one of three failure actions with four flags above it, one of three replay actions; the new registration has the next regid, is held and active unless asked to be passive, is expired exactly without a lifetime, and nothing else changes |
| Registrations.UnregisterMeaning | applib/APIServer.cc:630-673 | the answer to every unregister in terms of who holds what; it removes a registration if and only if it is an API one nobody holds; a bound one of the caller's is marked expired instead; another's and the daemon's own are EBUSY; and nothing else changes |
| Registrations.BindMeaning | applib/APIServer.cc:762-801 | bind succeeds if and only if the registration is known, an API one and held by nobody; then the session holds it, it is active, and nothing else changes |
| Registrations.UnbindMeaning | applib/APIServer.cc:804-850 | unbind succeeds if and only if the session holds the registration; then nobody does, it is inactive, its event is posted if it has expired, and nothing else changes |
| Registrations.BindUnbind | applib/APIServer.cc:762-850 | unbind undoes bind, up to the event of an expired registration |
| Registrations.TimerKeeps | servlib/reg/Registration.cc:241-250 | an expiration timer posts an event at once for exactly the API registrations nobody holds, removes none, and keeps ownership |
| Registrations.HandleExpiredKeeps | servlib/bundling/BundleDaemon.cc:1602-1630 | what leaves the table is exactly the registration of the oldest expiry event, if it is an API one nobody holds |
| ApiServer.Server.IsBound | applib/APIServer.cc:462-474 | true if and only if the regid is among the session's bindings |
| ApiServer.Server.HandleRegister | applib/APIServer.cc:512-622 | in place: invalid requests change nothing; a new registration is bound and active unless asked to be passive |
| ApiServer.Server.HandleUnregister | applib/APIServer.cc:630-673 | in place: as the step of `Registrations`, keeping the session served |
| ApiServer.Server.HandleBind | applib/APIServer.cc:762-801 | in place: as the step of `Registrations` |
| ApiServer.Server.HandleUnbind | applib/APIServer.cc:804-850 | in place: the scan releases the first matching binding and posts its expiry |
| ApiServer.Server.CloseClient | applib/APIServer.cc:214-236 | in place: the draining loop ends with the session off the list and holding nothing |
| ApiServer.Server.SendResponse | applib/APIServer.cc:449-458 | a reply that cannot be written closes the session; otherwise ownership is untouched |
| ApiServer.Server.Run | applib/APIServer.cc:287-420 | the loop's final state and its answers are a function of what it meets; on every exit but the regid assertion the session is over, also after a double close |
| ApiServer.TurnMeaning | applib/APIServer.cc:363-418 | what one turn answers, in terms of who holds what, when it ends the session, and the state it leaves, for every kind of message |
| ApiServer.SessionMeaning | applib/APIServer.cc:287-420 | over a whole session, whatever others do meanwhile, the answers are those due to the messages handled, one after the other, each in the state the one before and the others have led to, a cancelled poll with SUCCESS before its own; and how the session ends after them |
| ApiServer.Server.AcceptClient | applib/APIServer.cc:110-118 | in place: a new session is listed and holds nothing |
| ApiServer.Server.ServeOne | applib/APIServer.cc:363-418 | in place: the answers due to a message, in terms of who holds what; -1, a reply that cannot be sent, ECOMM and EMSGTYPE end the session |
| ApiServer.OverLeavesNoOrphan | applib/APIServer.cc:215-236 | after any ending, an API registration still active belongs to another running session |
| BlockPacking.Count | applib/APIServer.cc:1466-1485 | the first pass counts exactly the kept blocks and their bytes |
| BlockPacking.Fill | applib/APIServer.cc:1496-1534 | the second pass lays out exactly the kept blocks behind what is there |
| BlockPacking.LayoutDescribes | applib/APIServer.cc:1494-1534 | a layout's regions are ordered, disjoint, without gap, and read back as the blocks |
| BlockPacking.PackExtensionBlocks | applib/APIServer.cc:1466-1538 | the result reads back as both lists filtered, and exactly fills the allocation |
| BlockPacking.PackMetadata | applib/APIServer.cc:1543-1590 | the result reads back as the received metadata and then the null link's |
| BlockPacking.KeepMeaning | applib/APIServer.cc:1469-1473 | a block is kept if and only if it is none of the three internal types |
| BlockPacking.KeepOrder | applib/APIServer.cc:1466-1485 | filtering the two lists one after the other is filtering them joined |
| RecvReply.SpecIsItem | applib/APIServer.cc:1683-1693 | encoding a packed spec item by item succeeds if and only if every length is in bounds and the whole fits, and then writes exactly the spec |
| RecvReply.DeliveredIff | applib/APIServer.cc:1417-1693 | the bundle has left the list either way; the application gets it if and only if the packed spec is within every bound and spec and payload fit the reply buffer |
| RecvReply.WhatIsPacked | applib/APIServer.cc:1417-1693 | the reply's extension blocks are the kept ones received and then the kept ones of the application, its metadata what was received and then what was generated, and the rest the bundle's own |
| RecvReply.DeliveredDecodes | applib/dtn_api.c:545-556 | the application decodes exactly that spec and payload |
| RecvReply.TooManyBlocks | applib/APIServer.cc:1477-1538 | a bundle with more than 256 kept blocks is not delivered |
| Xdr.U32RoundTrip | applib/dtn_types_xdr.c:71-80 | an unsigned word followed by anything reads back with exactly that left |
| Xdr.U64RoundTrip | applib/dtn_types_xdr.c:200-208 | the same for a hyper |
| Xdr.OpaqueRoundTrip | applib/dtn_types_xdr.c:56-65 | the same for padded opaque data of known length |
| Xdr.BytesRoundTrip | applib/dtn_types_xdr.c:330-338 | the same for bounded variable-length data |
| Xdr.HyperOrder | applib/dtn_types_xdr.c:200-208 | the more significant word of a hyper goes first (RFC 4506, section 4.5) |
| Xdr.OpaqueLayout | applib/dtn_types_xdr.c:56-65 | opaque data is the bytes and then zeros up to a multiple of four (RFC 4506, section 4.9) |
| Xdr.BytesLayout | applib/dtn_types_xdr.c:330-338 | and with a variable length that goes first (RFC 4506, section 4.10) |
| DtnTypes.TimestampLayout | applib/dtn_types_xdr.c:115-126 | seconds and then sequence number |
| DtnTypes.TimestampRoundTrip | applib/dtn_types_xdr.c:115-126 | round trip of a timestamp |
| DtnTypes.EidRoundTrip | applib/dtn_types_xdr.c:56-65 | round trip of an endpoint identifier |
| DtnTypes.CharsRoundTrip | applib/dtn_types_xdr.c:136-147 | round trip of a service tag, a vector of characters each in its own word |
| DtnTypes.BlockRoundTrip | applib/dtn_types_xdr.c:309-322 | round trip of an extension block |
| DtnTypes.BlocksRoundTrip | applib/dtn_types_xdr.c:346-378 | round trip of a counted array of blocks |
| DtnTypes.SpecRoundTrip | applib/dtn_types_xdr.c:346-378 | round trip of every in-bounds bundle spec, with any suffix |
| DtnTypes.BundleIdRoundTrip | applib/dtn_types_xdr.c:388-402 | round trip of a bundle id |
| DtnTypes.ReportRoundTrip | applib/dtn_types_xdr.c:435-470 | round trip of a status report |
| DtnTypes.OptionalReportRoundTrip | applib/dtn_types_xdr.c:491-505 | round trip of an optional status report, present or absent |
| DtnTypes.PayloadRoundTrip | applib/dtn_types_xdr.c:491-505 | round trip of a payload |
| DtnTypes.RegInfoRoundTrip | applib/dtn_types_xdr.c:214-236 | round trip of a registration info |
| DtnTypes.SpecLayout | applib/dtn_types_xdr.c:346-378 | addresses, options and the variable part of a spec stand one behind the other, the first two at fixed places |
| DtnTypes.AddressesLayout | applib/dtn_types_xdr.c:346-355 | source, destination and reply-to, in that order |
| DtnTypes.OptionsLayout | applib/dtn_types_xdr.c:356-365 | each option at its own place in the order of the source |
| DtnTypes.VariableLayout | applib/dtn_types_xdr.c:366-377 | sequence id, obsoletes id, extension blocks and metadata, in that order |
| DtnTypes.BlocksLayout | applib/dtn_types_xdr.c:309-322 | an array is its length and its elements, each its type, flags and data |
| DtnTypes.RegInfoLayout | applib/dtn_types_xdr.c:214-236 | every field of a registration info at its own place |
| DtnTypes.BundleIdLayout | applib/dtn_types_xdr.c:388-402 | source, creation time, fragment offset and original length, in that order |
| DtnTypes.ReportLayout | applib/dtn_types_xdr.c:435-470 | bundle id, reason, flags and times of a report at fixed places |
| DtnTypes.TimesLayout | applib/dtn_types_xdr.c:435-470 | each of the six times at its own place |
| DtnTypes.PayloadLayout | applib/dtn_types_xdr.c:491-505 | location, file name, data and report of a payload, in that order |
| DtnTypes.SendLayout | applib/dtn_api.c:453-459 | registration, spec and payload of a send, in that order |
| DtnTypes.SpecSize | applib/dtn_types_xdr.c:346-378 | every spec's encoding length is a multiple of four |
| DtnTypes.PayloadSize | applib/dtn_types_xdr.c:491-505 | every payload's encoding length is a multiple of four |
| DtnTypes.SendRoundTrip | applib/dtn_api.c:453-459 | the daemon unpacks exactly the send request the application packed |
| DtnTypes.SendReencodes | applib/dtn_api.c:453-459 | what the decoder accepts, it accepts again re-encoded, as the same value in as many bytes |
| DtnTypes.SendFits | applib/dtn_types.h:47-54 | an in-memory send needs at most 53268 bytes outside its block elements, so elements of at most 12260 bytes always fit |
| DtnTypes.SendFitsTight | applib/dtn_ipc.h:61 | the bound is reached, and then 12260 is exactly what fits |
| SimLinkModel.StepKeeps | sim/SimConvergenceLayer.cc:160-394 | every handler keeps order, contents and timers of the link |
| SimLinkModel.WhenAssertionsHold | sim/SimConvergenceLayer.cc:160-394 | exactly when an assertion fails: reopening with a bundle still being clocked out, or a report due without contact |
| SimLinkRuns.ExactlyOnceInOrder | sim/SimConvergenceLayer.cc:160-394 | over every run the started bundles are arrivals then arrival queue, reports then report queue, in flight then pending slot, and a prefix of those ever queued |
| SimLinkRuns.NoLostWakeup | sim/SimConvergenceLayer.cc:253-299 | over every run each timer is pending exactly when its queue is not empty, set for its front, and no timer handler finds its queue empty |
| SimLinkRuns.StallsOnlyOnContactUp | sim/SimConvergenceLayer.cc:463-514 | an open link with work stops working if and only if the contact comes up on an idle link with something queued |
| SimLinkRuns.StallHappens | sim/SimConvergenceLayer.cc:463-514 | a concrete run that does so |
| SimLinkRuns.LostContactFails | sim/SimConvergenceLayer.cc:160-169 | a concrete run after which both failing assertions are one step away |
| SimLinkRuns.EffectiveTimes | sim/SimConvergenceLayer.cc:221-394 | the k-th arrival happens exactly when the latencies of the first k + 1 bundles, counted from when each was clocked out, are over; the k-th report when twice those are, or at once on an unreliable link; for any delays and latencies |
| SimLinkRuns.WhatStarts | sim/SimConvergenceLayer.cc:160-249 | over every run the bundles started are exactly those at the front when an open link is idle, opens or has clocked one out, each clocked out its own start's delay later and travelling with its own start's latency |
| SimLinkRuns.AckNeverPrecedesArrival | sim/SimConvergenceLayer.cc:221-394 | report, arrival and departure of each bundle come in that order, on a reliable link |
| SimLinkRuns.SortedIfLatencyConstant | sim/SimConvergenceLayer.cc:221-245 | with one latency both queues are sorted by time |
| SimLink.SimLink.StartNextBundle | sim/SimConvergenceLayer.cc:160-249 | in place: loads slot and both queues from the link queue's front and sets the timers |
| SimLink.SimLink.RescheduleTimers | sim/SimConvergenceLayer.cc:253-273 | in place: sets exactly the timers that are not pending and have something to wait for |
| SimLink.SimLink.HandlePendingInflight | sim/SimConvergenceLayer.cc:296-320 | in place: as the step of the model |
| SimLink.SimLink.HandleArrivalEvents | sim/SimConvergenceLayer.cc:323-358 | in place: the draining loop reports exactly the due prefix |
| SimLink.SimLink.HandleTransmittedEvents | sim/SimConvergenceLayer.cc:361-394 | in place: the draining loop reports exactly the due prefix |
| SimLink.SimLink.BundleQueued | sim/SimConvergenceLayer.cc:498-514 | in place: an open idle link starts at once, any other only queues |
| SimLink.SimLink.OpenContact | sim/SimConvergenceLayer.cc:462-496 | in place: as the step of the model |
| SimLink.SimLink.ContactUp | servlib/bundling/BundleDaemon.cc:2118-2144 | in place: only this makes the link open |
| SimLink.SimLink.CloseContact | servlib/contacts/Link.cc:491-512 | in place: contact and open state go, slot, queues and timers stay |
| SimLink.SimLink.Perform | sim/SimConvergenceLayer.cc:160-514 | in place: whatever happens to the link, the object takes that step of the model |
| Simulator.TimeOrder | sim/Simulator.cc:150-194 | over every run with timely events, time never decreases and events leave in order of time |
| Simulator.ClockMovesToSoonest | sim/Simulator.cc:153-184 | a turn moves the clock to the soonest due timer or event, if and only if there is a timer or an event not beyond INT_MAX |
| Simulator.ClockSetBack | sim/Simulator.cc:153-184 | exactly when a turn sets the clock back |
| Simulator.StuckBeyondLimit | sim/Simulator.cc:154-172 | with only events beyond INT_MAX left, the loop repeats one state for ever |
| Simulator.NullEventAssert | sim/Simulator.cc:165-175 | in one turn: the null-event assertion fails exactly when only a timer is left and it is due at INT_MAX or later |
| Simulator.NeverAsserts | sim/Simulator.cc:130-206 | over every run of the loop with events posted in time and timers due below INT_MAX, however it ends: no assertion fails, the clock never passes INT_MAX and every turn moves it to the soonest thing due |
| Simulator.TurnMeaning | sim/Simulator.cc:150-185 | what a turn leaves of queue, clock, handled and cancelled events, in full: a cancelled event is taken but neither it nor what its handler would do happens |
| Simulator.EventLedger | sim/Simulator.cc:50-55 | over every run each event posted is queued or was popped, once, and a popped one ran unless cancelled |
| Simulator.CancelledNeverHandled | sim/SimEvent.h:64-74 | over every run a cancelled event is never handled afterwards |
| Simulator.CancelHolds | sim/SimEvent.h:64-74 | what the nodes cancel in a turn is not handled in that turn or any later one |
| Simulator.Simulator.OneTurn | sim/Simulator.cc:150-185 | in place: one turn, whichever of several earliest events the queue has on top |
| Simulator.Simulator.Run | sim/Simulator.cc:130-206 | in place: the loop makes a run, and ends at exactly the exits of the source; the first time past the limit is the last |
| NodeEvents.Network.ProcessOneBundleEvent | sim/Node.cc:148-165 | handles the oldest event of the node, as the active node; false exactly on an empty queue |
| NodeEvents.Network.RunOneEventNow | sim/Node.cc:168-180 | handles the event as the given node and restores the active one, however calls nest |
| NodeEvents.Network.PostEvent | sim/Node.cc:137-145 | appends to one queue and keeps handled events plus queue equal to events posted, per node |
| NodeEvents.Network.RunNodeEvents | sim/Simulator.cc:65-104 | the network ends as that many passes leave it, the last being the first in which every queue was empty on its turn; each node handled its events in posting order; the result is the least timer result of that pass or -1 |
| NodeEvents.Network.Pass | sim/Simulator.cc:70-101 | one pass, with what its timers and handlers do taken from their actions, the soonest timer result and whether every queue was empty on its turn |
| NodeEvents.PostsOnly | sim/Node.cc:137-145 | actions that run nothing at once post exactly what they say, and use up no later handler's |
| NodeEvents.PassFacts | sim/Simulator.cc:70-101 | what a part of a pass leaves in every queue, from what was posted at each visit |
| NodeEvents.TimersInOrder | sim/Simulator.cc:70-101 | each visit runs the expired timers once, in order, and the results of a pass are what they returned |
| NodeEvents.PassEnds | sim/Simulator.cc:70-101 | a pass is a last one, or it used up timers or events or emptied the queues |
| NodeEvents.QuiescentIff | sim/Simulator.cc:70-101 | all queues are empty at the end if and only if no timer of the last pass posted to a node already visited |
| NodeEvents.LeaveBehind | sim/Simulator.cc:65-104 | a real call on a network of two nodes that returns with an event queued |
| NodeEvents.EmptyOnTurnMeaning | sim/Simulator.cc:74-100 | in a last pass a node's queue was empty when the pass began and nothing was posted to it up to its turn |
| FlowModel.MoveConserves | emulab/theory.py:163-182 | a pass keeps amounts non-negative and their sum, and end to end never leaves data in between |
| FlowModel.WhatMovesByHops | emulab/theory.py:148-182 | hop by hop, a pass carries over each link nothing if it is closed, and otherwise what the node before it has by then or what the interval carries, whichever is less |
| FlowModel.WhatMovesEndToEnd | emulab/theory.py:148-182 | end to end, a sender keeps what it has if any link ahead of it is closed, and otherwise passes on what it has or what the interval carries, whichever is less |
| FlowModel.PassOfInterval | emulab/theory.py:163-182 | the pass of an interval is the one in which each sender may move bandwidth times interval |
| FlowModel.ClosedLinkCarriesNothing | emulab/theory.py:148-182 | in both hop modes a pass leaves the sum of the amounts before a closed link unchanged |
| FlowModel.TurnMoves | emulab/theory.py:202-218 | a turn that does not complete moves just what one pass of the time until its event moves, although it may pass twice |
| FlowModel.DoneIffDelivered | emulab/theory.py:184-187 | a pass ends the script if and only if it brings the last of the data |
| FlowModel.CompletionTimeSuffices | emulab/theory.py:163-200 | with all links open, moving data for the estimated completion time delivers everything in one pass, in both hop modes |
| FlowModel.PrintedTime | emulab/theory.py:163-218 | in every good state, any links and both hop modes: a turn that completes does so within the completion time and before or at the event; the time it prints is the true one before the event and counts the interval twice at it |
| FlowModel.AllOpenTurn | emulab/theory.py:202-218 | with all links open a turn completes if and only if time passes and the data left fits |
| FlowModel.SingleNodeNeverCompletes | emulab/theory.py:163-195 | a chain of one node never completes |
| FlowModel.LinkEventKeeps | emulab/theory.py:79-91 | running a link event keeps exactly one event per intermittent link, closing if and only if the link is open |
| FlowModel.StaysOnSchedule | emulab/theory.py:79-91 | running a link event keeps every queued event a whole number of periods, or that and the uptime or downtime, after an event of the same link that was queued at the start |
| FlowModel.TurnKeeps | emulab/theory.py:202-218 | every turn keeps conservation and the link events, passes no time beyond 1800 and brings the end nearer |
| FlowModel.ZeroPeriodsSpin | emulab/theory.py:79-91 | with both periods zero, two turns of an event that is due change nothing |
| FlowModel.FirstEventsScheduled | emulab/theory.py:114-139 | every initial schedule has one event per link agreeing with the link's state; which links start open, when those close and when the others open |
| FlowModel.Flow.Move | emulab/theory.py:163-187 | in place: the loop is the pass of the model, including its early end |
| FlowModel.Flow.OneTurn | emulab/theory.py:202-218 | in place: one turn, whichever of several earliest events the heap gives |
| FlowModel.Flow.Run | emulab/theory.py:202-218 | the main loop ends by time 1800, with everything delivered, or at 1800 with data missing, or with an index error exactly on a chain of one node whose schedule names link 1; every link keeps to its schedule |
| FlowModel.StrayedTurn | emulab/theory.py:79-91 | on such a chain the first event ends the script: the end of the simulation, or the error |
| FlowModel.Start | emulab/theory.py:106-142 | an accepted schedule starts with exactly its events, in a good state unless it names a link that is not there; undefined ones and a shift over more than six nodes are refused |
| Connectivity.KeyInjective | sim/Connectivity.cc:152 | table keys of two pairs agree only if the pairs do, for names without commas |
| Connectivity.PairsAreMatches | sim/Connectivity.cc:125-150 | the recursion reaches exactly the matching ordered pairs, of distinct nodes when a wildcard is used |
| Connectivity.SetStateIsPointwise | sim/Connectivity.cc:119-175 | lookup gives the new state at exactly the matching pairs and the old one elsewhere |
| Connectivity.RateOfEveryLink | sim/SimConvergenceLayer.cc:530-542 | the rate changes on all links of the first node of a matched pair, whatever their peers, and on no others |
| Connectivity.RequestedIff | sim/SimConvergenceLayer.cc:541-552 | a close is requested for exactly the open links along matched pairs, when closing |
| Connectivity.AssertionsHoldIff | sim/Connectivity.cc:160-162 | no assertion fails if and only if nothing matches or every name given is a node's |
| Connectivity.Connectivity.SetState | sim/Connectivity.cc:118-163 | in place: the recursion ends and updates table and links for exactly those pairs, in order |
| Connectivity.Connectivity.UpdateConnectivity | sim/SimConvergenceLayer.cc:517-554 | in place: the loop over the links of the first node, which is left active |
| Connectivity.Connectivity.LookupState | sim/Connectivity.cc:165-175 | the state stored for the pair, or none |

## Left out

- ApiSession.Session.ReadRequests: the requests sent are taken to fit the buffer, as the source checks no length; a header that arrives in two reads ends the session, as in the source.
- ApiServer.Server.Run: each handler is one atomic step; what other sessions, the daemon and timers do happens between turns. The list of sessions a client subscribes to is not modelled.
- Registrations.RunExclusive: the removal events' way through the daemon's queue is not modelled, removal is one step; the console command that deletes a registration whatever its state is left out.
- DtnIpc.Handle.Recv: the descriptor table, sockets and the environment variables that choose the address are not modelled; a handle's kernel is two scripts of results.
- ClientView.WholeRun: all the reads of one body are one event of the run; a call in which the connection is lost is not matched with a run.
- PollRuns.StreamsStayFramed: counters are unbounded; the originals wrap at the width of their type.
- BlockPacking.Count: lengths are unbounded; the original adds 32-bit lengths. Descriptors and data are two arrays here and one allocation there.
- SimLinkRuns.EffectiveTimes: time is real arithmetic and a timer fires when it is set for; rounding to milliseconds is not modelled.
- SimLinkRuns.ExactlyOnceInOrder: the link's queue is only appended to by others; a router that takes a bundle back off the queue is not modelled.
- SimLink.SimLink.StartNextBundle: the token bucket is a non-negative delay, bundle contents and the peer's copy of a bundle are not modelled.
- NodeEvents.Network.RunNodeEvents: handlers and timers act by posting and by running events at once, from lists that may be of any length but end.
- Simulator.TimeOrder: events are posted no earlier than the present and no later than INT_MAX; without that `ClockSetBack` says what happens. Interrupts and the console are not modelled.
- FlowModel.Flow.Run: amounts and times between events are reals, not floats; there is at least one node, and periods are not negative and not both zero.
- RecvReply.DeliveredIff: the payload is taken as `handle_recv` leaves it, in bounds; where the undelivered bundle goes (the list of acknowledged or of unacknowledged bundles) is not modelled.
- PollHistory.Delivered: an encoder that fails leaves any shorter prefix of the arguments, where the library stops at the end of an item.
- DtnTypes.SpecRoundTrip: enumerations are any signed words, as the source checks none; as in the C library, a boolean decodes from any word, with zero as false.
- `dtn_peek`'s delivery law: the daemon removes the bundle although the header says it stays.
- Payload files, temporary files, permissions and freeing of memory.
- Bundle parsing and production, bundle forwarding, routers and SDNV: none of the modelled parts depends on them.
- The SWIG bindings, `apps/dnd.py`, command parsing, option parsing, startup and logging.
- Race conditions between threads inside one handler: handlers are atomic.
