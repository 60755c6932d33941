# ZortilWatch: verified model

A Dafny model of the stateful core of ZortilWatch, a self-hosted remote-access system: the rendezvous registry and its
sockets, the session handshake, the host loop, the encrypted media and file path, resumable transfers, and three
arithmetic kernels. `dafny verify dfyconfig.toml` checks everything.

Parts that the sources write as objects or loops (registry, socket handlers, chunker, reassembler, sealer, queue, upload
receiver, download pump, host loop, governor, rate limiter, base32, wake) are classes and methods here, each proved
against a specification function or predicate; the lemmas then say what holds of those specifications over every run.
Lossy channels, socket interleavings, the two ends of the handshake, the media pipeline, the session with the handshake
on the same channel, and the upload window are state machines over their steps; the session refines the pipeline.

| module | what it models | main results |
|---|---|---|
| `Registry`, `RegistryEffects`, `RegistryInvariant`, `RegistryLifecycle`, `RegistryNotices` | presence slots, sessions, messages and audit hooks | all that each operation does to tables and messages, index agreement, when a member can close, inbound quota, session lifecycle, who is told what, answers in turn, relay confinement and delivery |
| `Sockets` | the WebSocket handlers, cut at each `await` | one slot per socket under every interleaving; late closes of replaced sockets change nothing; exactly when a closed socket holds a slot |
| `Wake` | counting wake helpers and dispatching to them | the address book says "ready" exactly when a dispatch succeeds |
| `Handshake` | PAKE, fingerprint binding, two FIFO channels | one side under any messages: confirmed by exactly one share and its own tag; both sides: confluence; injectivity of the binding input |
| `HostLog`, `HostLoop` | the rules of the host server's event log, and the server itself in an arbitrary environment | one answer per request, turned down or given up only for cause, under which password, one session at a time, approval before accepting, which session is served |
| `Packets`, `Media` | cutting frames into chunks and joining them | exact survivors under any loss, exact size limit |
| `Crypto`, `Pipeline` | sealing, queue, channel, deferred buffer, opening | the pipeline refines a FIFO; the end marker is no chunk |
| `Session`, `SessionProgress` | the handshake's batch loop and either direction's messages on one channel | nothing is lost at confirmation; every run is a run of the pipeline, under one key; and if the tags agree everything sealed gets through |
| `Uplink` | the controller's messages, sealed whole, on the same channel the other way | this direction is a FIFO too |
| `Files`, `Upload` | file frames, the resumable upload receiver, the sender's window | exactly what any delivery leaves of any file, termination without deadlock from the offset the host announces |
| `Download` | the download pump, the queue it shares, and the local appender | exactly what arrives of any file, from any state of the host to the far end of any session; queue bound |
| `Governor` | the bitrate governor | bounds, and convergence within exactly 13 and 20 ticks |
| `RateLimiter` | the fixed-window limiter with its sweep | the sweep is invisible, exact bound, denial, exact retry time |
| `Base32` | encoding and decoding on an unmasked 32-bit accumulator | round trip, exactly which characters and cases matter |

`Base` and `Bytes` hold shared vocabulary and big-endian integers.

## What the model takes for granted

- Session ids are fresh over the whole history of the registry, as random UUIDs are.
- The cipher under one stream key is a pair of functions of which only `dec(n, enc(n, p)) = p` and the 16-byte tag are
  assumed (`Crypto.Correct`). PAKE, key derivation and HMAC are free constructors in `Handshake`.
- JSON control messages with u32 ids and u64 sizes have an invertible serialisation that starts with `{` and fits one
  chunk (`Download.Faithful`). `Download.AssumptionsCanBeMet` exhibits a cipher and a serialisation of the kinds assumed.
- `Session` tells handshake messages from chunks by constructor, as parsing them as JSON does in the source, and lets the
  controller's transport hand over only what was read from the network before, as `drain` and `recv_one` do
  (`core/src/connection.rs:106-205`). It begins with both first messages sent; a side that starts later is one that takes
  its messages later.
- In `HostLoop` the server puts each session id to the host once on a socket, and the ids accepted there are distinct.
- A newly generated one-time code differs from all earlier ones, as a random draw does (`core/src/password.rs:14-21`).
- The order in which a JavaScript `Map` or `Set`, or a Rust `HashMap`, is gone through is left open: proofs hold for any.
- The slots, a two-level table in the source, are one map keyed by (id, role).
- In `HostLoop` the environment answers as it likes for a budget of any size, after which the flags read as set and the
  socket fails; every finite part of a run is part of such a run.

## Where a stated property is not what the code does

- A frame of more than 65535 chunks announces a truncated count and comes out corrupt. `Packets.FrameRoundTripIff` gives
  the exact condition; the stream theorems assume that each frame fits.
- Nonces repeat after 2^64 messages (`Crypto.NonceReuseIff`). The counter is modelled as wrapping; a debug build of the
  source stops there instead.
- With NUL inside a fingerprint two different pairs share one binding input (`Handshake.NulConfuses`); without NUL the
  input determines the unordered pair (`Handshake.BindingInputIff`).
- A host's close of its own session fails while the controller's slot is missing, which takes a requester that was not
  registered when its request was granted (`RegistryInvariant.MemberCanClose` has the condition,
  `RegistryInvariant.HostCloseCanFail` a run).
- The quota bounds inbound sessions. A host slot's own set may exceed it by acting as a controller, which makes the host
  look busy without any inbound session (`RegistryInvariant.OwnSetCanExceedQuota`).
- A registration that completes after its socket's close leaves the slot to a socket that is gone, until somebody else
  registers for it; that is exactly when a closed socket holds a slot (`Sockets.ClosedHolderIff`,
  `Sockets.LateRegistrationLingers`).
- The host takes any `connect_ready` for the answer to its last accept (`core/src/connection.rs:910-915`). The server
  answers accepts in turn and leaves out those whose session is gone (`RegistryNotices.AnswersFollowAccepts`). So the
  session served is always one accepted on this socket, and it is the one just accepted if and only if no earlier
  accept's answer was still to be read (`HostLog.ServedIffAllRead`). `HostLog.StaleAnswerIsServed` is a log in which one
  was, `HostLog.GoneSessionIsSkipped` one in which an earlier accept is never answered.
- A character can be put anywhere in base32 text without ever changing the bytes it decodes to if and only if it is none
  of these: a letter or digit of the alphabet in either case, and 17 characters beyond ASCII, such as U+00DF, whose upper
  case contains ASCII letters (`Base32.InsertionIgnored`). Those change the symbols wherever they are put
  (`Base32.InsertionKeepsSymbols`), and the bytes in some texts (`Base32.CountingMatters`).
- Transfers resume from the length of the old file without looking into it. A finished upload or download leaves the old
  file with the other side's bytes beyond its length, which is the right file if and only if the old one was a prefix of
  it (`Upload.UploadExact`, `Download.DownloadExact`). An edited file that has not grown is reported as uploaded at once
  with its old content (`Upload.EditedFileIsReportedDone`); a download onto another file ends as a mixture that is
  reported successful (`Download.ChangedFileIsMixed`).
- A one-time code is not replaced when the signalling socket fails during its session (`core/src/connection.rs:823`). A
  later accept uses the code of an ended session again if and only if no code was generated in between, and then the
  socket had broken (`HostLog.CodeReusedIff`); `HostLog.CodeSurvivesBrokenSocket` is such a log.
- The limiter admits strictly fewer than twice its limit in an interval shorter than one window, and twice its limit at
  most in one of exactly that length; both bounds are reached (`RateLimiter.BelowTwiceTheLimit`,
  `RateLimiter.BoundIsReached`, `RateLimiter.AtMostTwiceTheLimit`, `RateLimiter.TwiceIsReached`).

## Model

| member | source | states |
|---|---|---|
| `Registry.Registry.constructor` | server/src/signaling/registry.ts:75-81 | an empty registry whose inbound limit defaults to 4 |
| `Registry.Registry.GoOnline` | server/src/signaling/registry.ts:88-111 | a slot is taken over with its sessions; a different old connection is closed |
| `Registry.Registry.GoOffline` | server/src/signaling/registry.ts:188-198 | unless another connection holds the slot, the slot goes first and then every session of its snapshot, in any order, is torn down |
| `Registry.Registry.TearDown` | server/src/signaling/registry.ts:333-357 | the session leaves the table, the end hook fires if it was ready, each side forgets it and the one that did not ask is told |
| `Registry.Registry.DismissSide` | server/src/signaling/registry.ts:349-356 | one side of a torn-down session |
| `Registry.Registry.RequestConnect` | server/src/signaling/registry.ts:215-245 | unavailable host, busy host, or a pending session entered on both sides (a caller without a slot is tolerated) and announced to the host |
| `Registry.Registry.AcceptConnect` | server/src/signaling/registry.ts:248-273 | only the host of a pending session makes it ready; the hook and both roles' messages follow |
| `Registry.Registry.RejectConnect` | server/src/signaling/registry.ts:276-291 | only the host; the controller hears "forbidden" and the session is torn down, pending or ready |
| `Registry.Registry.PeerSlotOf` | server/src/signaling/registry.ts:323-331 | the other side's slot for a member, nothing for anyone else or when that slot is missing |
| `Registry.Registry.RelaySignal` | server/src/signaling/registry.ts:294-307 | a member's signal goes unchanged to the peer's slot; otherwise nothing happens |
| `Registry.Registry.CloseSession` | server/src/signaling/registry.ts:309-319 | a member whose peer's slot exists tears the session down; otherwise nothing happens |
| `RegistryEffects.OnlineDoes` | server/src/signaling/registry.ts:88-111 | registering gives the slot its new connection, time and data, keeps its sessions, closes a different old connection, and does nothing else |
| `RegistryEffects.RequestDoes` | server/src/signaling/registry.ts:215-245 | when a request is refused and why; a granted one enters a pending session on both sides and asks the host, with the kind of password as given |
| `RegistryEffects.AcceptDoes` | server/src/signaling/registry.ts:248-273 | an accept succeeds exactly for the host of a pending session; then it is ready, and the hook and the two role messages, to the sides that are registered, are all that is sent |
| `RegistryEffects.RejectDoes` | server/src/signaling/registry.ts:276-291 | a rejection succeeds exactly for the host; then the controller hears "forbidden" and the session is gone from the table and both sets |
| `RegistryEffects.RelayDoes` | server/src/signaling/registry.ts:294-307 | a signal from one side of a live session is sent unchanged and once to the other side if that is registered, and succeeds exactly then; from anybody else it does nothing |
| `RegistryEffects.RelayDelivers` | server/src/signaling/registry.ts:294-307 | in every run a signal relayed by a side of a live session whose other side is registered delivers exactly one message, to that side |
| `RegistryEffects.TeardownDoes` | server/src/signaling/registry.ts:333-357 | a teardown takes the session out of the table and both sets; the removal, the end hook if it was ready, and the word to each registered side but the one that asked are all that is sent |
| `RegistryEffects.CloseDoes` | server/src/signaling/registry.ts:309-319 | a close succeeds exactly for a side whose other side is registered, and then tears the session down with the given reason or "closed" |
| `RegistryEffects.CloseEnds` | server/src/signaling/registry.ts:309-357 | in every reachable state after a successful close the session is in no table and no set, everything else is as it was, the end hook fired once iff it was ready, and the other side got one closing message |
| `RegistryEffects.CommandDoes` | server/src/ws/signaling.ts:153-184 | a message about a session becomes the accept, reject, relay or close of the device and role the socket registered as; a socket that did not register changes nothing |
| `RegistryEffects.RequestedDoes` | server/src/ws/signaling.ts:147-150 | a request is made for the device and role the socket registered as |
| `RegistryEffects.SignalArrives` | server/src/ws/signaling.ts:159-161 | a signal sent by the socket of one side of a live session arrives once at the connection that holds the other side, and nothing else changes |
| `RegistryInvariant.StepKeeps` | server/src/signaling/registry.ts:88-357 | every operation keeps index agreement: ids in a slot's set name live sessions with that side, and live sessions are held by their host's slot and, if requesters were registered, by the controller's |
| `RegistryInvariant.OfflineKeeps` | server/src/signaling/registry.ts:188-198 | agreement survives tearing down from a snapshot after the slot is already gone |
| `RegistryInvariant.RequestKeeps` | server/src/signaling/registry.ts:215-245 | agreement survives a request, in the weak form for any caller and in the strong form for a registered one |
| `RegistryInvariant.RunAgrees` | server/src/signaling/registry.ts:66-358 | index agreement in every reachable state |
| `RegistryInvariant.MemberCanClose` | server/src/signaling/registry.ts:309-331 | in every reachable state a member's close succeeds exactly when it is the controller's or the controller's slot exists; always, if requesters were registered |
| `RegistryInvariant.HostCloseCanFail` | server/src/signaling/registry.ts:234 | a run with an unregistered requester in which the host's close fails |
| `RegistryInvariant.InboundQuota` | server/src/signaling/registry.ts:221-234 | in every reachable state no device hosts more than `maxInbound` live sessions |
| `RegistryInvariant.OwnSetCanExceedQuota` | server/src/signaling/registry.ts:223-234 | a run in which a host slot's own set exceeds the limit through sessions it requested |
| `RegistryLifecycle.LifeInGoodOrder` | server/src/signaling/registry.ts:226-357 | in every reachable state every id's events form a word of the lifecycle automaton and its phase matches the session table |
| `RegistryLifecycle.Lifecycle` | server/src/signaling/registry.ts:226-357 | one request per id, at most one `connect_ready` per role and one close per side, start hook once iff it became ready, end hook once iff started and over; started but not ended are exactly the ready sessions |
| `RegistryLifecycle.SilentAfterRemoval` | server/src/signaling/registry.ts:333-357 | in every run, after a teardown only the end hook and closing messages mention the session |
| `RegistryLifecycle.SignalsAreConfined` | server/src/signaling/registry.ts:294-331 | every signal ever delivered is what the other member of that session sent in the operation that delivered it, and returns to its sender only if both sides are one slot |
| `RegistryNotices.TeardownTells` | server/src/signaling/registry.ts:333-357 | exactly which notices a teardown causes, counted: the end hook iff ready, the other side once iff registered, nothing else |
| `RegistryNotices.AcceptTells` | server/src/signaling/registry.ts:248-273 | exactly which notices an accept causes: one start hook, one role message per registered side |
| `RegistryNotices.OfflineTells` | server/src/signaling/registry.ts:188-198 | going offline ends exactly the sessions of the slot, keeps all others, and tells every registered peer once; in the strong form no session with that side is left |
| `RegistryNotices.AnswersFollowAccepts` | server/src/signaling/registry.ts:248-273 | in every run, what a side that requests nothing itself is sent as `connect_ready` is a subsequence, in order, of what it accepted |
| `Sockets.SocketHandler.Registered` | server/src/ws/signaling.ts:89-97 | a completed registration releases the socket's earlier identity and then takes the new slot |
| `Sockets.SocketHandler.SocketClosed` | server/src/ws/signaling.ts:187-189 | a close releases the socket's identity only if the socket still holds it |
| `Sockets.SocketHandler.Requested` | server/src/ws/signaling.ts:107-151 | a request that passed the limiter and the lists is made in the socket's identity, and refused without one |
| `Sockets.SocketHandler.Commanded` | server/src/ws/signaling.ts:107-184 | an accept, reject, signal or close is carried out in the socket's identity, and refused without one |
| `Sockets.PerformOwned` | server/src/ws/signaling.ts:68-189 | every handler step keeps: a slot is held by a socket whose own identity names it |
| `Sockets.OneSlotPerSocket` | server/src/ws/signaling.ts:54-55 | under any interleaving a connection holds at most one slot, the one its own identity names |
| `Sockets.PerformHolders` | server/src/ws/signaling.ts:68-189 | each handler step changes who holds which slot as registering and closing say, and in no other way |
| `Sockets.HoldersOfRun` | server/src/ws/signaling.ts:68-189 | in every run who holds which slot is decided by the completed registrations and closes alone |
| `Sockets.ReplacedHoldsNothing` | server/src/signaling/registry.ts:95-111 | a connection whose slot was taken over holds none until it registers again |
| `Sockets.LateCloseIsHarmless` | server/src/ws/signaling.ts:187-189 | in every run, the close of a socket whose slot was taken over at any earlier point, and which has not registered since, changes nothing in the registry |
| `Sockets.SocketsAgree` | server/src/ws/signaling.ts:59-189 | index agreement in every state reachable through the socket handlers |
| `Sockets.ClosedHolderIff` | server/src/ws/signaling.ts:73-97 | in every run a closed socket holds a slot exactly when it registered for it after its close and neither it nor the slot was registered since |
| `Sockets.LateRegistrationLingers` | server/src/ws/signaling.ts:73-97 | a run in which a registration completes after the close and keeps the slot, for any role and device |
| `Wake.HelpersOnNetwork` | server/src/signaling/registry.ts:124-139 | counts the other devices with a helper slot in the network and account |
| `Wake.DispatchWake` | server/src/signaling/registry.ts:147-168 | one packet to each helper device at its host slot if that qualifies, else its controller slot, and none elsewhere; the count and status say so |
| `Wake.BookStatus` | server/src/http/routes.ts:144-148 | unsupported, ready or no helper, by the helper count |
| `Wake.BookThenDispatch` | server/src/http/routes.ts:144-148 | in one state the book says "ready" exactly when a dispatch succeeds, with the same number of helpers; one packet goes to every other device with a slot that can wake in the target's known network and account, at a qualifying slot, the host role first; the target and all others get none |
| `Wake.HelperIff` | server/src/signaling/registry.ts:115-139 | a device is a helper exactly if it is another one with a registered slot that can wake, in the target's network and account, both known |
| `Handshake.Handshake.OnMessage` | core/src/session.rs:83-112 | the state is replaced as the protocol says; any message out of turn fails it for good |
| `Handshake.Handshake.ConfirmedKey` | core/src/session.rs:115-120 | a key exactly when confirmed |
| `Handshake.SideIsStrict` | core/src/session.rs:83-112 | whatever messages a side is sent, its state and its replies: only one well-formed share and then its own tag confirm it, and anything else fails it |
| `Handshake.ConfirmedIff` | core/src/session.rs:83-112 | a side is confirmed with a key if and only if it got exactly one share and the tag of that key over the fingerprints it saw, in this order |
| `Handshake.FailedForGood` | core/src/session.rs:107-109 | a side that has failed, or is confirmed and gets another message, has failed whatever follows |
| `Handshake.TagsCannotBeRelayed` | core/src/session.rs:95-106 | a side confirmed by a tag that some side made used the same password and saw the same pair of fingerprints |
| `Handshake.CtEq` | core/src/session.rs:39-44 | the folded comparison of bytes is equality |
| `Handshake.BindingSymmetric` | core/src/crypto.rs:79-92 | both sides compute the same binding input whatever their role |
| `Handshake.BindingInputIff` | core/src/crypto.rs:79-92 | for NUL-free fingerprints the binding input determines exactly the unordered pair |
| `Handshake.NulConfuses` | core/src/crypto.rs:88-90 | two different pairs with NUL inside that share one input |
| `Handshake.RunMeets` | core/src/session.rs:83-112 | every schedule of deliveries over the two channels leads to the one state its counts determine |
| `Handshake.FourDeliveries` | core/src/session.rs:83-112 | a schedule can be continued exactly until it has four deliveries |
| `Handshake.Confluence` | core/src/session.rs:83-112 | after four deliveries both are confirmed with one key if passwords and unordered fingerprint pairs agree, and both have failed otherwise |
| `HostLoop.Serve` | core/src/connection.rs:725-827 | whatever the environment does, the log breaks no rule of the monitor, no session is left being served, and at most one request is unanswered |
| `HostLoop.ServeSocket` | core/src/connection.rs:736-826 | the same for one signalling socket, until it fails or stop is set |
| `HostLoop.Take` | core/src/connection.rs:754-770 | the pending request is taken first, else what the socket delivers |
| `HostLoop.Handle` | core/src/connection.rs:771-824 | one request is answered: refused for want of a permanent password exactly when it needs one and there is none, else accepted under its password or denied; after a one-time session a new code is made; a tail request is handed on |
| `HostLoop.Admit` | core/src/connection.rs:776-812 | a request is let through with its consent, refused for want of a permanent password, or denied |
| `HostLoop.Consent` | core/src/connection.rs:791-812 | in attended mode a new question is asked and only its approval lets the request through |
| `HostLoop.WaitDecision` | core/src/connection.rs:854-880 | allowed only by a `true` decision under the given id; denied only after a `false` one, the deadline or a stop; other requests are answered "busy" |
| `HostLoop.ServeSession` | core/src/connection.rs:894-996 | the request in hand, with the confirm switch read, its approval given and its own password, is accepted, and a session under the id of the first `connect_ready` seen to its end, or given up for cause; a request that came at the end is returned |
| `HostLoop.AwaitReady` | core/src/connection.rs:904-929 | takes the id of the first `connect_ready` read, whatever it is, or fails for a stop, the deadline or the socket; other requests are answered "busy" |
| `HostLoop.Establish` | core/src/connection.rs:1000-1087 | every step from the offer to the confirmation of the key succeeds, or a step, the deadline or the socket fails; other requests are answered "busy" |
| `HostLoop.Pulse` | core/src/connection.rs:947-984 | during the session other requests are "busy"; one that comes after it is over is kept; it ends only when the session is over, on a stop or with the socket |
| `HostLoop.DrainDecisions` | core/src/connection.rs:793 | decisions are read away until none is waiting, and approve nothing |
| `HostLog.AnsweredOnce` | core/src/connection.rs:756-826 | every request read has exactly one answer, except the one in hand and those lost with a broken socket |
| `HostLog.BusyHasCause` | core/src/connection.rs:866-975 | "busy" is said only while another request is in hand or after an accept whose session has not been seen to be over |
| `HostLog.AcceptWasApproved` | core/src/connection.rs:790-813 | before every accept the confirm switch was read for that request, and if it was on, a `true` decision came with the id minted for it, with no question in between and no `false`, deadline or stop since it was asked |
| `HostLog.DeniedForCause` | core/src/connection.rs:854-864 | a request is denied only after a question about it, with no `true` under its id since, and a `false`, the deadline or a stop since |
| `HostLog.AskedWhenDrained` | core/src/connection.rs:793 | a question is asked only when the last look for waiting decisions found none |
| `HostLog.AcceptedPassword` | core/src/connection.rs:771-789 | every accept of a request that asks for the one-time code is under the code generated last before it, and every other accept under no one-time code |
| `HostLog.EndedPassword` | core/src/connection.rs:813-820 | a session ends as that of the last accept, with the code it was accepted under |
| `HostLog.RotationPrecedesAccept` | core/src/connection.rs:750-753 | once a new code is asked for, one is generated before the next accept |
| `HostLog.NewCodeHasCause` | core/src/connection.rs:750-820 | after the first, a code is generated only if it was asked for or a session under the last one ended with the socket intact |
| `HostLog.ReadOnce` | core/src/connection.rs:756-762 | no two requests read are confused |
| `HostLog.GivenUpForCause` | core/src/connection.rs:904-1087 | an accepted session is given up only after a stop, a deadline or a failed step since its accept |
| `HostLog.StartedInTime` | core/src/connection.rs:904-946 | a session starts only after every step of setting it up has succeeded since the last accept, the confirmed key included, with no stop, deadline or failed step in between |
| `HostLog.AcceptIsFollowed` | core/src/connection.rs:813-824 | before the next accept, or the next socket, an accepted session has started, unless there was a stop, a deadline, a failed step or a broken socket |
| `HostLog.EndedForCause` | core/src/connection.rs:947-986 | a started session is joined only after it was seen to be over, or a stop, or a broken socket |
| `HostLog.ServedIffAllRead` | core/src/connection.rs:905-931 | when the server answers accepts in turn, leaving out what it likes, the session served is one accepted on this socket, and it is the one just accepted if and only if no earlier answer was still to be read |
| `HostLog.StaleAnswerIsServed` | core/src/connection.rs:907-915 | a log from the start of the loop in which the late answer to an accept that was given up is served as the next session |
| `HostLog.GoneSessionIsSkipped` | server/src/ws/signaling.ts:153-155 | a log in which an accept is never answered because its session is gone, and the next session is served |
| `HostLog.MintedOnce` | core/src/connection.rs:792 | question ids are unique |
| `HostLog.SessionsDoNotOverlap` | core/src/connection.rs:938-986 | between the starts of two sessions the first has ended |
| `HostLog.CodesAreNotReused` | core/src/connection.rs:814-820 | a one-time code under which a session ended with the socket intact is in no later accept |
| `HostLog.CodeReusedIff` | core/src/connection.rs:814-823 | a later accept uses the code of an ended session again if and only if no code was generated in between, and then the socket had broken |
| `HostLog.CodeSurvivesBrokenSocket` | core/src/connection.rs:823 | a log from the start of the loop in which the socket breaks during a session and its code serves the next |
| `Packets.PartsExact` | core/src/media.rs:32-36 | cutting loses nothing and keeps to the payload limit |
| `Packets.LossyStream` | core/src/media.rs:28-96 | for at most 2^32 frames that fit, under any loss, exactly the frames all of whose packets survive come out, in order |
| `Packets.CompleteFrame` | core/src/media.rs:69-96 | a complete frame comes out from any prior reassembler state |
| `Packets.LosslessStream` | core/src/media.rs:28-96 | without loss every frame comes out, for runs of any length and from any state |
| `Packets.OversizedFrameCorrupts` | core/src/media.rs:37 | a frame of more than 65535 packets first comes out as a proper piece of itself |
| `Packets.FrameRoundTripIff` | core/src/media.rs:28-96 | a frame survives exactly when its packet count fits 16 bits |
| `Media.WireRoundTrip` | core/src/media.rs:43-48 | the 8-byte header is read back as written |
| `Media.WireLayout` | core/src/media.rs:43-48 | which byte of a chunk is what: number, index and count big-endian, then the payload |
| `Media.Chunker.Split` | core/src/media.rs:32-36 | the pieces of a frame, one empty piece for an empty frame |
| `Media.Chunker.Cut` | core/src/media.rs:28-51 | the encoded packets under the current u32 number, which then wraps around |
| `Media.Reassembler.Push` | core/src/media.rs:69-96 | one step of the packet-level reassembler on the parsed header; `got` never overflows its u16 |
| `Media.FeedStaysSane` | core/src/media.rs:69-96 | no sequence of messages whatever drives the fields out of their widths |
| `Media.FeedWireIsFeed` | core/src/media.rs:69-96 | on encoded packets the byte-level reassembler refines the packet-level one |
| `Media.LossyBytes` | core/src/media.rs:28-96 | the lossy-stream theorem on bytes |
| `Crypto.StreamSealer.SealNext` | core/src/crypto.rs:125-137 | a message sealed under the counter opens to the plaintext; the counter advances |
| `Crypto.OpenSeal` | core/src/crypto.rs:125-162 | opening a sealed message gives the plaintext; 28 bytes are added |
| `Crypto.NonceLayout` | core/src/crypto.rs:125-131 | the first bytes of a message: four zeros and the counter, big-endian |
| `Crypto.NonceReuseIff` | core/src/crypto.rs:126-128 | two messages of a stream share a nonce exactly when they lie a multiple of 2^64 apart |
| `Pipeline.MediaQueue.Enqueue` | core/src/connection.rs:1111-1123 | sealing, cutting and queueing are the step of the host in the pipeline; what was handed over and what is queued stays the stream of the messages |
| `Pipeline.MediaQueue.Flush` | core/src/connection.rs:1297-1308 | what the channel takes and what stays queued make up the old queue, in order |
| `Pipeline.ByeIsNoChunk` | core/src/connection.rs:41 | no chunk of any frame equals the end marker |
| `Pipeline.ByeIsNoSealedMessage` | core/src/connection.rs:657 | no sealed message of the other direction equals it |
| `Pipeline.HandleIsFeed` | core/src/connection.rs:606-623 | the controller's loop over a batch is reassembly and opening of the chunks before the marker |
| `Pipeline.InvStep` | core/src/connection.rs:594-620 | every step (produce, write, marker, deliver, defer, confirm, consume) keeps every chunk in exactly one place and in order |
| `Pipeline.PipelineIsFifo` | core/src/connection.rs:1297-1308 | in every run the opened messages are a prefix of the sealed ones, and all of them when nothing is under way |
| `Pipeline.EndIsClean` | core/src/connection.rs:621-623 | the controller ends on the marker only after consuming every chunk the host wrote |
| `Session.TakenLoops` | core/src/connection.rs:364-376 | when the handshake replies in the middle of a batch and the batch goes on, the transport has nothing to hand over |
| `Session.StepRefines` | core/src/connection.rs:329-380 | every step of handshake, host, network and controller keeps the session invariant and is no, one or two steps of the pipeline |
| `Session.SessionRefines` | core/src/connection.rs:311-381 | every run of a direction of the session, handshake and messages on one channel, is a run of the plain pipeline of that direction: cut media one way, whole messages the other |
| `Session.NothingIsDropped` | core/src/connection.rs:330-344 | whenever the controller finds the handshake confirmed the inbox it leaves behind is empty |
| `Session.SessionIsFifo` | core/src/connection.rs:580-646 | in every run of the session, in either direction, the opened messages are a prefix of the sealed ones, and all of them when nothing is under way |
| `Session.SessionEndsCleanly` | core/src/connection.rs:606-623 | in either direction the receiver ends only after consuming everything the sender wrote |
| `Session.MediaUnderOneKey` | core/src/connection.rs:330-336 | in either direction the sender seals and the receiver opens only when confirmed, and both with one key |
| `Session.SessionCanCarry` | core/src/connection.rs:1111-1123 | if the binding tags agree, any messages that fit can be sealed in some run |
| `SessionProgress.StepUses` | core/src/connection.rs:311-381 | every step that moves something along brings the end nearer |
| `SessionProgress.StuckMeansDelivered` | core/src/connection.rs:311-381 | if the tags agree, a state in which nothing can move has both sides confirmed and everything sealed opened, or everything written consumed and the receiver ended |
| `SessionProgress.SessionDelivers` | core/src/connection.rs:311-381 | if the tags agree, from any state of any run only so many steps can follow without the sender's doing, in any order, and when none is left everything has arrived; in either direction |
| `Uplink.InputQueue.Enqueue` | core/src/connection.rs:626-634 | sealing and queueing keep what was handed over and what is queued equal to the sealed messages |
| `Uplink.InputQueue.Flush` | core/src/connection.rs:635-646 | what the channel takes and what stays queued make up the old queue, in order |
| `Uplink.OpenStretch` | core/src/connection.rs:1366-1373 | the host loop opens a stretch of the sealed messages to that stretch of the messages, and the marker only sets a flag |
| `Uplink.UplinkIsFifo` | core/src/connection.rs:626-646 | in every run the host has opened a prefix of what the controller sealed, and all of it when nothing is under way |
| `Uplink.UplinkEndsCleanly` | core/src/connection.rs:1367-1373 | the host loop ends on the marker only after consuming every message the controller wrote |
| `Files.FileFrameRoundTrip` | core/src/files.rs:17-34 | a frame with a u32 id and a u64 offset is read back as written |
| `Files.FileFrameLayout` | core/src/files.rs:17-24 | which byte of a frame is what: the mark, id and offset big-endian, then the data |
| `Files.ParsedIsEncoded` | core/src/files.rs:27-34 | whatever parses is the encoding of what it parses to |
| `Upload.UploadHost.Start` | core/src/connection.rs:1486-1524 | the resume offset is announced; a whole file is reported at once; a file that does not open is refused |
| `Upload.UploadHost.Receive` | core/src/connection.rs:1375-1411 | a frame is written only at the expected offset; acknowledgements at block boundaries and at the end |
| `Upload.UploadHost.Cancel` | core/src/connection.rs:1525-1528 | the entry goes, the file stays |
| `Upload.ReactGrows` | core/src/connection.rs:1375-1411 | any truthful event leaves the old part of the file alone, never shortens it, and reports completion only when the file has all of the source beyond its old length |
| `Upload.CompletionIsReported` | core/src/connection.rs:1387-1408 | a frame that ends an upload, and an announcement of a file as long as the source, are answered with completion, and no other event is |
| `Upload.ProgressIsTrue` | core/src/connection.rs:1387-1511 | what is reported is of the upload in question and of the right size, never beyond what the file holds, and done exactly at the end; an unfinished file is answered with its length, the offset of the one frame the host takes next |
| `Upload.UploadExact` | core/src/connection.rs:1374-1411 | onto any file, over any number of sessions and under loss, repetition and reordering, the file keeps what it had and grows by the source; once completion is reported it equals the source if and only if it began as a prefix of it |
| `Upload.HybridIff` | core/src/connection.rs:1495-1513 | the old file with the rest of the source behind it is the source if and only if it was a prefix |
| `Upload.EditedFileIsReportedDone` | core/src/connection.rs:1495-1511 | for any other file that is at least as long, completion is reported at once and the file is unchanged |
| `Upload.HostTakes` | core/src/connection.rs:1380-1408 | the awaited frame is taken; it is acknowledged exactly at the end or when a 524288-byte boundary is crossed |
| `Upload.FlowStep` | desktop/src-tauri/src/lib.rs:293-326 | sending, receiving and acknowledging keep the window invariant: the newest acknowledgement lies in the block of what is written |
| `Upload.NeverStuck` | desktop/src-tauri/src/lib.rs:305-308 | with nothing under way the sender lags less than one block behind and may send |
| `Upload.BeginInv` | desktop/src-tauri/src/lib.rs:267-292 | an announced upload is answered with one offset, the length of the file, and the sender that starts there is in step with the host |
| `Upload.UploadCompletes` | desktop/src-tauri/src/lib.rs:267-327 | from any resume point on top of any file, the sender that starts at the offset the host announced has only runs that end within three moves per missing byte, unacknowledged bytes stay within the window and one frame, and a run that cannot continue has delivered and acknowledged everything; the file is then the source if and only if the first one was a prefix of it |
| `Download.ClassifyRender` | desktop/src-tauri/src/lib.rs:136-163 | the controller tells file frames, reports on transfers and everything else apart |
| `Download.AssumptionsCanBeMet` | desktop/src-tauri/src/lib.rs:136-163 | a cipher and a serialisation as assumed exist |
| `Download.DownloadHost.Post` | core/src/connection.rs:1111-1123 | any message is one step of the host in the pipeline; a control message takes one chunk, a file frame at most three |
| `Download.DownloadHost.PostOther` | core/src/connection.rs:1346-1360 | other producers queue what they like between the passes of the pump; no download is affected |
| `Download.DownloadHost.PostUpload` | core/src/connection.rs:1397-1408 | a report on an upload takes one chunk; no download is affected |
| `Download.DownloadHost.Request` | core/src/connection.rs:1461-1485 | the effective offset is announced and the transfer becomes active, or the failure is reported |
| `Download.DownloadHost.Cancel` | core/src/connection.rs:1525-1528 | the transfer is dropped |
| `Download.DownloadHost.ReadOn` | core/src/connection.rs:1315-1332 | one read: the transfer goes on with more bytes sent, or ends, with all bytes sent unless the read failed |
| `Download.DownloadHost.Forward` | core/src/connection.rs:1322-1328 | the bytes read go out as one frame at their offset |
| `Download.DownloadHost.Pass` | core/src/connection.rs:1311-1343 | one pass adds one to four chunks and either advances the transfer or ends it, successfully unless a read failed |
| `Download.DownloadHost.Pump` | core/src/connection.rs:1311-1343 | over any queue, with whatever else is in it, the pump terminates, leaves at most 51 chunks if it started below 48 and does nothing otherwise, and reports every transfer it finishes |
| `Download.DownloadExact` | desktop/src-tauri/src/lib.rs:135-231 | from any state of the host and over any run of the session that carries all its messages, onto any local file: it keeps what it had and grows by the remote bytes beyond its length, has all of them once success is reported, and is then the remote file if and only if it was a prefix of it; when nothing is under way everything sent has been heard |
| `Download.AppendedIff` | desktop/src-tauri/src/lib.rs:210-217 | the local file with the remote bytes beyond its length is the remote file if and only if it was a prefix |
| `Download.ChangedFileIsMixed` | desktop/src-tauri/src/lib.rs:136-149 | messages of a successful download that leave a mixture of two files |
| `Governor.Governor.Tick` | core/src/connection.rs:1284-1294 | the rate stays between 256000 and the ceiling, moves strictly when it acts, and its u32 products do not overflow |
| `Governor.Governor.SetQuality` | core/src/connection.rs:1416-1435 | requests are clamped; a change sets the rate to the new ceiling and drops the encoder |
| `Governor.ClampKeepsRange` | core/src/connection.rs:1416-1435 | clamping keeps a value in range and gives the nearer bound for any other |
| `Governor.FloorWithin13` | core/src/connection.rs:1287-1289 | 13 congested ticks reach the floor from any rate |
| `Governor.TwelveTooFew` | core/src/connection.rs:1287-1289 | 12 do not from the top |
| `Governor.CeilingWithin20` | core/src/connection.rs:1290-1292 | 20 idle ticks reach any ceiling from any rate |
| `Governor.NineteenTooFew` | core/src/connection.rs:1290-1292 | 19 do not from the floor to the top |
| `RateLimiter.RateLimiter.CheckKey` | server/src/lib/ratelimit.ts:35-48 | the policy on the swept table, or a plain admit when disabled |
| `RateLimiter.RateLimiter.Sweep` | server/src/lib/ratelimit.ts:50-52 | exactly the entries whose window is not over are kept |
| `RateLimiter.LiveIff` | server/src/lib/ratelimit.ts:50-52 | a sweep leaves an entry as it is until its window is over, and then removes it |
| `RateLimiter.SweepIsInvisible` | server/src/lib/ratelimit.ts:35-52 | with a clock that does not go back sweeping changes no decision |
| `RateLimiter.BelowTwiceTheLimit` | server/src/lib/ratelimit.ts:39-46 | fewer than twice the limit are admitted per key in any interval shorter than a window |
| `RateLimiter.BoundIsReached` | server/src/lib/ratelimit.ts:39-46 | a run that admits one less than twice the limit |
| `RateLimiter.AtMostTwiceTheLimit` | server/src/lib/ratelimit.ts:39-46 | at most twice the limit are admitted per key in any interval of one window, its ends included |
| `RateLimiter.TwiceIsReached` | server/src/lib/ratelimit.ts:39-46 | a run that admits twice the limit in one |
| `RateLimiter.DeniedOnlyAtTheLimit` | server/src/lib/ratelimit.ts:43-46 | a denied attempt has `limit` admitted ones on its key less than a window before it |
| `RateLimiter.RetryIsHonoured` | server/src/lib/ratelimit.ts:44-46 | a caller that waits as long as it was told is admitted |
| `RateLimiter.RetryIsExact` | server/src/lib/ratelimit.ts:44-46 | a caller that comes back a second or more before it was told is denied again |
| `Base32.Encode` | server/src/auth/totp.ts:8-22 | the text spells the bytes' bits in alphabet characters, zero-filled, with length ceil(8n/5) |
| `Base32.Decode` | server/src/auth/totp.ts:24-39 | the bytes are the whole bytes among the bits of the text's symbols, after full upper-casing |
| `Base32.AppendByte` | server/src/auth/totp.ts:13 | on 32 bits, shifting in a byte keeps the pending bits and appends its bits, however much garbage lies above |
| `Base32.AppendSymbol` | server/src/auth/totp.ts:31 | the same for a symbol |
| `Base32.RoundTrip` | server/src/auth/totp.ts:8-39 | decoding an encoding, or any text with the same symbols, gives back the bytes |
| `Base32.DecodingIsUnique` | server/src/auth/totp.ts:24-39 | what a text decodes to depends on its symbols alone |
| `Base32.InsertionKeepsSymbols` | server/src/auth/totp.ts:28-30 | putting a character anywhere keeps the symbols of a text exactly when it does not count: every ASCII character outside the alphabet in either case, and all beyond ASCII but 17 |
| `Base32.InsertionIgnored` | server/src/auth/totp.ts:24-39 | putting a character anywhere never changes the bytes decoded if and only if it does not count |
| `Base32.CountingMatters` | server/src/auth/totp.ts:33-36 | for every character that counts, a text in which it changes the bytes |
| `Base32.IndexOfFinds` | server/src/auth/totp.ts:29 | the index of a character in the alphabet, or none |
| `Base32.SymbolValues` | server/src/auth/totp.ts:5-30 | what a letter in either case and a digit stand for |
| `Base32.CaseIgnored` | server/src/auth/totp.ts:28 | texts that agree character by character in upper case, or where neither character counts, decode alike |

## Left out

- All input and output and foreign code: sockets, UDP and ICE, TURN, codecs, capture, input injection, clipboard, database, HTTP and Tauri layers, and the React screens.
- Cryptographic strength, and the labels from which stream keys are derived (`core/src/crypto.rs:100-105`): each stream has its own cipher here.
- `presence`, `isOnline`, `touch`, the access lists, and the rate limiter's use in the request handler: they read or pre-filter what is modelled.
- `hotp` truncation and the window of `verifyTotp`: their content is HMAC-SHA1, which is not modelled.
- `Registry.Registry.GoOffline`: the order in which a slot's sessions are torn down is arbitrary here, insertion order in the source.
- `Upload.UploadCompletes`: assumes FIFO delivery both ways, which `Session.SessionIsFifo` proves of connections that last, no failing read or write and no cancellation; those are covered by `Upload.UploadExact` only. The 15-second wait for the first acknowledgement and the polling sleeps are not modelled.
- `Upload.UploadExact`: one target path that nobody else writes; the source file does not change between sessions.
- `Download.DownloadHost.Request`: ids are taken to be fresh, so the wrap-around of the u32 id counter after 2^32 transfers is not covered; the size announced is the size read.
- `Download.DownloadExact`: the local appender's own write failures are not modelled, and the error texts in reports are taken to be short.
- `HostLoop.Serve`: times appear only as deadline checks that may come out either way; wake dispatches count as other messages, and a session thread that cannot be started counts as a failed handshake; the lock at the end of a session and the session's own work are left out.
- `Session.SessionIsFifo`: broken connections and the deadline of the handshake end a run where it is.
- `Governor.Governor.Tick`: the three-second pacing of the ticks is left out.
- The service's own streaming loop repeats the host loop with fewer messages, and has no behaviour of its own to model.
- Small helpers (`wol.rs`, `connect.rs`, `relay.rs`, device ids, credentials, NAL scanning): pure conversions without state, on which none of the properties above depends.
