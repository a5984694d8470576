# Aster FSD, modelled and verified in Dafny

Aster FSD is a server for flight-simulation networks. Clients (pilots,
controllers, observers) connect over TCP, log in under a callsign, and exchange
positions, messages, queries and flight plans that the server routes between
them. This project models its three concurrent parts and proves what they
promise.

1. **The network core.** Two indexes, sessions by connection id and ids by
   callsign, behind one lock. Identification and login check under the read
   lock, leave it while an authority decides, and check again under the write
   lock, with a generation number as an optimistic version. `State`,
   `Lifecycle`, `Authentication`, `Routing` and `Commands` specify the critical
   sections as functions. `NetworkCore` holds the class with the two mutable
   maps whose methods are proved against them. `System` is the step system, with
   any number of waiting logins and an arbitrary authority. `History` and
   `Guarantees` state what holds of every run.
   `Audience` says for every command what each listener is due, and `Admissions`
   who is let in and with which ratings, and what is said when somebody is not.
2. **The wire.** `Codec` is the incremental, bounded frame decoder on a mutable
   buffer; `Packet` the tokenized packet with its three grammars;
   `ClassicProtocol` the classic backend for relayed commands; `RelayRoundTrip`
   and `RelayContent` what a relay preserves, `RelayLimits` when the encoder
   accepts it; `EndToEnd` follows one directed command from the sender's frame to
   the receiver's decoder. `DecodingLaws`, `TextLaws` and `WireForms` state which
   octets mean what, in both directions.
3. **The fan-out.** `Runtime` is the dispatcher with its per-dialect cache of
   encoded frames and bounded mailboxes, `Backends` the registry it encodes with,
   `Mailboxes` the interleaving of any number of dispatchers and writers, and
   `Interleaving` shows that the dispatcher is one of those.

`Server` puts them together: one object with the network, the dispatcher and the
id counter. Each of its methods is proved to be a step of the step system, so the
theorems about runs are theorems about this object.

`Wrappers`, `Text` and `Model` hold options and results, octet strings with
UTF-8 (section 3 of RFC 3629), and the shared data types.

How to read the model:

- A character stands for an octet and a string for a sequence of octets, so lengths
  and limits count octets as the source does.
- The order of recipients comes from a hash map and is unspecified. The
  specification has sets of recipients; the class lists them without repetition
  in an arbitrary order.
- Fresh connection ids are a condition on registration in the step system. The
  class `Server` only ever hands to registration an id that its counter has just
  issued, and so meets the condition.
- While a dispatcher works, other threads change the connections: before each
  recipient an arbitrary function is applied to them, and the network gives an
  arbitrary answer about the recipient.
- "Every accepted frame can be relayed" does not hold of the code. A relayed ping
  without a payload gains one octet, and a filed plan has its destination replaced
  by `*A`; at the limit the encoder then refuses, and the dispatcher cancels the
  recipients. The inputs, and the exact
  condition for each, are in `RelayLimits`.
- A presence event is anchored at the write lock that produces it. Dispatch runs
  after the lock is released, so the presence theorems speak of effects, in the
  order of the critical sections, and not of the order on a socket.
- Presence theorems assume that nobody broadcasts a forged presence event; the
  exact condition on broadcasts is proved. The server itself only broadcasts
  changes of wind.
- The rating that a kill compares is a bare number shared by controller and
  pilot ratings. The code, and so the model, lets a pilot with a high enough
  pilot rating kill; who can hold such a number is stated exactly.

`dafny verify dfyconfig.toml` verifies the whole project.

## Model

| member | source | states |
|---|---|---|
| `System.ReachableGood` | crates/aster_fsd_core/src/network/authentication.rs:235-307 | In every reachable state, for every interleaving with any number of waiting identifications and logins: both indexes agree, every session is consistent (phase, presence, generation, revision, identification, stored position and plan), capacity is respected, and every waiting ticket is sound. |
| `System.StepKeepsInv` | crates/aster_fsd_core/src/network/mod.rs:126-158 | Every critical section of the network keeps the invariant of the two indexes and of every session. |
| `System.StepEvolves` | crates/aster_fsd_core/src/network/authentication.rs:243-266 | Under fresh ids a known id never comes back after release; while it stays, its dialect is fixed, its generation never falls, and an active session keeps its presence and identification. |
| `System.EqualGenerationMeansUnchanged` | crates/aster_fsd_core/src/network/authentication.rs:148-195 | Across any number of actions, an equal generation on the same id means that phase, identification, presence and dialect are what they were. |
| `System.SplitLoginRefinesAtomicLogin` | crates/aster_fsd_core/src/network/authentication.rs:77-146 | A login that waited for the authority commits exactly when its generation is current and the whole login, run atomically now, would commit; state and effects are then the same. |
| `System.SplitIdentifyRefinesAtomicIdentify` | crates/aster_fsd_core/src/network/authentication.rs:8-75 | A waiting identification commits exactly when it could begin now, and the generation it carries is then the current one. |
| `System.ReusedIdWouldBreakLogin` | crates/aster_fsd_server/src/connection/mod.rs:31 | Concrete run: if an id were registered twice, an old ticket would commit on a new session of another dialect, which the same login run atomically refuses. The id counter is what rules this out. |
| `Guarantees.CallsignIndexIsExact` | crates/aster_fsd_core/src/network/authentication.rs:282-295 | In every reachable state a callsign maps to an id exactly when that id is active and presents the callsign; active means having a presence. |
| `Guarantees.ReplicaIsExact` | crates/aster_fsd_core/src/network/authentication.rs:315-324 | Folding the presence events addressed to an active client, from its own login on, yields exactly the callsigns of the sessions activated after it, through logoff, kill, lost connections and reuse of callsigns. |
| `Guarantees.ActivationTellsItselfNothing` | crates/aster_fsd_core/src/network/authentication.rs:309-349 | The effects of a login tell the client that logs in nothing about presence. |
| `Guarantees.BroadcastKeepsReplicaExactlyWhen` | crates/aster_fsd_core/src/network/mod.rs:120-123 | A broadcast leaves a client's replica exact if and only if it neither adds a callsign the client does not know of nor removes one it does. |
| `History.StepTells` | crates/aster_fsd_core/src/network/lifecycle.rs:18-36 | The effects of any single action tell every active session that stays active exactly the change of presence the action made. |
| `History.StepFollows` | crates/aster_fsd_core/src/network/lifecycle.rs:13-42 | One action changes the presence of at most one session, the callsign index follows exactly, and only a login activates. |
| `Guarantees.ActivationsAreConserved` | crates/aster_fsd_core/src/network/authentication.rs:283-295 | Activations equal releases plus the number of registered callsigns, in every run. |
| `Guarantees.OneCallsignPerOnlineId` | crates/aster_fsd_core/src/network/mod.rs:78-97 | There are as many registered callsigns as active sessions, and never more sessions than `max_clients`. |
| `Guarantees.ReleasedExactlyOnce` | crates/aster_fsd_server/src/connection/mod.rs:103-109 | An id is activated at most once and released exactly once after that, whatever mixture of logoff, kill and connection epilogue happens; afterwards it is gone for good. |
| `Guarantees.OnlineSessionsWereAdmitted` | crates/aster_fsd_core/src/network/authentication.rs:165-185 | Every active session was activated by a login whose begin-time and end-time checks hold of it now: protocol revision of its dialect, rating allowed by the authenticated identity, not suspended, and for VATSIM an identification with the login's callsign and network id. |
| `Guarantees.OfflineOnlyByConsentOrKill` | crates/aster_fsd_core/src/network/commands.rs:29-36 | An active client goes offline only by a disconnect of its id, its own logoff, or a kill naming its callsign by an active session rated at least 11. |
| `Guarantees.KillRatingExactlyWhen` | crates/aster_fsd_model/src/identity.rs:159-163 | The identities that can be granted a rating number of at least 11: among controllers exactly supervisors and administrators, among pilots and observers exactly those from the airline transport licence up. |
| `Guarantees.WhoCanKill` | crates/aster_fsd_core/src/network/commands.rs:274-283 | A session whose kills are obeyed logged in with one of those identities. |
| `Admissions.GrantedExactly` | crates/aster_fsd_model/src/identity.rs:139-163 | A rating is granted exactly when it is grantable: to a controller any number from 1 to the place of its own rating in the list of ratings, to a pilot or observer the numbers of one, two, ... low bits up to its own certification. |
| `Admissions.OnlinePresenceIsGranted` | crates/aster_fsd_core/src/network/authentication.rs:268-291 | In every reachable state the presence of an active session has, field by field, the callsign, type, rating, revision and simulator of the login that activated it and the network id and name of the identity the authority returned; the rating is grantable to that identity, the revision is 9, 100 or 1 by dialect, and a VATSIM client identified itself as the same. |
| `Audience.CommandIsHeard` | crates/aster_fsd_core/src/network/commands.rs:7-302 | For every command of a session and every listener: the events the listener hears, in order, are exactly those it is due, defined on the fields of the command from the point of view of the listener, with addresses, ranges, refusals, replies and removals. |
| `Admissions.ReachableCommandIsHeard` | crates/aster_fsd_core/src/network/commands.rs:7-302 | The same in every reachable state. |
| `Audience.KillDelivers` | crates/aster_fsd_core/src/network/commands.rs:261-302 | An accepted kill delivers a notice to the issuer, the one disconnect event to exactly the session that presents the target callsign, with the target and reason of the command, and then the removal to all who are left. |
| `Audience.ResolvedIsAudience` | crates/aster_fsd_core/src/network/routing.rs:21-90 | The recipients of a destination are its audience: the owner of a callsign, the active peers of a kind, or those within message range for a text and within source range for the rest. |
| `Audience.PositionIsSeen` | crates/aster_fsd_core/src/network/routing.rs:92-165 | A reported position goes to an active controller if and only if it is within the visual range that controller reported itself, and to another active peer if and only if it would hear a message from there. |
| `Audience.PlanIsHeard` | crates/aster_fsd_core/src/network/routing.rs:108-128 | A filed plan goes to exactly the active controllers with a position at most 400 from its owner. |
| `Audience.PositionAcceptedExactly` | crates/aster_fsd_model/src/position.rs:78-122 | Which positions are accepted, and the field reported otherwise. |
| `Admissions.LoginBeginExactly` | crates/aster_fsd_core/src/network/authentication.rs:148-195 | Why a login is turned away before the authority is asked, in order, with the error the client gets and whether it is closed. |
| `Admissions.LoginRefusedExactly` | crates/aster_fsd_core/src/network/authentication.rs:99-281 | Why a login is turned away afterwards, likewise; it commits if and only if none of the reasons holds. |
| `Admissions.LoginIsHeard` | crates/aster_fsd_core/src/network/authentication.rs:283-414 | A login that commits: the client gets exactly its greeting, every other active session exactly one announcement with the stated fields, and the session becomes active. |
| `Admissions.IdentifyExactly` | crates/aster_fsd_core/src/network/authentication.rs:8-75 | An identification is stored as sent by a session that is still connected at this generation; otherwise it is refused with the stated error. |
| `Admissions.RegisterExactly` | crates/aster_fsd_core/src/network/mod.rs:71-107 | A registered session field by field; the two refusals. |
| `Admissions.DisconnectIsHeard` | crates/aster_fsd_core/src/network/lifecycle.rs:13-42 | Exactly the active sessions that are left hear of the removal, with the fields of the presence; the close carries the reason. |
| `Admissions.BroadcastIsHeard` | crates/aster_fsd_core/src/network/mod.rs:120-123 | Exactly the active sessions hear a broadcast. |
| `Guarantees.StoredPlanIsLastFiled` | crates/aster_fsd_core/src/network/commands.rs:124-136 | The stored flight plan of an active session is the one it filed last since its activation, or none. |
| `Guarantees.FlightPlanQueryIsCurrent` | crates/aster_fsd_core/src/network/commands.rs:326-364 | A server flight-plan query is answered with the plan last filed by the present holder of the callsign, never one of an earlier holder; an unknown callsign and a holder without a plan get their own errors. |
| `Authentication.LoginEndExactly` | crates/aster_fsd_core/src/network/authentication.rs:235-307 | A login commits exactly under `LoginCommits`; then both indexes gain the session and its effects are issued, otherwise nothing changes and at most one error goes to the client that tried. |
| `Authentication.ActivateLoginKeepsInv` | crates/aster_fsd_core/src/network/authentication.rs:243-295 | Activation keeps the invariant as long as the begin-time checks hold of the session at the ticket's generation. |
| `Authentication.IdentifyCommitKeepsInv` | crates/aster_fsd_core/src/network/authentication.rs:52-75 | Committing an identification keeps the invariant. |
| `Commands.ExecuteState` | crates/aster_fsd_core/src/network/commands.rs:7-83 | Spoofed commands, invalid positions and refused kills leave both indexes as they were; an accepted command has exactly the stated new state. |
| `Commands.AcceptedTouchesOnly` | crates/aster_fsd_core/src/network/commands.rs:85-140 | An accepted command touches one session only: its issuer's, or the victim of a kill; logoff and kill remove it, the other commands keep it. |
| `Commands.ExecuteCloses` | crates/aster_fsd_core/src/effects.rs:34-43 | A command requests a close exactly for an accepted logoff or kill, of exactly that session and with its reason; since `Extend` requires it, two closes never meet. |
| `Commands.ExecuteKeepsInv` | crates/aster_fsd_core/src/network/commands.rs:7-83 | Every command of an active session keeps the invariant. |
| `Lifecycle.RegisterKeepsInv` | crates/aster_fsd_core/src/network/mod.rs:71-107 | Registering keeps the invariant and the capacity bound. |
| `Lifecycle.DisconnectReleasesExactly` | crates/aster_fsd_core/src/network/lifecycle.rs:13-42 | Disconnecting frees exactly the session and exactly its callsign, changes no other entry, and a second disconnect changes and says nothing. |
| `Routing.ResolvedAreActivePeers` | crates/aster_fsd_core/src/network/routing.rs:21-90 | Every destination resolves to active sessions other than the sender. |
| `Routing.DirectReachesExactlyTheOwner` | crates/aster_fsd_core/src/network/routing.rs:29-35 | A direct destination reaches exactly the other active session that presents the callsign, although the code tests no phase there. |
| `Routing.AllIsAtcAndPilots` | crates/aster_fsd_core/src/network/routing.rs:36-64 | `*` reaches the disjoint union of `*A` and `*P`. |
| `Routing.SourceRangeWithinMessageRange` | crates/aster_fsd_core/src/network/routing.rs:167-212 | Source-range recipients are among the message-range recipients. |
| `Routing.MessageRangeSymmetric` | crates/aster_fsd_core/src/network/routing.rs:167-198 | Message range is symmetric for a symmetric distance. |
| `Routing.PositionRangeIsMessageRange` | crates/aster_fsd_core/src/network/routing.rs:130-165 | For a target that is no controller, position range and message range are the same condition. |
| `Routing.PositionHeardLikeMessages` | crates/aster_fsd_core/src/network/routing.rs:92-106 | Positions reach active peers only, and among non-controllers exactly the recipients of a range message. |
| `Routing.FlightPlanReachesControllers` | crates/aster_fsd_core/src/network/routing.rs:108-128 | A filed plan reaches a part of what `*A` reaches, growing with the range, and nobody while its owner has no position. |
| `Routing.ControllerHearsItsVisualRange` | crates/aster_fsd_core/src/network/routing.rs:146-162 | In an invariant state the fallback for a controller without an ATC position is unreachable: its own non-negative visual range decides. |
| `Routing.PilotRangeMonotone` | crates/aster_fsd_core/src/network/routing.rs:214-234 | A pilot's range is at least 10 and never falls with altitude. |
| `Routing.PilotRangeIsTheIntegerPart` | crates/aster_fsd_core/src/network/routing.rs:214-234 | The integer computation equals the integer part of `10 + 1.414 * sqrt(altitude)` over the reals. |
| `Routing.SessionRangeAtLeastFive` | crates/aster_fsd_core/src/network/routing.rs:214-234 | Every session range is at least 5. |
| `Routing.SessionRangeExactly` | crates/aster_fsd_core/src/network/routing.rs:214-234 | The whole table of ranges: pilots by the real formula, controllers by facility, all others 40. |
| `NetworkCore.Network.constructor` | crates/aster_fsd_core/src/network/mod.rs:46-69 | A new network is empty and valid. |
| `NetworkCore.Network.Collect` | crates/aster_fsd_core/src/network/routing.rs:7-19 | Iterating over the session map in any order lists each selected session once. |
| `NetworkCore.Network.Register` | crates/aster_fsd_core/src/network/mod.rs:71-107 | In-place registration: duplicate id, capacity, or exactly one new connected session. |
| `NetworkCore.Network.LoginGeneration` | crates/aster_fsd_core/src/network/authentication.rs:148-195 | The read-lock checks of `login`, in their order: the generation, or the reply. |
| `NetworkCore.Network.LoginEnd` | crates/aster_fsd_core/src/network/authentication.rs:99-146 | The rest of `login` with the answer of the authority; keeps `Valid` under the begin-time checks. |
| `NetworkCore.Network.IdentifyCommit` | crates/aster_fsd_core/src/network/authentication.rs:41-75 | The write-lock half of `identify`, tied to its specification in state and effects. |
| `NetworkCore.Network.ActivateLogin` | crates/aster_fsd_core/src/network/authentication.rs:235-307 | The write-lock half of `login`, tied to its specification in state and effects; keeps `Valid` under the begin-time checks. |
| `NetworkCore.Network.LoginEffects` | crates/aster_fsd_core/src/network/authentication.rs:309-349 | The list of login effects in the order they are pushed. |
| `NetworkCore.Network.Disconnect` | crates/aster_fsd_core/src/network/lifecycle.rs:8-42 | In-place removal from both maps with the removal notice and the close. |
| `NetworkCore.Network.Broadcast` | crates/aster_fsd_core/src/network/mod.rs:120-123 | A broadcast goes to every active session once. |
| `NetworkCore.Network.ResolveDestination` | crates/aster_fsd_core/src/network/routing.rs:21-90 | The recipients of a destination, each once. |
| `NetworkCore.Network.HandlePosition` | crates/aster_fsd_core/src/network/commands.rs:85-122 | Validation and client-type check before the stored position changes; recipients computed from the new position. |
| `NetworkCore.Network.HandleFlightPlan` | crates/aster_fsd_core/src/network/commands.rs:124-136 | The stored plan is replaced and sent to controllers within 400 of its owner. |
| `NetworkCore.Network.HandleKill` | crates/aster_fsd_core/src/network/commands.rs:261-302 | Unknown target, insufficient rating, or notice, farewell and release in this order with one close. |
| `NetworkCore.Network.HandleStateCommand` | crates/aster_fsd_core/src/network/commands.rs:85-140 | The in-place dispatch of logoff, position and flight plan. |
| `NetworkCore.Network.Relayed` | crates/aster_fsd_core/src/network/commands.rs:171-259 | A relayed command goes to the resolved recipients with the right range policy. |
| `NetworkCore.Network.ExecuteActive` | crates/aster_fsd_core/src/network/commands.rs:7-83 | The in-place dispatcher: inactive sessions are ignored, spoofed sources refused, every command has the specified new state and effects. |
| `Codec.FsdFrameCodec.New` | crates/aster_fsd_codec/src/lib.rs:69-74 | A zero limit is refused, any other limit is kept. |
| `Codec.FsdFrameCodec.FindDelimiter` | crates/aster_fsd_codec/src/lib.rs:82-84 | The position of the first CR or LF. |
| `Codec.FsdFrameCodec.DiscardDelimiters` | crates/aster_fsd_codec/src/lib.rs:86-92 | Exactly the leading delimiters are removed in place. |
| `Codec.FsdFrameCodec.Decode` | crates/aster_fsd_codec/src/lib.rs:99-132 | One call on a mutable buffer yields the specified result and rest; the self-call of the code is unreachable. |
| `Codec.FsdFrameCodec.Encode` | crates/aster_fsd_codec/src/lib.rs:138-153 | The frame and CRLF are appended, or the buffer is untouched and the reason is given. |
| `Codec.ReceiveFindsSegments` | crates/aster_fsd_codec/src/lib.rs:99-132 | However a stream is cut into chunks, the frames before the first error, and whether there is one, are the non-empty delimiter-separated segments up to the first over the limit. |
| `Codec.ReceiveIgnoresChunking` | crates/aster_fsd_codec/src/lib.rs:99-132 | Receiving in chunks, from any settled buffer, agrees with decoding the whole stream at once, including what is left in the buffer. |
| `Codec.DrainFindsSegments` | crates/aster_fsd_codec/src/lib.rs:99-132 | Draining a buffer yields the segments of an independent definition. |
| `Codec.SegmentsCut` | crates/aster_fsd_codec/src/lib.rs:82-92 | The delimiters are CR and LF, and the decoder cuts at the first of them. |
| `Codec.DrainSettles` | crates/aster_fsd_codec/src/lib.rs:99-132 | What remains when more input is needed is at most the limit long and holds no delimiter. |
| `Codec.DrainYieldsFrames` | crates/aster_fsd_codec/src/lib.rs:99-132 | Every frame yielded is non-empty, within the limit and free of delimiters. |
| `Codec.StreamRoundTrip` | crates/aster_fsd_codec/src/lib.rs:138-153 | Encoding any list of such frames and decoding the concatenation returns the list and an empty buffer. |
| `Packet.RawPacket.Encode` | crates/aster_fsd_codec/src/lib.rs:320-356 | The printed packet in all three grammars including the swapped `DI` form, or the limit or delimiter error. |
| `Packet.PacketRoundTrip` | crates/aster_fsd_codec/src/lib.rs:233-356 | Parsing the print of any well-formed packet of any kind returns it. |
| `Packet.ParsePrint` | crates/aster_fsd_codec/src/lib.rs:233-356 | A packet whose fields contain colons comes back with its fields cut at them. |
| `Packet.ParsedIsWellFormed` | crates/aster_fsd_codec/src/lib.rs:233-311 | The parser only yields well-formed packets. |
| `Packet.PrintParse` | crates/aster_fsd_codec/src/lib.rs:247-356 | Printing a parsed frame gives it back octet by octet, except compact pilot frames, which gain one colon. |
| `Packet.ReEncode` | crates/aster_fsd_codec/src/lib.rs:320-356 | Encoding an accepted frame again within its limit succeeds, except for a compact pilot frame that fills the limit; the rewritten frame parses the same and is stable. |
| `RelayRoundTrip.DecodedIsNormal` | crates/aster_fsd_protocol_classic/src/decode/routed.rs:9-174 | Whatever a classic frame decodes to can be printed and read back: upper-case callsigns, printable destinations, query kinds and fields. |
| `RelayRoundTrip.FlightPlanRoundTrip` | crates/aster_fsd_protocol_classic/src/encode/state.rs:44-71 | A flight plan survives encoding and decoding for every destination that is one token, also a client whose callsign is `SERVER`. |
| `RelayRoundTrip.DestinationNormal` | crates/aster_fsd_model/src/routing.rs:23-37 | A parsed destination prints to a token that parses to it again. |
| `RelayRoundTrip.CallsignNormal` | crates/aster_fsd_model/src/identity.rs:18-33 | A parsed callsign parses to itself. |
| `RelayRoundTrip.QueryKindNormal` | crates/aster_fsd_protocol_classic/src/decode/routed.rs:164-174 | A query kind prints to a token that is read as the same kind. |
| `Text.DecimalRoundTrip` | crates/aster_fsd_protocol_classic/src/decode/mod.rs:74-76 | Every 32-bit integer is read back from its decimal form. |
| `TextLaws.ParseExactly` | crates/aster_fsd_protocol_classic/src/decode/mod.rs:74-76 | A text is read as a number if and only if it is an optional fitting sign, leading zeros and the digits of the number, and the number fits 32 bits. |
| `TextLaws.ValidExactly` | crates/aster_fsd_codec/src/lib.rs:233-245 | A string passes as UTF-8 if and only if it is the octets of some sequence of scalar values. |
| `DecodingLaws.CallsignExactly` | crates/aster_fsd_model/src/identity.rs:18-33 | Callsigns have 2 to 12 ASCII characters, none reserved, and are kept in upper case; which error is reported otherwise. |
| `DecodingLaws.UpperExactly` | crates/aster_fsd_model/src/identity.rs:18-33 | Exactly the twenty-six letters are changed, each to its capital. |
| `DecodingLaws.DestinationExactly` | crates/aster_fsd_model/src/routing.rs:23-37 | Which text is which destination. |
| `DecodingLaws.QueryKindExactly` | crates/aster_fsd_protocol_classic/src/decode/routed.rs:164-174 | Which text is which query kind; any other text is kept as it is. |
| `DecodingLaws.AcceptedExactly` | crates/aster_fsd_codec/src/lib.rs:233-311 | Which frames the parser accepts, octet by octet. |
| `DecodingLaws.DecodesExactly` | crates/aster_fsd_protocol_classic/src/decode/mod.rs:9-57 | Which packets are understood, with the least number of fields and the address each command needs; what each of them says, field by field; and the error code of each refusal. |
| `RelayRoundTrip.RelayPreservesMeaning` | crates/aster_fsd_protocol_classic/src/encode/routed.rs:7-153 | For every frame that decodes to a relayed command or a flight plan, the recipient decodes from the encoded event exactly what the server decoded, whenever the encoder accepts it; when it does is the next rows. |
| `RelayContent.RelayKeepsContent` | crates/aster_fsd_protocol_classic/src/decode/routed.rs:9-162 | In such a frame the recipient's packet has the sender's command, upper-cased source, destination and fields, exactly stated for query kinds, numbers, flight rules and empty pings; its first octet is `#` for `TM`, `SB` and `PC` and `$` for the other commands. |
| `RelayLimits.RelayedExactly` | crates/aster_fsd_protocol_classic/src/encode/mod.rs:54-75 | For every delimiter-free frame of a relayed command: the encoder refuses it, with the limit error, if and only if the frame, plus one octet for a ping or pong without a payload field, is over the limit (from a frame within the limit: only such a ping of exactly the limit); otherwise the frame sent has that length, the same meaning and the same content. |
| `RelayLimits.FiledPlanExactly` | crates/aster_fsd_protocol_classic/src/encode/state.rs:44-71 | For every delimiter-free frame of a filed plan: the encoder refuses it, with the limit error, if and only if the frame, with `*A` in place of its destination and less the octets that printing its fields again saves, is over the limit, so never when a frame within the limit names a destination of two octets or more; otherwise the frame sent has that length, files the same plan and has the same content. |
| `RelayLimits.PlanLength` | crates/aster_fsd_protocol_classic/src/encode/state.rs:44-71 | The exact length of a plan sent to any destination: that of the frame that filed it, with the destination replaced, less what printing saves (signs, leading zeros, the rest of the flight rules, extra fields); nothing is saved if and only if the fields were filed as they are printed. |
| `RelayLimits.DirectedIsNeverRefused` | crates/aster_fsd_core/src/network/commands.rs:171-259 | A command directed to a callsign, from a frame within the limit, is never refused by the encoder. |
| `RelayLimits.LongestPingIsRefused` | crates/aster_fsd_protocol_classic/src/encode/routed.rs:55-65 | The 511-octet frame `$PIAB:@AAA...` is accepted, decodes to a ping to everybody in range, and is refused by the encoder at 512 octets. |
| `RelayLimits.LongestPlanIsRefused` | crates/aster_fsd_protocol_classic/src/encode/state.rs:44-71 | A 511-octet plan filed without a destination address is accepted and refused by the encoder at 513 octets. |
| `Text.DecimalShortest` | crates/aster_fsd_protocol_classic/src/decode/mod.rs:74-76 | No numeral that is read as a number is shorter than its decimal form, and one of the same length is that form. |
| `EndToEnd.DirectedCommandArrives` | crates/aster_fsd_core/src/network/commands.rs:171-259 | In any reachable state a directed command in a frame within the limit reaches exactly the present holder of the callsign; the encoder accepts it, and the octets sent yield one frame that means the same and carries the same fields. |
| `EndToEnd.DirectedCommandIsQueued` | crates/aster_fsd_server/src/runtime.rs:26-114 | Dispatched by the server in any reachable state, whatever other threads do before, that frame is appended as one batch to the mailbox of a receiver on the classic or VATSIM protocol, or the connection is cancelled because the mailbox cannot take it; no other connection is touched. |
| `Runtime.CacheIsSoundExactlyWhen` | crates/aster_fsd_server/src/runtime.rs:26-98 | The fan-out offers every recipient what encoding for it alone gives, for all events, recipients and interferences of other threads, if and only if successful encodings of events not declared recipient-specific ignore the recipient. |
| `Runtime.CacheIsTransparent` | crates/aster_fsd_server/src/runtime.rs:33-98 | With such backends the cached fan-out leaves the same mailboxes and cancellations as the one without a cache. |
| `Runtime.EncodesOncePerDialect` | crates/aster_fsd_server/src/runtime.rs:46-74 | Once an event has been encoded successfully for a dialect, no encoder is called for it and that dialect again, unless the event is recipient-specific. |
| `Runtime.FanoutRunsOneCachePerDialect` | crates/aster_fsd_server/src/runtime.rs:33-74 | What the recipients of one dialect are offered, in order, is what a cache for this dialect alone gives for their contexts: the dialects do not disturb each other. |
| `Runtime.Runtime.DispatchDelivery` | crates/aster_fsd_server/src/runtime.rs:33-98 | The loop over the recipients of one event is this fan-out: the same connections, the same offers, and exactly its calls of encoders, which are logged where they are made. |
| `Runtime.Runtime.Dispatch` | crates/aster_fsd_server/src/runtime.rs:26-114 | Dispatching all deliveries and the close leaves the connections as encoding separately for each recipient would, whatever other threads do in between and whatever the network answers at each recipient; the calls of encoders are those of the fan-outs. |
| `Runtime.DispatchKeepsIds` | crates/aster_fsd_server/src/runtime.rs:26-114 | Dispatching itself neither opens nor takes away a connection. |
| `Backends.RegistryIsContextFreeExactlyWhen` | crates/aster_fsd_protocol_classic/src/encode/mod.rs:10-41 | The promise the cache rests on is kept by the classic and the VATSIM encoder for every event, so the registry keeps it if and only if the JSON encoder, which is library code and a parameter here, ignores the recipient. |
| `Backends.RelayIsQueued` | crates/aster_fsd_server/src/runtime.rs:76-98 | A recipient of a relayed event gets the frame of the classic encoder as one batch, or is cancelled when the encoder refuses or its mailbox cannot take it. |
| `WireForms.PacketIsWire` | crates/aster_fsd_protocol_classic/src/encode/mod.rs:10-41 | The text of the frame of every event, with its prefix, letters, numbers and fields in order. |
| `WireForms.BackendsSendTheWire` | crates/aster_fsd_protocol_vatsim/src/lib.rs:58-95 | The classic and the VATSIM backend send exactly that text, within 511 and 4096 octets and without CR or LF, whoever the recipient is. |
| `Mailboxes.NoSilentLoss` | crates/aster_fsd_server/src/runtime.rs:33-112 | In every interleaving of any number of dispatchers, each serving from its own cache, and writers: while a connection is not cancelled, what its writer took and what still waits are exactly the messages addressed to it, each encoded for it alone, in order. |
| `Mailboxes.CachesAreOk` | crates/aster_fsd_server/src/runtime.rs:33-74 | At every moment of every interleaving a dispatcher's cache holds only encodings of the event it is dispatching. |
| `Interleaving.FanoutIsInterleaved` | crates/aster_fsd_server/src/runtime.rs:33-98 | The fan-out of one event in the dispatcher is a run of the interleaved system: after each recipient they agree on all connections and on the cache, whatever other dispatchers and writers do in between. |
| `Interleaving.SendCloseIsAfterClose` | crates/aster_fsd_server/src/runtime.rs:100-112 | The request to close a connection is the same step in both. |
| `Mailboxes.RunWriter` | crates/aster_fsd_server/src/connection/writer.rs:27-79 | The loop on the messages of a mailbox and an arbitrary socket ends as `Finish` says, and always cancels. |
| `Mailboxes.FinishWritesUntilClose` | crates/aster_fsd_server/src/connection/writer.rs:36-79 | That is: it writes the frames before the first `Close`, in order, up to the first the socket refuses, and closes the socket if and only if it has written them all and there is a `Close`. |
| `Mailboxes.AcceptedUntilRefused` | crates/aster_fsd_server/src/connection/writer.rs:47-62 | The frames a socket takes are all those before the first it refuses. |
| `Server.Server.constructor` | crates/aster_fsd_server/src/server.rs:116 | A server starts with no connection, an empty run and the counter at 1. |
| `Server.Server.Open` | crates/aster_fsd_server/src/connection/mod.rs:31-84 | A new connection uses up an id that was never handed to registration in the whole run; it is refused only for an invalid frame limit, for lack of capacity or because its handshake cannot be sent, and then the session is released again. Both tables are stated in every case. |
| `Server.Server.Close` | crates/aster_fsd_server/src/connection/mod.rs:103-109 | The epilogue takes the mailbox away, then releases the session and dispatches the removal to the rest; afterwards the id is in neither table, and nothing is said if a logoff or kill has already released it. |
| `Server.Server.Command` | crates/aster_fsd_core/src/network/mod.rs:126-158 | A command that needs no authority is a step of the system, and its effects are dispatched. |
| `Server.Server.BeginIdentify` | crates/aster_fsd_core/src/network/authentication.rs:8-35 | The read-lock half of `identify` is a step of the system and yields a waiting ticket or a reply. |
| `Server.Server.EndIdentify` | crates/aster_fsd_core/src/network/authentication.rs:37-75 | The rest of `identify` is a step of the system. |
| `Server.Server.BeginLogin` | crates/aster_fsd_core/src/network/authentication.rs:94-195 | The read-lock half of `login` is a step of the system and yields a waiting ticket or a reply. |
| `Server.Server.EndLogin` | crates/aster_fsd_core/src/network/authentication.rs:99-146 | The rest of `login` is a step of the system; that the ticket was handed out in this run is all it requires, so the begin-time checks need not be repeated. |
| `Server.Server.Broadcasts` | crates/aster_fsd_core/src/network/mod.rs:120-123 | A broadcast is a step of the system, and its effects are dispatched. |
| `Mailboxes.WritersWriteInOrder` | crates/aster_fsd_server/src/connection/writer.rs:36-79 | Mailboxes stay within capacity; what is written is a prefix of the queued frames, batch by batch. |
| `Mailboxes.NothingAfterClose` | crates/aster_fsd_server/src/connection/writer.rs:64-76 | Once a writer has taken a `Close` nothing more is written, and a cancelled connection stays cancelled. |

## Left out

- Sockets, timers, idle timeouts, listener supervision, shutdown and logging: library plumbing; a cancellation token is a flag.
- The handshake and its challenge: whether it could be sent is an input of `Open`. The notice that the server is full goes to the socket directly and is not modelled.
- Databases, password hashing, configuration and the remote authority: the authority's answer is an arbitrary value in the step system.
- Weather: requests, lookup, parsing and encoding.
- Decoding of positions, logins, identifications and weather requests: their frames have no round trip to state, or involve floating-point numbers.
- Formatting of coordinates in position frames: library code, an arbitrary function of the coordinate.
- The Aster JSON backend and the VATSIM wire form of `$ID`: JSON is library code and can also build values no classic frame decodes to.
- The text of protocol errors: only their kind and error code are modelled.
- The great-circle distance: an arbitrary function of two points, non-negative and symmetric only where a lemma says so. A coordinate that is not finite is never stored, so its value as a point does not matter.
- Rounding of floating-point numbers: ranges are exact, and the range of a pilot is the exact integer part.
- Wrap-around of the 64-bit connection id and generation counters: both are unbounded here; in the model a generation never exceeds 2.
- The debug assertion in `Effects::extend` is a precondition of `Extend`, shown to hold wherever the code calls it.
- The reader after a framing error: `Receive` stops there, since what follows depends on how the stream was cut.
- NetworkCore.Network.ActivateLogin: keeps `Valid` only under the begin-time checks of the ticket, which hold in every reachable state but cannot be seen from the two indexes alone.
- NetworkCore.Network.HandlePosition: requires the source check that the dispatcher makes before it, as do the methods for flight plans and for state commands.
- Runtime.Runtime.Dispatch: the handle of a recipient is looked up and used in one step; a connection that leaves the table between the two counts as leaving afterwards. `Mailboxes` lets connections be served at any time.
- Server.Server.Command: a method is one critical section and the dispatch of its effects; what other threads do meanwhile reaches the connections through the schedule, which may open connections only under ids already issued, and reaches the network only between two methods.
- Mailboxes.RunWriter: sending includes flushing, and a failure to close the socket is only logged.
- Packet: frames that contain CR or LF are not considered where a frame is encoded again, since the codec never yields one.
