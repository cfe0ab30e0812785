# Verified model of the transfer core

LocalSend-style file transfer between two nodes rests on two pieces of Rust: the
session actor, which owns every send and receive session and publishes what the
user interfaces show, and the relay stack, which gets two nodes connected when
they cannot reach each other directly. This project models both in Dafny and
proves what each promises over every run, together with the functions around
them that decide bytes on the wire.

## Layout

| file | what it models |
|---|---|
| `Bytes.dfy`, `Utf8.dfy`, `Text.dfy` | bytes, big-endian integers, XOR, the fold behind the constant-time comparison; UTF-8 encoding and lossy decoding; decimal numbers, splitting, trimming |
| `Stun.dfy`, `StunWire.dfy` | the STUN codec as functions with its round trips; the message builder and the decoding loop as they run |
| `Credentials.dfy` | minting and checking time-limited credentials |
| `TurnServer.dfy`, `TurnRuns.dfy`, `TurnRedraw.dfy` | message authentication, the request handlers, the server as a machine over its inputs; what holds over all runs; a run that loses a socket |
| `TurnAuth.dfy`, `TurnLeases.dfy` | which requests are served, in terms of the bytes received; how long allocations live |
| `TurnClient.dfy`, `TurnDial.dfy`, `TurnSecrets.dfy`, `TurnNode.dfy` | the client's requests and the answers they get; the whole dial; what it depends on; server process and dialler as objects updated in place |
| `Registry.dfy` | the rendezvous registry against its log of registrations |
| `Bridge.dfy` | LISTEN and CONNECT handlers, interleaved at lock and channel operations |
| `QuicHttp.dfy`, `QuicLaws.dfy` | the hand-written HTTP/1.1 reader, writer and response decoder; the text itself, and heads the writer does not write |
| `SessionModel.dfy`, `SessionRuns.dfy`, `SessionLaws.dfy` | sessions, messages, the step function; properties of all runs; what each message does, stated outright |
| `SessionIndex.dfy`, `SessionActor.dfy` | the published index; the actor as an object, proved against the step function |
| `CliState.dfy`, `CliLaws.dfy`, `CliApp.dfy`, `CliSync.dfy` | the CLI's reducer and its agreement with the actor; counters, failure reasons and labels; the list of cards; the list against the actor it watches |
| `SendDriver.dfy`, `TransferEnds.dfy`, `TransferRuns.dfy` | the upload loop composed with the actor; sender and receiver of one transfer side by side; the same across runs of two busy actors |
| `LanTest.dfy` | the string-prefix address test |
| `Vectors.dfy` | encodings known byte for byte |

## How to read it

Code that updates things in place is a class or a method with loops (`Actor`,
`TurnProcess`, `Dialer`, `Store`, `Message`, `App`, `ServeStream`,
`RunSendDriver`), and each such method is proved equal to a function of the old
state: `Actor.HandleMessage` computes `SessionModel.Next`, `TurnProcess.Receive`
computes `TurnServer.Step`, and so on. The lemmas are about those functions, for
all messages, inputs and runs. Where an object has a history it keeps it as a ghost
log, and its methods state the run results themselves: `TurnProcess.Receive` that
what the process holds is accounted for by its log, `Actor.HandleMessage` that the
invariants of all runs hold, `Store.HandleList` that the list is what the log says,
`Dialer.Dial` that an honest client gets through.

Two step relations are used for the actor. `Legal` admits arbitrary messages and
asks only what the runtime guarantees (fresh session ids, distinct tokens, an
iteration order that visits each file once). `Disciplined` adds what `server.rs`
and `handle.rs` keep to: `ReportState` carries only Transfering and, like
`ReportFileState` and `Fail`, goes to send sessions, and `FinishFile` follows a
successful `StartFile` on the same token.

HMAC-SHA1, MD5 and base64 are function parameters; of HMAC only the output length
of twenty bytes is used. Random draws, clock readings, nonces, connection outcomes
and the chunks a stream yields are parameters. Integer widths are explicit: 16-bit
casts of lengths, 32-bit connection ids, 64-bit expiries. Where the wire format
divides or masks, the model divides by repeated subtraction (`Bytes.Quot`,
`Bytes.Rem`, `Stun.Padding`), proved to be `/` and `%`.

Results a reader of the code may not expect:

- After a partial acceptance the receiver's session ends Finished while the
  sender's stays Transfering for ever (`TransferEnds.BothEnds`).
- A failed upload fails the sender, but not necessarily the receiver. The driver
  also sends a cancel, so the receiver ends Failed only if its own upload handler
  reported the failure first; if the file could not even be opened at the sender,
  the receiver ends Canceled with that file pending, and if only the answer to the
  last upload was lost, it ends Finished (`TransferEnds.BothEnds`).
- A listener that is still waiting can lose its bridge registration to the clean-up
  of an older one (`Bridge.NewestListenerCanBeUnregistered`);
  `Bridge.NewestListenerRegistered` says exactly when it does, and
  `Bridge.RegistryIsLastListen` what the registry holds in general.
- A sender that was told "BRIDGE OK" may never be spliced: it still can be exactly
  while its listener waits with nobody else in the channel
  (`Bridge.SplicedExactly`).
- A parked peer socket is lost exactly when its connection id is drawn again while
  in use (`TurnRuns.SocketConservation`); `TurnRedraw.RedrawLosesSocket` is such a
  run.
- The reducer loses sight of a file whose `info.id` is not the key it is stored
  under (`CliState.KeepsUpExactly`).
- An attribute list over 65535 bytes never decodes back to itself, because lengths
  are cast to 16 bits (`Stun.PlainRoundTrip`, an equivalence).
- The relay server never checks the nonce, so the client's retry on 438 is modelled
  but this server never provokes it. Connect carries no checked signature; what
  protects it is the permission (`TurnRuns.ConnectNeedsPermission`).

Comments and code disagree in two places, and the model follows the code. The
comment above the integrity check names section 15.4, which is RFC 5389 numbering
(section 14.5 of RFC 8489). Refresh with lifetime 0 does not delete an allocation
but falls back to the configured lifetime. At turn_server.rs:191-195 the inner
`if` has an empty body, so it takes no decision; its subtractions are taken with
wrapping arithmetic, as in a release build; so is the expiry of a credential.

## Model

| member | source | states |
|---|---|---|
| `Stun.TypeRoundTrip` | rust/core/src/relay/stun.rs:54-85 | every method and class survives the interleaved type field, which stays below 0x4000 |
| `Stun.TypeDecodesOnlyItself` | rust/core/src/relay/stun.rs:67-85 | a type that decodes is the encoding of what it decodes to, up to the two top bits the decoder does not read |
| `Vectors.TypeNumbers` | rust/core/src/relay/stun.rs:18-65 | the message types as numbers |
| `Vectors.ProbeBytes` | rust/core/src/relay/stun.rs:160-210 | the unsigned Allocate byte for byte, for every transaction id |
| `Vectors.BindBytes` | rust/core/src/relay/stun.rs:160-210 | an unsigned ConnectionBind byte for byte |
| `Stun.PlainRoundTrip` | rust/core/src/relay/stun.rs:160-258 | an unkeyed message followed by any bytes decodes to its own method, class, transaction id and full attribute list if and only if the body is under 65536 bytes |
| `Stun.KeyedIsPlain` | rust/core/src/relay/stun.rs:160-182 | the keyed encoding is the plain encoding of the message with the integrity code, taken over everything before it, as last attribute |
| `Stun.KeyedRoundTrip` | rust/core/src/relay/stun.rs:160-258 | the keyed round trip, with the integrity attribute at the end of the list, holds if and only if body plus 24 bytes fit |
| `Stun.DecodeIgnoresTail` | rust/core/src/relay/stun.rs:223-258 | once the declared body is there, bytes after it change neither a result nor an error |
| `Stun.AttrsExactly` | rust/core/src/relay/stun.rs:236-256 | the attribute loop succeeds exactly on windows tiled by padded attributes, with that list, and complains only of one cut short |
| `Stun.RefusedExactly` | rust/core/src/relay/stun.rs:223-258 | each reason for refusing a message, in order, and that everything else decodes |
| `Stun.CookieExactly` | rust/core/src/relay/stun.rs:223-258 | four bytes read as the magic cookie exactly if they are its bytes |
| `Stun.XorAddressRoundTrip` | rust/core/src/relay/stun.rs:304-351 | every IPv4 address survives, every IPv6 address decodes to nothing |
| `Stun.XorAddressReencodes` | rust/core/src/relay/stun.rs:332-351 | every value that decodes re-encodes to itself apart from its reserved first byte |
| `Vectors.MaskedAddress` | rust/core/src/relay/stun.rs:304-330 | 192.0.2.1:32853 masked as in section 2.2 of RFC 5769 |
| `StunWire.WriteAttr` | rust/core/src/relay/stun.rs:199-210 | the loop appends type, length, value and zero padding to a multiple of four |
| `StunWire.Message.Push` | rust/core/src/relay/stun.rs:120-123 | appends one attribute and changes nothing else |
| `StunWire.Message.Encode` | rust/core/src/relay/stun.rs:160-182 | the encoder's loops compute the encoding the round trips are about, keyed or not |
| `StunWire.DecodeMessage` | rust/core/src/relay/stun.rs:223-258 | on every byte sequence, in bounds, the offset loop computes `Decode`, with the same error |
| `Bytes.ConstantTimeEqIsEquality` | rust/core/src/relay/turn_server.rs:211-216 | the OR of XORs is zero exactly on equal byte strings of any lengths |
| `Bytes.QuotIsDivision` | rust/core/src/relay/stun.rs:54-85 | the quotient and remainder used for shifts, masks and byte order are integer division and remainder |
| `Stun.PaddingAligns` | rust/core/src/relay/stun.rs:199-201 | the padding is (4 - len % 4) % 4, under four bytes, up to the next multiple of four |
| `Credentials.VerifyExactly` | rust/core/src/relay/discovery_server.rs:51-63 | accepted is exactly base64(HMAC(secret, user name)) as password, and exactly until the expiry in front of the first colon, for ever if there is none |
| `Credentials.MintedExactly` | rust/core/src/relay/credentials.rs:17-28 | what is minted: expiry in decimal, colon and suffix if any, and base64(HMAC(secret, user name)) |
| `Credentials.ForeignSecret` | rust/core/src/relay/discovery_server.rs:51-63 | credentials minted with one secret are accepted under another exactly before the expiry and only if both secrets give the user name the same code |
| `Credentials.OnlyTheSecretMints` | rust/core/src/relay/credentials.rs:17-28 | for hash functions without collisions: accepted if and only if the secrets are equal and the clock is before the expiry |
| `Credentials.GeneratedAccepted` | rust/core/src/relay/credentials.rs:17-28 | for every secret, suffix (with colons or not), 64-bit expiry and clock reading, a generated pair is accepted exactly while the clock is before the expiry |
| `Credentials.EndpointLivesForItsTtl` | rust/core/src/relay/credentials.rs:32-48 | an endpoint carries the minted pair, the realm and 3600 s, and is accepted exactly before its expiry: for its time to live and not a second more, or never again once the 64-bit sum has wrapped around |
| `Text.DecimalRoundTrip` | rust/core/src/relay/credentials.rs:17-28 | printing a number and parsing it within a bound gives it back |
| `Vectors.KnownNumbers` | rust/core/src/relay/discovery_server.rs:51-63 | examples of what parses as an unsigned number: a leading plus and zeros do, blanks and signs do not |
| `TurnServer.CoveredIsSigned` | rust/core/src/relay/turn_server.rs:175-205 | on an encoded message the bytes the server authenticates are the bytes the client signed: the length patch is the identity |
| `TurnServer.IntegrityExactly` | rust/core/src/relay/turn_server.rs:165-205 | a message signed with any key that names user u passes if and only if its code equals the code under the key derived from u, realm and REST password |
| `TurnServer.HonestSignatureAccepted` | rust/core/src/relay/turn_server.rs:165-205 | every message signed with the REST password of the user it names passes |
| `TurnAuth.FindIsFirst` | rust/core/src/relay/stun.rs:260-266 | an attribute is found exactly if there is one of its kind, and then it is the first |
| `TurnAuth.VerifiedExactly` | rust/core/src/relay/turn_server.rs:175-205 | on all bytes that decode, the check accepts exactly those with a USERNAME, a MESSAGE-INTEGRITY attribute, and at the end the HMAC, under md5(user:realm:base64(HMAC(secret, user))), of all that precedes with the length patched |
| `TurnAuth.AllocateExactly` | rust/core/src/relay/turn_server.rs:220-259 | an Allocate is granted if and only if it asks for TCP, is signed in that sense, and names the user the connection first allocated for; otherwise 442, 401 or 441 |
| `TurnAuth.RefreshExactly` | rust/core/src/relay/turn_server.rs:268-279 | a Refresh is granted if and only if signed, else 401 |
| `TurnAuth.PermissionExactly` | rust/core/src/relay/turn_server.rs:281-309 | a CreatePermission is granted if and only if signed and naming an IPv4 peer, else 401 or 400 |
| `TurnAuth.ConnectExactly` | rust/core/src/relay/turn_server.rs:311-345 | a Connect is granted if and only if it names an IPv4 peer that accepts and is permitted on an allocation whose deadline exceeds the last clock reading; else 400, 403 or 447 |
| `TurnAuth.BindExactly` | rust/core/src/relay/turn_server.rs:349-382 | a ConnectionBind is granted if and only if a socket is parked under its id, else 400 or 437; the connection ends either way |
| `TurnAuth.UnsignedNeverAllocates` | rust/core/src/relay/turn_server.rs:175-259 | over every run, a connection none of whose requests carries MESSAGE-INTEGRITY never holds an allocation |
| `TurnAuth.SignedAllocate` | rust/core/src/relay/turn_server.rs:220-309 | over every run, behind each allocation there is a signed Allocate and behind each permission a later signed CreatePermission for that address |
| `TurnAuth.ErrorReads` | rust/core/src/relay/turn_server.rs:384-394 | code and reason of an error answer can be read back from it |
| `TurnAuth.BindingTells` | rust/core/src/relay/turn_server.rs:113-124 | a Binding is answered with the caller's own address |
| `TurnAuth.AllocateTells` | rust/core/src/relay/turn_server.rs:236-259 | a granted Allocate tells the external address with port 49152 plus the draw modulo 16384, and the lifetime in seconds, as 32 bits |
| `TurnAuth.ConnectionIdExactly` | rust/core/src/relay/turn_server.rs:311-345 | the connection id is the upper half of the 64-bit draw |
| `TurnAuth.DemuxExactly` | rust/core/src/relay/turn_server.rs:81-97 | connections starting with GET and a space or POST are HTTP, with BRIDGE and a space the bridge, all others TURN |
| `TurnLeases.AllocationStep` | rust/core/src/relay/turn_server.rs:103-142 | what one read does to each allocation: gone if its deadline has come, else changed only by a granted request and exactly so; and when the connection is dropped |
| `TurnLeases.DeadlineIsLastLease` | rust/core/src/relay/turn_server.rs:103-345 | over every run, each allocation's deadline is the time of the last granted request that leased it plus that request's lease, and no later clock reading on the connection has reached it |
| `TurnLeases.ConnectIsBacked` | rust/core/src/relay/turn_server.rs:311-345 | over every run, behind a granted Connect there are a signed Allocate, a later signed CreatePermission for the address, and a lease that had not run out |
| `TurnRuns.AllocationsAreJustified` | rust/core/src/relay/turn_server.rs:220-309 | in every reachable state each allocation was made by a verified Allocate nothing has replaced, and each permission in it by a later verified CreatePermission on the same connection |
| `TurnRuns.ConnectNeedsPermission` | rust/core/src/relay/turn_server.rs:311-345 | a Connect succeeds only if, earlier on its connection, a verified Allocate was followed by a verified CreatePermission for that address |
| `TurnRuns.SocketConservation` | rust/core/src/relay/turn_server.rs:311-382 | no peer socket goes to two ConnectionBinds or is both parked and bound; all parked sockets are accounted for if and only if no connection id was drawn while in use |
| `TurnRedraw.RedrawLosesSocket` | rust/core/src/relay/turn_server.rs:311-345 | a run of five inputs, for every honest client, in which a second Connect draws the id of a parked socket: that socket was parked, never bound, and is gone |
| `TurnClient.ChallengeAnswered` | rust/core/src/relay/turn_server.rs:220-259 | the unsigned Allocate is answered 401 with realm and nonce, as the client reads them, and allocates nothing |
| `TurnClient.SignedRequestChecked` | rust/core/src/relay/turn.rs:275-295 | a signed request decodes at the server to itself and is verified if and only if the two integrity codes agree |
| `TurnSecrets.ClientSigns` | rust/core/src/relay/turn.rs:275-295 | a signed request on the wire has user name, realm and nonce as they are and ends in the HMAC, under md5(user:realm:password), of all that precedes |
| `TurnSecrets.AnswerUnderstood` | rust/core/src/relay/turn.rs:377-391 | an answer counts only with the transaction id of the request |
| `TurnSecrets.ChallengeKnown` | rust/core/src/relay/turn.rs:313-322 | a challenge is an error response of code 401 and nothing else; other codes are reported as they are |
| `TurnSecrets.AnswerJudged` | rust/core/src/relay/turn.rs:393-402 | a step succeeds on a success response only; an error is reported with its code and reason |
| `TurnSecrets.StaleNonceRetried` | rust/core/src/relay/turn.rs:339-361 | 438 leads to a new challenge and one more signed attempt, success stands |
| `TurnClient.AllocateAnswered` | rust/core/src/relay/turn_server.rs:220-259 | a signed Allocate on a fresh session is granted exactly when the codes agree and is challenged otherwise |
| `TurnClient.PermissionAnswered` | rust/core/src/relay/turn_server.rs:281-309 | an honest CreatePermission while the allocation lives permits the peer's address on it and moves its deadline |
| `TurnClient.ConnectAnswered` | rust/core/src/relay/turn_server.rs:311-345 | a Connect to a permitted peer that accepts parks the socket under the id the client reads from the answer |
| `TurnClient.BindAnswered` | rust/core/src/relay/turn_server.rs:349-382 | a bind on a parked id hands over exactly that socket |
| `TurnClient.TrafficElsewhere` | rust/core/src/relay/turn_server.rs:81-142 | any traffic on other connections leaves a session alone, and a parked socket whose id it does not draw or bind |
| `TurnDial.RequestsAreTurn` | rust/core/src/relay/turn_server.rs:81-142 | no STUN request is mistaken for HTTP or a bridge header by the first-bytes test |
| `TurnDial.DialCompletes` | rust/core/src/relay/turn.rs:173-391 | a client whose password is the REST password of its user name completes challenge, Allocate, CreatePermission, Connect and ConnectionBind, whatever other connections do in between, and gets the socket opened for this very dial; given an IPv4 peer that accepts, no missed deadline and messages that fit the read buffers |
| `TurnSecrets.DialExactly` | rust/core/src/relay/turn.rs:173-269 | short of a hash collision at this very dial: it goes through if and only if the password is base64(HMAC(the relay's secret, user name)), and is rejected with 401 otherwise |
| `TurnSecrets.RefusedPeerIsReported` | rust/core/src/relay/turn.rs:222-245 | if only the peer refuses, an honest client is told 447 |
| `TurnDial.ShortNamesSuffice` | rust/core/src/relay/turn.rs:366-391 | a user name, realm and nonce of at most 4000 bytes together make every message of a dial fit the 8192- and 4096-byte read buffers |
| `TurnDial.WrongCodeIsRejected` | rust/core/src/relay/turn.rs:339-402 | a client whose code for the signed Allocate differs from the server's is rejected with 401, whatever the target and the later circumstances |
| `TurnNode.TurnProcess.Allocate` | rust/core/src/relay/turn_server.rs:220-259 | the in-place handler leaves the state and gives the reply of `HandleAllocate` |
| `TurnNode.TurnProcess.Refresh` | rust/core/src/relay/turn_server.rs:268-279 | the loop over allocations leaves the state of `HandleRefresh` |
| `TurnNode.TurnProcess.Permission` | rust/core/src/relay/turn_server.rs:281-309 | the loop over allocations leaves the state of `HandlePermission` |
| `TurnNode.TurnProcess.Connect` | rust/core/src/relay/turn_server.rs:311-345 | sessions, parked sockets and reply as `HandleConnect` gives them |
| `TurnNode.TurnProcess.ConnectionBind` | rust/core/src/relay/turn_server.rs:349-382 | takes the socket out of the parked ones and ends the connection's session, as `HandleBind` |
| `TurnNode.TurnProcess.Receive` | rust/core/src/relay/turn_server.rs:81-142 | one turn of a connection's loop is one `Step`; behind everything the process then holds its log shows a signed Allocate, signed CreatePermissions and the lease, no socket is handed out twice, and a Connect succeeds only with all three behind it |
| `TurnNode.Dialer.Challenge` | rust/core/src/relay/turn.rs:299-335 | takes over the realm of a 401, then its nonce; the realm stays even when the nonce is missing |
| `TurnNode.Dialer.AuthTransact` | rust/core/src/relay/turn.rs:339-361 | signs, sends, and on 438 challenges again and retries once |
| `TurnNode.Dialer.Dial` | rust/core/src/relay/turn.rs:173-269 | an honest client gets Ok and the socket the relay opened for this dial whenever the circumstances allow; otherwise the same errors in the same order as the specification |
| `Registry.TableIsAlive` | rust/core/src/relay/discovery_server.rs:44-49 | whatever the clock reads for each entry of each pass, the table holds exactly the log's current entries that no later call pruned, with their data |
| `Registry.RegistryIsLog` | rust/core/src/relay/discovery_server.rs:44-125 | with monotone time a fingerprint is listed exactly when its last registration is under 75 s old and no later one came from its address under another fingerprint |
| `Registry.ListedAddressesDistinct` | rust/core/src/relay/discovery_server.rs:111-125 | listed addresses are pairwise distinct |
| `Registry.Store.Retain` | rust/core/src/relay/discovery_server.rs:44-49 | the pass over the table drops exactly the entries that are 75 s old or more when it comes to them |
| `Registry.Store.HandleRegister` | rust/core/src/relay/discovery_server.rs:85-127 | 400, 401 or 200 in exactly the stated cases, 200 for 'Bearer ' and the HMAC password only; then the device is listed with its own fields and the address it was seen at, as the only entry under its fingerprint and at that address, and the list is what the log has alive |
| `Registry.Store.HandleList` | rust/core/src/relay/discovery_server.rs:130-136 | the list is exactly what the log has alive; with monotone time, exactly the registrations under 75 s old that no later one replaced or evicted |
| `Bridge.InvAlways` | rust/core/src/relay/turn_server.rs:491-571 | over every interleaving, registry entries belong to waiting or paired listeners of their key, queues hold at most one sender, and senders only touch listeners of the key they asked for |
| `Bridge.SenderLaw` | rust/core/src/relay/turn_server.rs:541-571 | what each event does to each sender |
| `Bridge.ListenerLaw` | rust/core/src/relay/turn_server.rs:505-540 | what each event does to each listener |
| `Bridge.NewcomerLaw` | rust/core/src/relay/turn_server.rs:505-571 | a new listener takes the key over; a new sender gets hold of whoever has it at that moment |
| `Bridge.SplicesMatch` | rust/core/src/relay/turn_server.rs:491-571 | a splice joins a sender whose CONNECT for a fingerprint took effect with a listener whose LISTEN for it did |
| `Bridge.ConnectionsSplicedOnce` | rust/core/src/relay/turn_server.rs:491-571 | no connection is in two splices, on either side |
| `Bridge.SplicedExactly` | rust/core/src/relay/turn_server.rs:491-571 | for every run and every sender on its way to a listener: some continuation splices the two if and only if the listener still waits with nobody else in its channel; otherwise no continuation splices that sender at all |
| `Bridge.RegistryIsLastListen` | rust/core/src/relay/turn_server.rs:512-537 | a key is registered if and only if some LISTEN registered it with no later registration or clean-up of that key; that LISTEN is unique and its listener is the registered one |
| `Bridge.NewestListenerRegistered` | rust/core/src/relay/turn_server.rs:505-540 | the newest listener of a key, while it waits, is registered if and only if no older listener of the key has cleaned up since it registered |
| `Bridge.NewestListenerCanBeUnregistered` | rust/core/src/relay/turn_server.rs:519-537 | a run of seven steps in which the newest, still waiting listener is unregistered |
| `QuicHttp.EncodeHead` | rust/core/src/relay/quic.rs:340-354 | writes the head whose lines the reader finds |
| `QuicHttp.HeadEndsAtBlank` | rust/core/src/relay/quic.rs:117-163 | in an encoded head, followed by anything, the first blank line is the head's own end |
| `QuicHttp.ServeStream` | rust/core/src/relay/quic.rs:117-170 | the two reading loops compute `Serve` of the chunks, a read of no bytes ending the stream, or nothing when the head is cut short |
| `QuicHttp.RequestArrives` | rust/core/src/relay/quic.rs:117-170 | however the stream is cut, the server recovers method, path, content type, length and body |
| `QuicHttp.ReplyRoundTrip` | rust/core/src/relay/quic.rs:364-395 | decoding the server's reply returns its status and body for every body, and drops what follows the announced length |
| `QuicLaws.HeadSpelled` | rust/core/src/relay/quic.rs:340-354 | the head a client sends, as text |
| `QuicLaws.FieldsReadInAnyCase` | rust/core/src/relay/quic.rs:144-157 | however a field name is capitalised its value is taken; a length that is no 64-bit number counts as zero |
| `QuicLaws.OthersPassedOver` | rust/core/src/relay/quic.rs:144-157 | any other field is passed over |
| `QuicLaws.BodyExactly` | rust/core/src/relay/quic.rs:158-170 | the body is what the stream brings up to and including the first read that reaches the announced length, or up to its end |
| `QuicLaws.MissingWords` | rust/core/src/relay/quic.rs:136-141 | missing words of the request line default to GET and the root |
| `Vectors.KnownSpaces` | rust/core/src/relay/quic.rs:136-157 | the characters that separate words and are trimmed |
| `Vectors.KnownLosses` | rust/core/src/relay/quic.rs:134-134 | how the lossy decoder replaces malformed bytes |
| `Vectors.KnownCharacters` | rust/core/src/relay/quic.rs:340-354 | a character of each length in UTF-8 |
| `SessionActor.Summarize` | rust/core/src/session.rs:113-138 | a summary lists each file once, sorted by name |
| `SessionActor.Actor.BroadcastIndex` | rust/core/src/session.rs:254-258 | publishes the id-sorted summaries of exactly the current sessions |
| `SessionActor.Actor.SetFileState` | rust/core/src/session.rs:271-294 | the effect on the session, with the index current afterwards unless nothing changed |
| `SessionActor.Actor.AcceptPending` | rust/core/src/session.rs:462-506 | one pass over the files sets the unchosen to Skip, collects the chosen ones' tokens, emits the events and sends the decision |
| `SessionActor.Actor.StartFileIn` | rust/core/src/session.rs:555-616 | refusals in the source's order; otherwise the file goes to Transfer |
| `SessionActor.Actor.HandleMessage` | rust/core/src/session.rs:355-678 | every message, on every path, computes `Next` and the reply and leaves the published index equal to the index of the sessions; after any history the receive limit and the tokens hold, after a disciplined one lifecycle, decisions and uploads |
| `SessionIndex.SortKeys` | rust/core/src/session.rs:113-138 | sorts keys by name: every key once, in order |
| `SessionIndex.IndexUnique` | rust/core/src/session.rs:254-258 | the index is determined by the sessions up to the order of equally named files: same sessions in the same places, same files, same sequence of file names |
| `SessionRuns.OthersUntouched` | rust/core/src/session.rs:355-678 | a message for one session changes no other |
| `SessionRuns.InactiveForever` | rust/core/src/session.rs:140-146 | after leaving Pending and Transfering, no message sequence changes state, files, decisions or cancel token |
| `SessionRuns.ReceiveLimit` | rust/core/src/session.rs:357-371 | active receive sessions never exceed the limit, for any messages |
| `SessionRuns.AlwaysOk` | rust/core/src/session.rs:355-678 | lifecycle, decision, token and upload invariants hold together in every state a disciplined run reaches, for the uploads begun in it |
| `SessionRuns.LifecycleAlways` | rust/core/src/session.rs:260-353 | in every disciplined run: Finished means a nonempty file set all Finish or Skip; an active session with files has an unsettled one; Fail occurs only in Failed; the token is tripped exactly in Failed or Canceled |
| `SessionLaws.StateLaw` | rust/core/src/session.rs:260-353 | a live session becomes Failed exactly on a failure, a failed file or that report, Canceled exactly on Cancel, Decline or that report, Finished exactly when that is reported or all its files are Finish or Skip after a report or acceptance; what is not live stays |
| `SessionLaws.FilesLaw` | rust/core/src/session.rs:271-294 | which message changes which file to which state, and that nothing else does |
| `SessionLaws.FailureAnnounced` | rust/core/src/session.rs:315-336 | a failure is announced as Failed with its reason, trips the token and turns away a waiting request |
| `SessionLaws.FileFailureAnnounced` | rust/core/src/session.rs:271-294 | so is a file's failure, after the file's own event |
| `SessionLaws.CancelAnnounced` | rust/core/src/session.rs:338-353 | a cancellation is announced without a reason |
| `SessionLaws.EventsLaw` | rust/core/src/session.rs:260-294 | what every other message announces, event by event |
| `SessionLaws.AcceptEvents` | rust/core/src/session.rs:474-506 | acceptance announces every skipped file once, then Transfering, then the end if nothing is left |
| `SessionLaws.OfferLaw` | rust/core/src/session.rs:357-418 | an offer beyond the limit is refused and changes nothing; otherwise the session is as offered, pending, with a token for each file and a request waiting |
| `SessionLaws.SendLaw` | rust/core/src/session.rs:419-461 | a session to be sent has exactly the files of its entries, the last entry under an id standing |
| `SessionLaws.LabelLaw` | rust/core/src/session.rs:535-554 | route and relay labels: the last route marked stands, a relay turns local into turn |
| `SessionLaws.RelayedExactly` | rust/core/src/session.rs:535-554 | over every run, a session is marked as relayed exactly if some message marked it |
| `SessionLaws.AnswerLaw` | rust/core/src/session.rs:462-616 | in every run, the answer to a decision or a start, with the reason of each refusal and the file a token opens |
| `SessionRuns.DecisionAlways` | rust/core/src/session.rs:391-534 | the decision slot is held exactly while a receive session is pending, and one decision was sent once it is not |
| `SessionRuns.LeavingPending` | rust/core/src/server.rs:399-443 | in every disciplined run from an empty actor, the step that leaves Pending sends Accepted, Declined or Canceled according to the message, matching the new state |
| `SessionRuns.TokensAlways` | rust/core/src/session.rs:373-389 | for arbitrary messages, token index and file tokens of every receive session are inverse to each other |
| `SessionRuns.UploadsWereGranted` | rust/core/src/session.rs:462-616 | in every disciplined run the tokens handed out are those of the files not skipped, and every token StartFile took in that run is one of them |
| `SessionRuns.AcceptInRun` | rust/core/src/session.rs:462-513 | in every disciplined run, Accept hands out exactly the chosen files' tokens, sets exactly the others to Skip, and each token handed out opens its own file |
| `SessionRuns.StartInRun` | rust/core/src/session.rs:555-616 | for arbitrary messages: in a transferring receive session StartFile takes exactly the tokens of files that are not terminal, and opens the one file the token was issued for and nothing else |
| `SessionRuns.StartTakesGranted` | rust/core/src/session.rs:555-616 | in every disciplined run, once accepted, StartFile takes only tokens handed out, each for its file, exactly while the session is transferring and the file not terminal |
| `SessionRuns.SkippedForGood` | rust/core/src/session.rs:462-632 | in every disciplined run from an empty actor, a skipped file stays Skip and its token opens nothing, whatever follows |
| `CliState.SnapshotPlusEvents` | rust/cli/src/state.rs:61-122 | for arbitrary messages, folding the events emitted since any snapshot into its view gives the session's current state and every file's |
| `CliLaws.CountersFollow` | rust/cli/src/state.rs:112-116 | for arbitrary messages, folding the events since into a card leaves each file's counter at the count last reported for it in the run, or where it was |
| `CliLaws.CountersSinceSnapshot` | rust/cli/src/state.rs:61-122 | from a snapshot, each counter is the count last reported since, or zero |
| `CliLaws.EventLaw` | rust/cli/src/state.rs:101-122 | what each event does to the state and the failure reason a card shows |
| `CliLaws.ReasonShown` | rust/cli/src/state.rs:101-122 | for every run in which a message gives a reason for failing a live session, the session is Failed from then on and every card shows that reason |
| `CliLaws.SnapshotDescribes` | rust/cli/src/state.rs:61-81 | a card names session, direction, peer and files as they are, over every run |
| `CliLaws.RefreshDescribes` | rust/cli/src/state.rs:85-99 | and a refresh leaves that alone |
| `CliState.KeepsUpExactly` | rust/cli/src/state.rs:101-122 | the reducer keeps up with an active session, whatever it is told next, if and only if each file is stored under its info's id |
| `CliState.CountersSurvive` | rust/cli/src/state.rs:85-99 | a refresh changes no byte counter and drops no file |
| `CliState.RefreshAgrees` | rust/cli/src/state.rs:85-99 | one refresh makes a stale view agree again |
| `CliApp.App.ApplyIndex` | rust/cli/src/state.rs:163-177 | exactly the index's uncleared sessions are shown, in the source's order, each refreshed or new |
| `CliApp.App.ApplyEvent` | rust/cli/src/state.rs:179-183 | the reducer runs on the card of that session and on no other |
| `CliApp.App.ApplyFeed` | rust/cli/src/state.rs:179-183 | events of several sessions, one after the other |
| `CliApp.App.CycleFocus` | rust/cli/src/state.rs:189-196 | focus moves by the amount modulo the number of cards, also backwards |
| `CliApp.App.ClearTerminal` | rust/cli/src/state.rs:208-222 | clears exactly the finished, failed and canceled cards, for good, keeping the order of the rest |
| `CliSync.IndexIsShown` | rust/cli/src/state.rs:163-177 | after the actor's index, exactly the uncleared sessions have a card, and every card agrees with its session however stale it was |
| `CliSync.FeedIsShown` | rust/cli/src/state.rs:101-122 | cards that agree still do after the events emitted during any run of the actor, in any interleaving of the sessions |
| `CliSync.Watch` | rust/cli/src/state.rs:163-183 | an index followed by the events since leaves every uncleared card agreeing with the actor as it now is |
| `CliSync.CardsForNext` | rust/cli/src/state.rs:85-99 | whatever the actor does next, the cards remain fit to be refreshed by the next index |
| `SendDriver.RunSendDriver` | rust/core/src/handle.rs:1436-1517 | the loop tells the actor exactly the driver's reports, and a session created for these entries ends as `DriverEnds` says |
| `SendDriver.Projection` | rust/core/src/session.rs:355-678 | whatever else the actor is told, short of a cancel or fail, a send session ends where its driver's reports take it |
| `SendDriver.DriverEnds` | rust/core/src/handle.rs:1436-1520 | empty response: Finished, all Skip; a failed upload: Failed, earlier files Finish, later ones pending; otherwise Finished exactly if the response names every offered file, else Transfering |
| `SendDriver.SendRun` | rust/core/src/handle.rs:1424-1520 | the same for a send session from its creation on, in any run of the actor |
| `SendDriver.NothingAfterTheBreak` | rust/core/src/handle.rs:1497-1516 | no file behind the first failed upload is ever reported |
| `TransferEnds.ReceiverMirrors` | rust/core/src/server.rs:505-565 | through its tokens the receiver's session goes exactly the way of a sender's that uploads the same files |
| `TransferEnds.BreakLeads` | rust/core/src/server.rs:505-581 | what a failed upload leaves at the receiver, for every mix of request reached or not, handler's report before or after the cancel or none, cancel delivered or lost |
| `TransferEnds.ReceiverEnds` | rust/core/src/server.rs:505-581 | every file's state and the session's: Finished without a failure; Failed iff its own handler reported Fail before the cancel; Finished iff it had received the last file; else Canceled, or Transfering if the cancel was lost |
| `TransferEnds.BothEnds` | rust/core/src/handle.rs:1436-1520 | files before the first failure Finish at both ends; a failure leaves the sender Failed at that file and the receiver as above; without one the receiver is Finished, the sender Finished exactly if all files or none were chosen, else Transfering |
| `TransferRuns.CoreProjection` | rust/core/src/session.rs:355-678 | in every run of the actor, every session ends, apart from events and labels, where the messages addressed to it alone would take it |
| `TransferRuns.TransferAcrossRuns` | rust/core/src/server.rs:385-581 | the same two ends for any run of the sending actor and any run of the receiving actor, from creation of both sessions on, whatever else the two are doing |
| `LanTest.PrefixTestIsRangeTest` | rust/core/src/handle.rs:1114-1127 | on every canonical dotted quad the prefix test is the numeric range test |

## Left out

- Sockets, TLS, QUIC handshakes, multicast discovery, timeouts and file writing; their outcomes are parameters.
- Route choice, hole punching and bridge dialling in `handle.rs`: network outcomes with few invariants across functions.
- `rust/ffi`, generated code, the Dart, Swift, C++ and Kotlin front ends, the TUI and the panel with its own registry.
- Queries that change nothing (session events, cancel token, get session, listen index) and speed and ETA fields.
- JSON decoding and the header line of the bridge: the model starts from decoded values.
- The index and each session's events travel over watch channels that keep only their latest value. The model has the value published and the events emitted; results about views (SnapshotPlusEvents, Watch) are about emitted events, not about what a slow observer may have missed.
- Views in the CLI's list and sessions in the maps of actor and relay server are values that are replaced; aliasing of mutable references is not captured.
- SendDriver.SendRun: does not follow a driver that is cancelled half-way; `SessionRuns.InactiveForever` covers the session from there on.
- TransferEnds.BothEnds: the driver's own cancel is modelled; a cancel or other message by a user or a third party on either session is not.
- QuicHttp.RequestArrives: stops at the request handed to the router; the router's handling is not modelled.
