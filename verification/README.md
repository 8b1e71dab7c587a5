# A verified model of proxydge

proxydge is a gateway that puts PROXY protocol headers in front of TCP connections and UDP
datagrams. This project models its core and proves what it is for: the original client address
reaches the downstream, only trusted peers may claim one, and sessions, sockets and counters
stay right while timers, readers and creators interleave.

`dafny verify dfyconfig.toml` checks everything.

## How the model is built

| File | What it holds |
|---|---|
| `Basics`, `Bits`, `Net` | counting map entries; bit and division arithmetic; IP addresses in 4-byte, 16-byte and mapped form |
| `ProxyProto`, `Datagram` | headers, families, rebuilt headers, and the version 2 datagram codec |
| `Trust`, `Decide` | CIDR matching, and the trust and policy decision |
| `SessionKey`, `UdpFlow` | the UDP datagram pipeline as a transducer from events to sessions and upstream writes |
| `UdpInterleaving` | handleDatagram and Create operation by operation, with the steps of any expiry in every gap: each interleaving is a run of the transducer |
| `UdpHistory`, `UdpArrivals`, `UdpClaims`, `UdpSessions`, `UdpPolicy`, `UdpErasure`, `UdpOutput` | theorems about whole runs of the transducer |
| `UdpGateway` | session, manager and gateway as classes updated in place, each method proved against the transducer |
| `SessionMachine`, `SessionSafety`, `SessionCreation`, `SessionShutdown`, `SessionProgress`, `SessionRuns` | the session lifecycle under every interleaving, one atomic operation per step; what holds, that nothing gets stuck, and runs on which more does not hold |
| `SessionRefinement` | every run of that machine with one receive loop projects to a run of the transducer |
| `TcpServe`, `Pipe`, `TcpHandle` | the connection cap, the two copy loops, and the handling of one connection end to end |

The UDP side is modelled twice, because it has two hard parts. `UdpFlow` handles one datagram at a
time, as the receive loop does, and lets an expiry run step by step (done closed, stored source
cleared, socket closed, entry deleted, slot given back) between datagrams; inside a datagram the
expiry of the session in use may reach any of the first three steps by each of five points.
`UdpInterleaving` proves that these five points are enough: it takes handleDatagram and Create
apart into their operations on shared state and lets steps of other goroutines happen in every
gap. `SessionMachine` has no datagrams; it has any number of concurrent creators, timers, readers
and one `ExpireAll` (whose `Range` promises no more than `sync.Map` does), and one step for each
`count.Load`, `count.Add`, `LoadOrStore`, `Delete`, `close(done)` and `upstream.Close`.
`SessionRefinement` relates the two on what they share: keys, done flags, sockets and the counter
of sessions made by one receive loop, under a policy that accepts headerless datagrams.

Assumptions, each visible in the model:

- A session's idle timer does not fire before its own `Create` is past `LoadOrStore` (and, for the
  loser of a creation race, before its own once block). The timer is armed earlier than that, at
  internal/udp/session.go:99. `Config.early` lifts the assumption; `EarlyTimerStoresDeadSession` and
  `EarlyTimerDeletesWinner` are runs that need it.
- `ReadFromUDP` yields peers with a 4- or 16-byte address (`UdpFlow.Sound`).
- For a header whose family carries its addresses, the library encodes section 2.2 of "The PROXY
  protocol Versions 1 & 2" without TLVs. What it does with other headers is an arbitrary function
  (`Coercion`); every theorem holds whatever that function is.
- For a TCP version 2 frame, the library's stream reader yields its addresses and consumes
  exactly the frame; where it finds no header it has only peeked (`TcpHandle.Reads`).

## What the proofs found

- After `ExpireAll` returns, with no creator in flight, the map is empty and every socket is
  closed, but the counter may still be positive: an expiry run by a timer can be between
  `sessions.Delete` and `count.Add(-1)`, where `Range` no longer sees its session and `wg.Wait`
  does not wait for it. `AfterExpireAll` says the counter is zero if and only if there is no such
  expiry; `CountAfterExpireAllMayLag` is a run where there is one, and
  `CountZeroAfterOrderlyExpireAll` names the schedules that have none. The repository's tests expect
  zero (internal/udp/manager_concurrent_test.go:66-69), with timers too long to interfere.
- For the same reason a creator that is alone is refused exactly when the stored sessions and the
  deleted ones not yet counted off reach the limit, not the stored ones alone
  (`RefusedExactlyWhenFull`); `RefusedOverAnEmptyMap` is a run where the map is empty.
- A headerless datagram can go out under the gateway-side socket address although its session
  has stored a claim: it finds the session not done, an expiry clears the stored source before the
  datagram looks it up (internal/udp/session.go:130, internal/udp/gateway.go:198), and the socket is
  closed only after the write (internal/udp/session.go:132, internal/udp/gateway.go:292).
  `SocketHeaderAfterClaim` is such a run. `HeaderlessUsesFirstClaim` and `SentAsPromised` say if
  and only if when a datagram gets, and the upstream sees, the promised header;
  `OtherHeaderIsTheLast` and `PromiseKept` confine the race to policy use with every_datagram, and
  to the last datagram of a session. Under require such a datagram is dropped instead
  (`PolicyFromStart`).
- With no TCP connection cap the counter is only ever decremented (`UncappedCounterFalls`),
  although its comment at internal/gateway/gateway.go:105 says that it is incremented at accept.
- `keyFromUDPAddr` gives a peer without an address the key of `::`, and a trust list may trust `::`
  without trusting the other (`KeyOfNoAddress`). For two peers with addresses a shared key always
  means shared trust (`SameKeySameTrust`).
- In first_datagram mode `headerSent` is set before the header is formatted. If formatting fails,
  the header of that session is never sent and all later payloads go out bare
  (`FirstDatagramDelivers` states both cases).
- Standard and code differ in one place: the datagram parser refuses the LOCAL command. The model
  follows the code.

## Model

| member | source | states |
|---|---|---|
| SessionSafety.StepKeeps | internal/udp/manager.go:47-94 | Every atomic step of any creator, expiry, reader or ExpireAll keeps the invariant: map and live sessions determine each other, every attempt is consistent, the counter is accounted for. |
| SessionSafety.Accounting | internal/udp/manager.go:57-94 | In every reachable state the counter is the map size plus slots reserved and not stored, race losers and overshooters not rolled back, and entries deleted and not decremented; with a positive limit the map never exceeds it. |
| SessionSafety.Balanced | internal/udp/manager.go:57-94 | Each step moves the counter by exactly what it moves in slots held, and a slot is only taken while that stays within the limit. |
| SessionSafety.QuietCount | internal/udp/manager.go:106-109 | With no creator in flight the counter exceeds the map by the deletions not yet counted off, and equals its size if and only if there is none. |
| SessionSafety.DeleteOwnEntry | internal/udp/manager.go:89-94 | Deleting by key removes the expiring session's own entry and leaves every other entry alone; a race loser never gets there. |
| SessionSafety.SocketConservation | internal/udp/session.go:126-137 | Every dialled socket is closed at most once; the open ones are those of attempts in flight and of stored sessions whose expiry has not come to the close. |
| SessionSafety.OneSessionPerKey | internal/udp/manager.go:70-94 | Two sessions under one key, both published and not yet deleted, are the same session, and the map holds it. |
| SessionSafety.LoserGetsTheStoredSession | internal/udp/manager.go:71-83 | Whoever loses a creation race is given another session, one that was stored under the same key; its own socket is closed once and its reader never started. |
| SessionShutdown.AfterExpireAll | internal/udp/manager.go:96-104 | When ExpireAll returns and nobody dialled since no creator was in flight: empty map, no reader, every socket closed once, and a counter of zero if and only if no expiry is between its deletion and its decrement. |
| SessionShutdown.CountZeroAfterOrderlyExpireAll | internal/udp/manager.go:96-104 | If no expiry was under way at the call and only Range entered one until the return, the counter is zero. |
| SessionProgress.CreatorsGoOn | internal/udp/manager.go:47-87 | In every reachable state every creator in flight has its next step. |
| SessionProgress.ExpiriesGoOn | internal/udp/session.go:126-137 | Every published session can expire, and an expiry that has begun has its next step. |
| SessionProgress.ExpireAllGoesOn | internal/udp/manager.go:98-104 | ExpireAll, called with no creator in flight, has a next step until it returns, as long as nobody dials. |
| SessionRuns.CountAfterExpireAllMayLag | internal/udp/manager.go:91-104 | A run on which ExpireAll returns, with no creators, while the counter is one. |
| SessionRuns.RefusedOverAnEmptyMap | internal/udp/manager.go:57-60 | A run on which a creator without competition is refused although the map is empty. |
| SessionCreation.LoadDecides | internal/udp/manager.go:57-69 | In every reachable state, a creator with no competition is refused at its count.Load if and only if stored sessions and pending decrements fill the limit. |
| SessionCreation.AddNeverOvershoots | internal/udp/manager.go:61-66 | However many expiries run between its count.Load and its count.Add, a creator that nobody joins reserves a slot and never overshoots. |
| SessionCreation.RefusedExactlyWhenFull | internal/udp/manager.go:57-86 | Whatever expires meanwhile, in every run that nobody else dials in, a creator is refused if and only if the slots were all taken at its count.Load; otherwise, if its key was free then, it can only go on to store its own session, which stays stored until its own deletion. |
| SessionCreation.PublishDecides | internal/udp/manager.go:70-86 | With any number of creators about: on a free key LoadOrStore stores the session; on a taken one the creator is given another session, stored under that key and not yet deleted; the counter stays. |
| SessionRuns.EarlyTimerStoresDeadSession | internal/udp/session.go:99 | Without the timer assumption a dead session gets stored, its expiry spent and no slot counted for it. |
| SessionRuns.EarlyTimerDeletesWinner | internal/udp/manager.go:71-83 | Without the timer assumption a race loser's expiry deletes the winner's entry. |
| SessionRefinement.RefusedStep | internal/udp/gateway.go:236-246 | For a creator from the receive loop, the refusing count.Load is a datagram that the transducer drops at capacity. |
| SessionRefinement.PublishStep | internal/udp/gateway.go:236-254 | Its LoadOrStore is a datagram that the transducer accepts if the session gets stored, and drops if an expiring entry is in the way. |
| SessionRefinement.StepRefines | internal/udp/manager.go:47-94 | Every atomic operation that one receive loop allows is at most one event of the transducer, on the same keys, phases of expiry and counter. |
| SessionRefinement.PhaseStep | internal/udp/session.go:126-132 | Closing done, clearing the source and closing the socket are one event of the transducer each. |
| SessionRefinement.LoopRunsAreTransducerRuns | internal/udp/gateway.go:122-154 | Every run of the session machine with one receive loop, and all its timers, readers and ExpireAll, projects to a run of the transducer with the same keys, done flags, open sockets and counter. |
| UdpInterleaving.InterleavingIsWhole | internal/udp/gateway.go:183-299 | Whatever other goroutines' expiries do, to any session, between the operations of a datagram (the lookup, count.Load, count.Add, LoadOrStore, the check after Create, the store, the swap, the write, the refresh), the transducer handling it whole, at five phases, gives the same state, record and write; the others' steps keep their order. |
| UdpInterleaving.InterleavingIsRun | internal/udp/gateway.go:175-300 | So every interleaved datagram is a run of the transducer: some steps of others, the datagram, the other steps. |
| UdpInterleaving.DeliverIsForward | internal/udp/gateway.go:262-299 | Steps 7 to 10, with a gap before each of the store, the swap, the write and the refresh, do to the session in hand what the transducer does at once, even if its entry is deleted meanwhile. |
| UdpInterleaving.OthersSameBut | internal/udp/session.go:126-137 | Steps of others that have nothing left to do to a session commute with changing it. |
| UdpHistory.StepKeeps | internal/udp/gateway.go:175-300 | Every event keeps the reading of the state as a cache of history, and emits a record and a write that history dictates. |
| UdpHistory.StateRefinesHistory | internal/udp/gateway.go:183-204 | After any events, every live session stores exactly the first accepted claim of its incarnation, every datagram went out under the header its history dictates, and the writes are a function of the records. |
| UdpHistory.FirstClaimIsFirst | internal/udp/gateway.go:262-267 | The claim that history gives an incarnation is the one at the least position that has any, and there is none if no position has. |
| UdpClaims.HeaderlessUsesFirstClaim | internal/udp/gateway.go:183-222 | In every run from the start a headerless datagram gets the header of the first accepted PROXY datagram of its incarnation, or the socket-derived header if there is none, if and only if the stored source is not cleared between the check of done and its lookup or the two headers are the same; if it is cleared there, it gets the socket-derived header. |
| UdpClaims.OtherHeaderIsTheLast | internal/udp/session.go:126-137 | A headerless datagram with any other header takes policy use and a source cleared before its lookup, and is the last datagram of its incarnation. |
| UdpClaims.SentAsPromised | internal/udp/gateway.go:269-292 | What the upstream is sent for a headerless datagram is what that header calls for, if and only if the source was not cleared first, or the socket was closed before the write, or the mode is first_datagram, or the frame is the same. |
| UdpClaims.PromiseKept | internal/udp/gateway.go:206-292 | Under require and reject, and in first_datagram, every headerless datagram is sent as promised. |
| UdpClaims.SocketHeaderAfterClaim | internal/udp/gateway.go:190-292 | A family of runs, for every consistent claim of a trusted IPv4 peer and without a size limit, on which a frame with the socket-derived header follows the claim on the same socket. |
| UdpSessions.OneClientPerIncarnation | internal/udp/session.go:27-33 | In every run from the start, peers that differ in address, port or zone never share a session. |
| UdpSessions.AcceptedExactly | internal/udp/gateway.go:144-259 | A datagram is accepted and given a session if and only if it is no longer than the limit, parses, is allowed, and its peer has a live session or can be given one, with a limit of zero meaning none. |
| UdpSessions.DatagramKeepsAlive | internal/udp/gateway.go:298-299 | A datagram sets the idle deadline of its own session and of no other, to a full idle time from now, if something could be sent for it and the session is not done; dropped datagrams and failed formatting move no deadline. |
| UdpSessions.ResponseKeepsAlive | internal/udp/session.go:142-169 | A response does so for a live session; the steps of an expiry move no deadline. |
| UdpSessions.DeadlineFollowsLastUse | internal/udp/session.go:115-122 | In every run from the start the deadline of a live session is a full idle time after its last use. |
| UdpSessions.EntryGoesLast | internal/udp/session.go:126-137 | An entry leaves the map only by the deletion of its own expiry, and only once its socket is closed. |
| UdpSessions.ClearedOnce | internal/udp/session.go:126-132 | A stored source goes when an expiry passes the clearing, once; no other session and no other field is touched. |
| UdpHistory.VerdictExplained | internal/udp/gateway.go:183-222 | An accepted datagram's header is its own if a trusted peer claims it, else the first stored one if that is not cleared before the lookup, else the socket's. |
| UdpHistory.ExpiryRetires | internal/udp/session.go:126-137 | From the closing of done on, the incarnation is no longer the live session of any key. |
| UdpHistory.RetiredForever | internal/udp/session.go:126-137 | A retired incarnation never takes another datagram nor writes for one, so nothing stored in it, even by a store that raced with the expiry, is ever used. |
| UdpArrivals.RecordsAreArrivals | internal/udp/gateway.go:175-300 | A run adds exactly one record for each datagram that is accepted and given a session, in order, with its own peer, key, claim, payload and effective header; and no others. |
| UdpPolicy.StepKeepsPolicy | internal/udp/gateway.go:206-267 | Every event keeps: only trusted peers have a stored source; under require every live session has one; under reject none has. |
| UdpPolicy.PolicyOverRuns | internal/udp/gateway.go:206-267 | The same for every sequence of events. |
| UdpPolicy.PolicyFromStart | internal/udp/gateway.go:196-267 | In every run from the start an untrusted peer has no stored source, nobody has one under reject, and under require the next headerless datagram of a live session, if not oversized, is accepted under its stored source, if and only if that is not cleared before the lookup. |
| UdpPolicy.HandleIgnoresClaims | internal/udp/gateway.go:206-267 | For an untrusted peer, changing the addresses and ports it claims changes neither the verdict nor the sessions nor the write. |
| UdpPolicy.UntrustedClaimsDoNotInterfere | internal/gateway/decide.go:24-54 | Two runs that differ only in what untrusted peers claim accept and drop the same datagrams, hold the same sessions and make the same writes. |
| UdpErasure.DroppedLeavesResidue | internal/udp/gateway.go:175-246 | An oversized, malformed, denied or refused datagram emits nothing and leaves the state as it was, but for steps of an expiry that ran meanwhile. |
| UdpErasure.ErasureChangesNothing | internal/udp/gateway.go:144-148 | Deleting all dropped datagrams from any input leaves the final sessions, counter, idle deadlines, stored headers, records and writes unchanged. |
| UdpErasure.ErasureIsComplete | internal/udp/gateway.go:175-246 | After that deletion nothing is left to delete. |
| UdpOutput.WritesOfIncarnation | internal/udp/gateway.go:269-292 | For the accepted datagrams that find the socket still open, done or not, each socket carries one frame per datagram in every_datagram, and one frame followed by bare payloads in first_datagram, in order. |
| UdpOutput.EveryDatagramDelivers | internal/udp/gateway.go:269-292 | every_datagram: parsing the writes of an incarnation gives, for each datagram that was accepted and found its socket open, one for one and in order, the effective header and the payload that ParseDatagram found in it. |
| UdpOutput.FirstDatagramDelivers | internal/udp/gateway.go:276-289 | first_datagram: at most one framed datagram and nothing before it; a downstream that remembers the first header decodes that header with the payload of every accepted datagram; if the first formatting fails, one write is missing and all others are bare. |
| UdpOutput.ModeDoesNotMatter | internal/udp/gateway.go:269-289 | On the same input both modes have the same sessions, apart from header flags and deadlines, and the same accepted datagrams with the same headers. |
| UdpOutput.SameFlow | internal/udp/gateway.go:269-289 | Both modes accept the same datagrams of an input, incarnation by incarnation, under the same headers. |
| UdpOutput.ModesDecodeAlike | internal/udp/gateway.go:269-289 | The two decodings of an incarnation are equal if and only if its effective header never changed. |
| UdpGateway.UDPSession.Refresh | internal/udp/session.go:115-122 | Moves the deadline of a live session; a done session is left alone. |
| UdpGateway.UDPSessionManager.StrikeAt | internal/udp/session.go:126-132 | A concurrent expiry as far as done, the cleared source or the closed socket is the transducer's, on the one session it concerns, each step at most once. |
| UdpGateway.ExpireInOneGo | internal/udp/session.go:126-137 | An uninterrupted expiry is its steps in sequence: the entry and one slot are gone. |
| UdpGateway.UDPSessionManager.Create | internal/udp/manager.go:47-87 | Refused exactly at capacity, with nothing changed; on a taken key the stored session and nothing changed; otherwise a fresh stored session and one more slot. |
| UdpGateway.UDPSessionManager.Expire | internal/udp/session.go:126-137 | Idempotent; the first time, the session is done and its entry and slot are gone, no other session touched. |
| UdpGateway.UDPSessionManager.ExpireAll | internal/udp/manager.go:98-104 | Every session ends up done, every entry not already expiring is gone, and slots fall with entries. |
| UdpGateway.UDPGateway.Look | internal/udp/gateway.go:183-209 | The live session of the peer, if it has one, and the verdict of the transducer, however far that session's expiry gets after the check of done. |
| UdpGateway.UDPGateway.Enter | internal/udp/gateway.go:230-254 | A session for a peer without a live one, or none exactly if the dial fails, the limit is reached, an expiring entry is in the way or the new session expires at once. |
| UdpGateway.UDPGateway.Forward | internal/udp/gateway.go:262-299 | Steps 7 to 10 in place, with an expiry as far as it may be by the store, the write and the refresh: the new session value, and a write if and only if there is something to send and the socket is open. |
| UdpGateway.UDPGateway.ForwardInPlace | internal/udp/gateway.go:262-299 | Seen from the manager, exactly the transducer's forwarding step. |
| UdpGateway.UDPGateway.HandleDatagram | internal/udp/gateway.go:175-300 | Handling a datagram in place is exactly the transducer's step, on the state and on the writes, for any phases of an expiry at its five points. |
| UdpGateway.UDPGateway.Receive | internal/udp/gateway.go:132-152 | Through the shared buffer a datagram is handled as it was sent, or dropped whole if oversized. |
| UdpGateway.UDPGateway.Serve | internal/udp/gateway.go:122-154 | The loop over one reused buffer is the transducer's run over the datagrams sent and over what readers and expiries do between and inside them; it ends at the first closed listener, cleanly, or the first error that is not transient, and at nothing else. |
| UdpGateway.TurnCounts | internal/udp/gateway.go:132-153 | As long as nothing ends the loop, every datagram and every step of others counts, in order. |
| UdpGateway.TransientIsNothing | internal/udp/gateway.go:137-141 | A transient error is as if it had not been. |
| UdpGateway.NothingAfterTheEnd | internal/udp/gateway.go:134-142 | Nothing is read after a closed listener or any other error. |
| SessionKey.KeyTrust | internal/udp/session.go:27-33 | Every trust checker treats a peer with an address exactly as the address in its key. |
| SessionKey.SameKeySameTrust | internal/udp/session.go:27-33 | Peers that share a key, both with or both without an address, are trusted alike by every trust checker. |
| SessionKey.KeyOfNoAddress | internal/udp/session.go:28-31 | Whenever a peer with an address shares its key with one without, some trust checker tells them apart. |
| SessionKey.KeyExact | internal/udp/session.go:27-33 | Two peers with addresses have the same key if and only if they agree in address, up to its form, in port and in zone. |
| Datagram.ClassifyExactly | internal/proxyproto/goproxyproto/datagram.go:32-104 | The parser is total: V2 iff signature, 0x21, a known family byte, a length of at least 12 or 36 and a header that fits; an error iff a signature or the v1 prefix without that; otherwise direct and untouched. |
| Datagram.WireLayout | internal/proxyproto/goproxyproto/datagram.go:57-132 | Where header length, family, addresses and ports are in an accepted datagram, most significant byte first, and where its payload begins. |
| Datagram.MalformedBecause | internal/proxyproto/goproxyproto/datagram.go:46-100 | Which error a malformed datagram gives: the first defect in the order of the layout. |
| Datagram.SignatureBytes | internal/proxyproto/goproxyproto/datagram.go:22 | The two signatures are the ones that the standard spells. |
| Datagram.ParseFrame | internal/proxyproto/goproxyproto/datagram.go:57-132 | Parsing a frame of the standard gives back its header and payload, for every family, TLV area and payload. |
| Datagram.ParseIsLossless | internal/proxyproto/goproxyproto/datagram.go:57-132 | An accepted datagram is, byte for byte, the frame of its header, its TLV bytes and its payload. |
| Datagram.FormatThenParse | internal/proxyproto/goproxyproto/datagram.go:144-168 | Formatting a consistent header succeeds and parses back to the same header, up to the length of IPv4 addresses, and the same payload. |
| Datagram.PayloadFollows | internal/proxyproto/goproxyproto/datagram.go:144-155 | For every header, what precedes the payload in the encoding depends on the header alone, and the payload follows untouched. |
| Datagram.ReformatStable | internal/proxyproto/goproxyproto/datagram.go:144-168 | Parse, format, parse is parse on every accepted consistent datagram; only TLV bytes are dropped. |
| Datagram.ClaimOnlyChangesHeader | internal/proxyproto/goproxyproto/datagram.go:57-104 | Datagrams that differ only in claimed addresses and ports parse alike, with the same payload. |
| Deciding.DecideExact | internal/gateway/decide.go:24-54 | Exactly when a peer gets through, under which header (a vouched-for one unchanged, or the one rebuilt from the sockets), and with which reason. |
| Deciding.ClaimsUnread | internal/gateway/decide.go:31-40 | The verdict on an untrusted peer does not depend on what it claims. |
| Trust.MaskedIsPrefix | internal/gateway/trust.go:83-87 | Equality under a byte mask is equality of the integer quotients by the power of two that the mask clears. |
| Trust.ContainsExact | internal/gateway/trust.go:60-89 | A parsed entry contains an address iff their 128-bit prefixes agree, IPv6 prefixes shorter than 96 bits excepting IPv4 addresses. |
| Trust.NewTrustChecker | internal/gateway/trust.go:42-55 | Fails iff an entry does not parse; otherwise trusts exactly the addresses that some entry means, or everyone if there are no entries. |
| Trust.IsTrusted | internal/gateway/trust.go:79-89 | The search answers whether some network contains the address; no trust checker and an open one trust everyone. |
| Trust.FormsAgree | internal/gateway/trust.go:79-89 | The 4-byte and the mapped form of an address are trusted alike by every trust checker. |
| Trust.BareAcceptsItself | internal/gateway/trust.go:67-74 | A bare address accepts exactly that address. |
| Trust.MappedNet | internal/gateway/trust.go:60-65 | A mapped IPv6 network of at least 96 bits is the IPv4 network inside it. |
| Trust.NoAddressNoTrust | internal/gateway/trust.go:79-89 | A peer without an address is trusted only by an open trust checker. |
| Trust.OpenTrustsAll | internal/gateway/trust.go:79-82 | No checker, or one without networks, trusts everybody. |
| ProxyProto.RebuiltHeader | internal/proxyproto/proxyproto.go:114-168 | A header rebuilt from sockets has their ports, the source address, and the family of their transport and of that address; it is consistent unless an IPv6 peer meets a local address that is not IPv6; an IPv4 peer on an IPv6 listener gets 0.0.0.0. |
| ProxyProto.NoHeaderAcrossTransports | internal/proxyproto/proxyproto.go:123-139 | Addresses of different transports, or of neither, and only those, make an address-less header. |
| ProxyProto.GuardExact | internal/proxyproto/family.go:37-51 | The guard accepts exactly the address-less header and TCP headers whose family carries both addresses. |
| TcpHandle.GuardOnReaderOutput | internal/proxyproto/goproxyproto/reader.go:40-56 | On every header the reader yields the guard holds iff source and destination are of one family. |
| TcpHandle.Handle | internal/gateway/gateway.go:197-270 | The effects on a connection in order, every early return included; the client is always closed last, and the downstream is dialled iff a header survives. |
| TcpHandle.WriterNeverContradicted | internal/gateway/gateway.go:239-250 | Under reject and unknown the writer only sees the address-less or a consistent header; headers of one family, and all peers that share a family with the local address, pass unchanged; others are dropped or made address-less. |
| TcpHandle.BadHeaderDrops | internal/gateway/gateway.go:204-211 | A malformed header, or one of another transport, closes the connection under every configuration. |
| TcpHandle.ClaimOfAnyVersion | internal/proxyproto/goproxyproto/reader.go:44-56 | A trusted peer's claim of version 1 or 2, with addresses of one family, is refused under reject and only then; otherwise it goes on with its own addresses, ports and TCP family. |
| TcpHandle.WhoGetsThrough | internal/gateway/gateway.go:204-250 | Without mixed families, exactly who gets through, for every outcome of header detection. |
| TcpHandle.LegacyIsUnguarded | internal/gateway/gateway.go:239 | Under legacy whatever Decide lets through is written as it is. |
| TcpHandle.AddressLessFrame | internal/proxyproto/goproxyproto/writer.go:53-66 | The address-less form is the sixteen bytes of a LOCAL frame, which the datagram parser refuses for its command. |
| TcpHandle.WriteThenRead | internal/proxyproto/goproxyproto/writer.go:52-73 | Written in version 2 and read again, a consistent header is the same header and the stream behind it is untouched. |
| TcpHandle.SecondGatewayIsTransparent | internal/gateway/gateway.go:204-262 | A second gateway that trusts the first, under use or require, sends the same bytes on. |
| TcpHandle.ClaimGoesThrough | internal/gateway/gateway.go:204-262 | A trusted peer's consistent version 2 header leaves the gateway as it came, and nothing but its frame is consumed. |
| TcpHandle.SocketGoesThrough | internal/gateway/decide.go:31-51 | A peer that claims nothing, or whose claim is stripped, goes under its own address and port, with the address and port it connected to, unless addresses of two families are in play. |
| TcpHandle.EndToEnd | internal/gateway/gateway.go:197-270 | From the client's stream to the downstream's: a reader there finds the header that a trusted client sent, or the peer's own address and port, and behind it a prefix of what the client sent behind its own header, all of it after a clean end. |
| Pipe.ActConserves | internal/gateway/pipe.go:48-84 | No step of a copy loop loses, repeats or reorders a byte. |
| Pipe.PrefixSafety | internal/gateway/pipe.go:48-84 | In every interleaving what either end was given is a prefix of what the other sent, peeked bytes first, and all of it at a clean end; pipeStream returns only when both connections are half-closed. |
| Pipe.CloseWriteIsLast | internal/gateway/pipe.go:61-81 | A half-closed connection is given nothing more. |
| Pipe.ActIsLocal | internal/gateway/pipe.go:35-84 | A copy loop depends on and changes the read half of its source and the write half of its sink only. |
| Pipe.DirectionsAreIndependent | internal/gateway/pipe.go:24-84 | Although both loops use both connections, each behaves exactly as if it had them to itself: data, deadlines, failures and half-close of the other never reach it. |
| Pipe.TimeoutMeansSilence | internal/gateway/pipe.go:35-38 | From any state in which a loop calls Read, whatever happens then: it cannot time out before a full period has passed since that call; and as long as that call has not returned it can from then on, once the peeked bytes are used up. |
| Pipe.NoTimeoutUnlessAsked | internal/gateway/pipe.go:56-60 | Without an idle timeout nothing times out. |
| Pipe.CanDeliverAll | internal/gateway/pipe.go:48-84 | No side is ever stuck: from every state in which its loop has not ended it can still deliver everything its source has sent and will send, and end cleanly. |
| TcpServe.StepKeeps | internal/gateway/gateway.go:144-176 | Every step of the accept loop and of the handlers keeps: one connection in the loop at most, and a counter that is handlers plus unresolved accepts. |
| TcpServe.CapHolds | internal/gateway/gateway.go:158-175 | Under a cap, in every interleaving, never more handlers than the cap, and a counter that is the handlers plus at most one unresolved accept. |
| TcpServe.RefusedAtTheCap | internal/gateway/gateway.go:163-169 | A connection is refused if and only if as many handlers as the cap allows are there at that step. |
| TcpServe.OneFate | internal/gateway/gateway.go:163-174 | Every accepted connection gets exactly one handler or is closed without one, and is closed at most once. |
| TcpServe.CountDecides | internal/gateway/gateway.go:163-174 | For good and on every continuation, a connection is closed without a handler if and only if there is a cap and as many handlers as it allows were there when it was counted. |
| TcpServe.UncappedServesAll | internal/gateway/gateway.go:163-174 | Without a cap nobody is turned away: every connection that the accept loop is done with has got its handler. |
| TcpServe.NothingStuck | internal/gateway/gateway.go:144-176 | Every connection has a next step until it is closed, and a free loop accepts. |
| TcpServe.UncappedCounterFalls | internal/gateway/gateway.go:171-174 | With the cap off the counter is minus the number of handlers that have gone. |

## Left out

- UdpGateway.UDPSessionManager.Create: one creator, so the branch that overshoots the limit and rolls back is only in SessionMachine.
- UdpGateway.UDPSessionManager.ExpireAll: one goroutine, without the wait for readers; SessionMachine has the other goroutines and the wait.
- UdpGateway.UDPGateway.Serve: a finite list of reads, and the pause after a transient error is not modelled.
- UdpGateway.UDPSession.StoreInputSource: headers are values, so the deep copy that keeps them apart from the receive buffer is the identity here; `Serve` does capture the reuse of the buffer for payloads.
- TcpHandle.WriteThenRead: version 2 and headers with addresses only; version 1 text is a format of the library, and how a reader takes the address-less frame is up to the library.
- inputSource and inputSrcKind are one value: a lookup that meets one of them cleared finds nothing, as if both were, and their one writer is the datagram itself.
- Inside a datagram a response that a reader forwards is taken before or after it; it touches nothing but an idle deadline.
- The interleaved datagram of UdpInterleaving starts at the check of done: a Load of the map entry just before it yields the same session or one that is done. Its session exists from LoadOrStore on, as the assumption on early timers allows.
- Deadlines are recorded and never awaited: a session may expire at any moment, so no theorem depends on when timers fire.
- A failed upstream write (which the code logs and ignores) is not distinguished from a successful one on an open socket.
- Version 1 headers as text, and the `legacy` coercion of mixed families: library internals that are not part of this model.
- TLV contents: parsed over, never forwarded, as in the code.
- Connections that cannot half-close or set deadlines: those of Pipe can do both, as TCP connections do.
- Liveness: it is proved that nothing gets stuck, but not that a timer fires, a reader is woken or ExpireAll ends in the end.
- A claim that the map is empty after shutdown while a datagram is still being handled: ExpireAll may run before that Create stores its session.
- Parsing of CIDR and IP strings: entries start as bytes and prefix lengths, and net.IP methods are modelled from their documentation.
- Sockets, DNS, logging, backoff, wall-clock time: identifiers, parameters and logical time stand for them.
- Configuration files, command line, services and translations: outside the data path that this project covers.
