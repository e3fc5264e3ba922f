# Teredo engine: a model with proofs

This project models `libteredo`, the engine of Miredo: Teredo tunnelling of IPv6 over UDP through
NAT devices, as specified by RFC 4380. It covers the peer state machine of relays and clients, the
peer list, the maintenance (qualification) procedure and its threads, the wire formats, the server,
and the keyed hash behind bubbles and pings. `dafny verify dfyconfig.toml` checks all of it.

## How it is laid out

| file | content |
|---|---|
| `Bytes`, `Addresses` | octets, words, byte order; Teredo addresses and address predicates |
| `Checksum`, `Md5`, `Security` | Internet checksum; streaming MD5; HMAC, nonces and ping hashes |
| `Encapsulation`, `Packets`, `Advertisements` | authentication and origin headers; bubbles and pings; Router Advertisements |
| `Server`, `Qualification` | the server's decisions; client and server composed through the bytes they exchange |
| `Peers`, `PeerLists`, `LinkedPeerList` | one entry (queue, counters); the list as a value; the list as linked nodes |
| `Tunnels`, `Relay` | what a tunnel does, as functions on values; the object that does it in place |
| `EntryHistory` | what one event does to one entry, and all that it makes the tunnel emit |
| `TrustSafety`, `UserTraffic`, `RateLimiting`, `Freshness`, `ListHistory` | theorems about whole runs of a tunnel |
| `Snapshots` | the same runs when calls work with outdated copies of the state |
| `Backlogs`, `HolePunching`, `RelayDiscovery` | what waits for an answer; the two ways a peer becomes reachable, end to end |
| `Maintenance`, `Threads` | the qualification state machine; mailbox and locks as a concurrent protocol |

Code that works in place is modelled in place. The classes `PeerList`, `TeredoTunnel`, `Context`
and `Procedure` have the fields of the originals, and their methods are proved equal to functions
on values (`PeerLists.Lookup`, `Tunnels.Transmit`, `Maintenance.Step` and so on). The theorems about
runs are about those functions, so they hold of the methods.

Conventions:

- A word that the program keeps in network order is represented by its value in that order. The
  byte order of the host is a parameter where the result could depend on it.
- Obfuscated ports and addresses are complements (`Flip16`, `Flip32`).
- Sending and calling back append to an output. A step of a tunnel is one call into the library.
- The clock and the wall-clock time are arguments of each step. Theorems that need a clock that
  does not go backwards say so.
- Fields that a new peer leaves uninitialised hold an arbitrary value (`junk`), and whether memory
  can be allocated is an argument (`alloc`).
- The 64-octet MD5 compression function is a parameter. Downstream of `Security`, so is the keyed
  hash.

## Where the code departs from its comments or from expectation

The model follows the code.

- `IsGlobalUnicast` excludes 192.88.98.0/24, as the code does; the comment beside it and section
  5.2.4 of RFC 4380 speak of 192.88.99.0/24.
- The prefix validity test is meant to exclude ff00::/8, but masks the word as stored, so that it
  looks at the first octet on some hosts and at the fourth on others. `IsValidPrefix` takes the
  byte order as an argument.
- The server's advertisement always starts with an authentication header. The nonce of a
  solicitation that had none is whatever the buffer held (`stale`).
- A datagram forwarded by the server carries everything that was received, trailing octets included.
- Advertisements of one round share a result buffer, so the MTU of an advertisement from another
  server can outlive it: `ForeignMtuStays` shows when, `ScanFinds` says exactly what is used.
- Trust in a non-Teredo peer is renewed by packets that prove nothing, unlike trust in a Teredo
  peer: `UnprovenPacketRenews` gives both cases; `DirectIsFresh` and `DirectIsStale` say exactly when
  a packet goes where its peer was last heard.
- Bubbles that a client sends because its server relayed a packet are not counted (a comment in the
  code says so). The rate limit of bubbles holds of transmissions; `AllBubbles` says exactly when it
  holds of all bubbles and `RepliesUnlimited` shows what happens otherwise.
- A payload that starts like a header that was not sent is parsed as that header. `WrapRoundTrip`
  holds exactly for the others, and every IPv6 packet is one of them.

## Model

| member | source | states |
|---|---|---|
| HolePunching.HolePunched | libteredo/relay.c:497-514 | End to end: a packet for an unlisted Teredo peer B makes A send a bubble to B's server, which forwards it to B, which answers A; when the answer arrives from any endpoint, A trusts B there and sends to that endpoint, once each, exactly the packets for B that fitted in the queue, whatever other traffic A had in between that neither proved nor freed B's entry |
| HolePunching.ServerForwards | libteredo/server.c:356-446 | A bubble from an outside global address for a client of this server is forwarded to the endpoint in the client's address, behind an indication of where it came from |
| HolePunching.PeerAnswers | libteredo/relay.c:606-632 | A bubble relayed by our server is answered by one bubble to the endpoint it indicates, with source and destination exchanged, and nothing else changes |
| HolePunching.FirstTransmit | libteredo/relay.c:497-514 | The first packet for an unlisted Teredo peer ends with a bubble to that peer's own server |
| HolePunching.PeerGuesses | libteredo/relay.c:609-632 | A bubble that our server relayed without saying where from is answered at the endpoint its Teredo source embeds |
| RelayDiscovery.RelayFound | libteredo/relay.c:446-476 | End to end: a packet for an unlisted native node makes a client ping it through its server; when an echo reply, or an error quoting the ping, arrives from any endpoint after any undisturbing traffic, the node is trusted at that endpoint exactly if fewer than 30 ticks passed since sending, and then what fitted in the queue is sent there once each; otherwise only control packets leave |
| RelayDiscovery.FirstPing | libteredo/relay.c:446-476 | The first packet for an unlisted native node emits one ping, to our own server |
| RelayDiscovery.AnswerJudged | libteredo/relay.c:721-736 | For an untrusted native entry, a packet from elsewhere than our server confers trust exactly when it passes the ping check, and otherwise delivers and sends no user packet |
| Backlogs.RunWaits | libteredo/relay.c:416-523 | Until something proves where a peer is, its entry stays untrusted through any other traffic, and its queue holds what fits of the packets offered for it |
| Backlogs.BacklogDrains | libteredo/peerlist.c:137-155 | Draining a queue of outgoing packets sends each once, newest first |
| HolePunching.AnswerArrives | libteredo/relay.c:742-776 | A bubble that answers ours makes the entry trusted at the endpoint it came from and releases the whole queue there, for relays and clients |
| TrustSafety.TrustSafe | libteredo/relay.c:706-776 | In every run from an empty list: each trusted entry is mapped to the source of an earlier packet of that peer that the tunnel let in and that, in the state it then had, either passed a client's ping check or came from a Teredo address of its prefix and matched the embedded endpoint or passed the bubble check; every user packet is sent to such an endpoint; every packet delivered came from one |
| TrustSafety.StepSafe | libteredo/relay.c:424-433 | Each single event keeps that invariant and emits only packets that satisfy it |
| Snapshots.CallsTrustSafe | libteredo/relay.c:339-346 | The same when every transmission and reception works with a copy of the state, whichever, instead of the current one: trust comes from a packet that passed the tests in the state its call worked with |
| Snapshots.CallsAreEvents | libteredo/relay.c:579-588 | A run of calls with outdated copies of the state is a run of events, with the same list and outputs, so that all theorems about runs hold of it |
| Snapshots.CallsConserve | libteredo/peerlist.c:92-155 | With outdated copies, too, queued packets balance and what leaves for a peer is exactly what was sent or delivered at once or drained |
| TrustSafety.DrainOk | libteredo/peerlist.c:137-155 | Draining a queue toward a vouched endpoint emits only sound packets |
| UserTraffic.Conservation | libteredo/peerlist.c:92-155 | In every run and for every peer: packets accepted into the queue are, as multisets, those still queued plus those drained by a reply plus those freed with their entry; the user packets that left the tunnel for that peer or were delivered from it are exactly those sent at once, delivered at once, or drained and not dropped for an endpoint mismatch; the queue is the arrivals since it was last emptied, newest first; queued octets and room left always make 1280; the 3-bit counters stay within 0 to 4 |
| UserTraffic.TraceIsLog | libteredo/peerlist.c:137-155 | The ordered trace of all user packets of a peer among the outputs of a run, found by their addresses, is the sequence of emissions of its direct sends, direct deliveries and drained queues, each once |
| UserTraffic.RunOwnsQueue | libteredo/peerlist.c:92-125 | In every run a queue holds only packets to or from its own peer |
| EntryHistory.ReceptionOutputs | libteredo/relay.c:552-840 | Everything a reception emits: the bubble its server asks for, then on a reply the whole queue once, newest first, toward the proven endpoint and the packet itself where it is delivered, or on an unproven packet one ping exactly when granted, and otherwise nothing |
| EntryHistory.TransmissionOutputs | libteredo/relay.c:324-524 | Everything a transmission emits: the packet once to the mapping, or the bubbles or the ping granted, or at most one error and no packet at all |
| EntryHistory.StepFollows | libteredo/relay.c:324-524 | Every event changes any one entry only by the queue and counter operation computed for that entry, or not at all |
| RateLimiting.RateLimits | libteredo/relay.c:220-293 | In every run, for one entry between replies, counted on the outputs: at most four pings leave the tunnel, on transmissions and receptions together, at least 3 seconds apart; transmissions send bubbles at least 3 seconds apart and any five of those times span more than 300 seconds |
| RateLimiting.AllBubbles | libteredo/relay.c:606-632 | The bubbles sent on receptions are outside that limit: over a run, the times of all bubbles for a peer are those of its transmissions exactly when no reception met the guard that answers it |
| RateLimiting.AllBubblesLimited | libteredo/relay.c:257-293 | In a run without such a reception, all bubbles for a peer respect the limit |
| RateLimiting.RepliesUnlimited | libteredo/relay.c:624-627 | With such receptions nothing limits them: the same relayed bubble received n times at one clock value makes n bubbles leave, while nothing replies to the entry and the tunnel stays as it was |
| RateLimiting.TransmissionSends | libteredo/relay.c:448-523 | The pings and bubbles for any peer among the outputs of a transmission are exactly what its counters grant |
| RateLimiting.ReceptionSends | libteredo/relay.c:606-632 | A reception sends a ping for a peer exactly when one is granted, and a bubble exactly when the server relayed a packet of that peer telling, or letting guess, a global endpoint |
| RateLimiting.StepSends | libteredo/relay.c:822-830 | Whatever the event, at most one ping for a peer leaves, exactly when granted; a granted bubble does leave |
| Freshness.HeardExactly | libteredo/relay.c:706-833 | In every run, for every trusted peer: the time recorded as its last reception is that of a packet from its mapping, unless a packet that proved nothing was held since its last reply, and then it is that of a packet from elsewhere |
| Freshness.FreshRuns | libteredo/relay.c:527-540 | In every run, through any changes of state and prefix, a peer trusted at a relay, and a Teredo peer trusted at a client that is up and whose calls see its current prefix, was heard from its mapping at the time recorded as its last reception |
| Freshness.DirectIsFresh | libteredo/relay.c:424-433 | To any peer, native ones included, no unproven packet of which was held since its last reply, a user packet goes straight only if that peer was heard from that very endpoint at most 30 seconds before |
| Freshness.DirectIsStale | libteredo/relay.c:822-824 | In the remaining case it never is so: the packet that kept the entry valid came from another endpoint than the one the user packet is sent to |
| Freshness.StrictIsFresh | libteredo/relay.c:424-433 | Teredo peers of a client, and all peers of a relay, are always in the first case |
| Freshness.StaleSnapshotRenews | libteredo/relay.c:579-588 | Except that a call with an outdated copy of the state, of another prefix, renews the trust in a Teredo peer without proof |
| Freshness.UnprovenPacketRenews | libteredo/relay.c:742-839 | A packet that proves nothing leaves a trusted Teredo entry as it was, and renews trust at the old mapping for any other peer |
| RateLimiting.ErrorRate | libteredo/relay.c:121-153 | With a clock that does not go backwards, at most 10 ICMPv6 errors are reported per clock value in any run, counted on the outputs |
| Peers.BubbleRate | libteredo/relay.c:257-293 | Over any sequence of uses of one entry, grants of bubbles are 3 seconds apart, five span more than 300 seconds, and the counter does not exceed 4 |
| Peers.PingRate | libteredo/relay.c:220-243 | At most four pings are granted, at least 3 seconds apart although only 9 bits of the time are kept |
| Peers.Enqueue | libteredo/peerlist.c:92-125 | Queued octets plus room left stay 1280 |
| PeerLists.LeastRecentlyUsed | libteredo/peerlist.c:228-278 | In every run, entries are in strict most-recently-looked-up order; an entry is present exactly while at most one collection followed its last lookup, and a collection removes exactly those already passed over once |
| ListHistory.ListOfRun | libteredo/relay.c:416-422 | In every run of a tunnel: its list holds each peer once, places left plus entries make the number it was made for, entries are in strict most-recently-used order, and a peer is listed exactly while at most one collection followed its last use |
| ListHistory.RunIsOps | libteredo/relay.c:706-801 | Every event does to the list what its few list operations do, so that the list of a run is that of a run of list operations |
| PeerLists.Capacities | libteredo/peerlist.c:281-344 | In every run the two generations hold each key once, there is a peer for exactly the listed keys, and places left plus entries make the last maximum |
| PeerLists.LookupKeeps | libteredo/peerlist.c:359-481 | A lookup keeps that invariant, finds exactly the keys present, puts what it returns first, changes no other peer, and on failure changes nothing |
| PeerLists.CollectKeeps | libteredo/peerlist.c:242-266 | A collection keeps exactly the recent generation, with its peers unchanged |
| LinkedPeerList.PeerList.constructor | libteredo/peerlist.c:281-310 | A new list is sound, unlocked and empty |
| LinkedPeerList.PeerList.Lookup | libteredo/peerlist.c:359-481 | On the linked nodes and the index: both lists stay acyclic, disjoint and well threaded, the index maps exactly their keys each to its node, the result and the new list are those of the lookup on values, and the list is left locked exactly when a node is returned |
| LinkedPeerList.PeerList.Add | libteredo/peerlist.c:366-482 | A key that is absent gets an index slot, which ends up holding a new first node, or is gone again when the list is full or memory is short |
| LinkedPeerList.PeerList.Create | libteredo/peerlist.c:439-482 | With the slot inserted and still empty, the index without it describes the list; afterwards the whole index does |
| LinkedPeerList.PeerList.Unlink | libteredo/peerlist.c:417-422 | Going through `pprev` takes exactly that node out of whichever list holds it and keeps both lists threaded |
| LinkedPeerList.PeerList.MoveToFront | libteredo/peerlist.c:416-434 | The node becomes first of the recent list, the others keep their order |
| LinkedPeerList.PeerList.Collect | libteredo/peerlist.c:242-266 | The in-place collection is the collection on values; index, lists and capacity stay consistent |
| LinkedPeerList.PeerList.DropAged | libteredo/peerlist.c:242-257 | The loop removes exactly the aged keys from the index and gives back one place for each |
| LinkedPeerList.PeerList.Reset | libteredo/peerlist.c:313-344 | Any list becomes an empty one of the given capacity |
| LinkedPeerList.PeerList.ViewInv | libteredo/peerlist.c:159-178 | A sound linked list represents a value in which keys are distinct, peers exactly those listed, and places left plus entries make the maximum given at creation or to the last reset |
| LinkedPeerList.PeerList.KeysDistinct | libteredo/peerlist.c:159-178 | No key occurs twice in the two lists, because the index knows one node per key |
| LinkedPeerList.Bypass | libteredo/peerlist.c:419-422 | Redirecting the pointers around an element leaves a threaded list without it |
| Relay.TeredoTunnel.constructor | libteredo/relay.c:879-920 | A new tunnel is down, with an empty, unlocked list |
| Relay.TeredoTunnel.Transmit | libteredo/relay.c:324-524 | The in-place transmission has the effect and the output of the one on values, and leaves the list unlocked on every path |
| Relay.TeredoTunnel.TransmitTo | libteredo/relay.c:416-523 | Entered with the list locked, every path releases it once and applies exactly the decision computed for the entry |
| Relay.TeredoTunnel.RunInner | libteredo/relay.c:552-840 | The in-place reception has the effect and the output of the one on values, and leaves the list unlocked on every path |
| Relay.TeredoTunnel.FromListed | libteredo/relay.c:706-839 | Entered with the list locked, each verdict (trusted, proven, rejected, unproven) has its effect and releases the list once |
| Relay.TeredoTunnel.FromUnlisted | libteredo/relay.c:742-833 | Relays list nobody on reception; clients list proven Teredo peers and hold the packets of the others |
| Relay.TeredoTunnel.Predecap | libteredo/relay.c:527-540 | The entry becomes trusted with empty queue and counters, and what waited is emitted after the list is released |
| Relay.TeredoTunnel.QueueEmit | libteredo/peerlist.c:137-155 | The loop emits the queue in order, skipping incoming packets from elsewhere |
| Relay.TeredoTunnel.SendUnreach | libteredo/relay.c:121-153 | An error is reported exactly when the limiter lets it |
| Relay.TeredoTunnel.StateChange | libteredo/relay.c:177-214 | Up resets the list and is told; down is told only after up |
| Maintenance.RunKeeps | libteredo/maintain.c:242-397 | In every run: no server implies down; up implies that the address names the current global unicast server and the MTU is at least 1280; flags stay within the random mask; the counter is the number of rounds timed out in a row modulo the configured retries, which are not exhausted while up |
| Maintenance.LostExactlyAfterRetries | libteredo/maintain.c:331-358 | A tunnel that is up goes down at an event exactly when that event is the configured number of timeouts in a row |
| Maintenance.CallbacksOrdered | libteredo/relay.c:177-214 | In every run the user is never told down before up nor down twice, and up after up only with a new address or MTU; what was told last is what the procedure believes |
| Maintenance.AnswerQualifies | libteredo/maintain.c:303-386 | A round that hears the server's answer, after any packets that did not qualify, brings the tunnel up with the server's MTU and an address from which the endpoint the server saw is recovered |
| Maintenance.ScanFinds | libteredo/maintain.c:309-326 | The round ends with the first acceptable advertisement; the MTU is its own or else the one left behind by earlier advertisements with our nonce |
| Maintenance.ForeignMtuStays | libteredo/maintain.c:309-326 | For any other server that answered with our nonce, its MTU is used when the accepted advertisement has no MTU option |
| Maintenance.Procedure.TryResolve | libteredo/maintain.c:263-296 | Only a global unicast address is taken as server; the tunnel is down at that point, as the code asserts |
| Maintenance.Procedure.Recv | libteredo/maintain.c:131-156 | Accepts exactly advertisements with our nonce, without failure flag, that parse and name our server; changes the MTU only as a parsed advertisement says |
| Maintenance.Procedure.Listen | libteredo/maintain.c:309-326 | The loop yields the offer of the first acceptable advertisement, or none |
| Maintenance.Procedure.DoRound | libteredo/maintain.c:308-386 | One round updates server, counter and state and calls back as the state machine says |
| Threads.Handshake | libteredo/maintain.c:494-525 | In every interleaving with any number of receiving threads: the mailbox is filled only when empty; what is consumed belongs to a thread still inside its call; a thread returns only after its packet was consumed; every packet is consumed once, in order |
| Threads.NoDeadlock | libteredo/maintain.c:163-192 | In no reachable state is everybody blocked while a call, setters of the state included, is in progress or the maintenance thread has work, also with locks that prefer writers |
| Threads.ActionKeeps | libteredo/maintain.c:494-525 | Every step keeps the locks exclusive, tickets in order and no wake-up lost |
| Threads.LockOrder | libteredo/relay.c:177-214 | In every interleaving, a step by which a thread comes to hold a lock finds that lock free and finds the thread holding only locks before it in the order outer, inner, state, list |
| Md5.Stream | libteredo/md5.c:327-396 | For every message and every split into segments, streaming gives the padded one-shot digest of RFC 1321 |
| Md5.Context.Append | libteredo/md5.c:337-373 | The bit count modulo 2^64, the buffered tail and the chaining value over the full blocks are those of the longer message |
| Md5.Context.CountBits | libteredo/md5.c:343-352 | Two 32-bit words with carry count the bits modulo 2^64 |
| Md5.Context.Finish | libteredo/md5.c:375-396 | Yields the digest of the message appended so far |
| Md5.Context.Init | libteredo/md5.c:327-335 | A context in use starts over with the empty message |
| Md5.AbsorbConcat | libteredo/md5.c:366-368 | Processing full blocks one call after the other is processing their concatenation |
| Security.PadKeys | libteredo/security.c:97-104 | The inner and outer padded keys of section 2 of RFC 2104, computed in place |
| Security.TeredoHash | libteredo/security.c:125-143 | Two streamed passes are HMAC-MD5 of source, destination, process id and time |
| Security.VerifyPingHashExact | libteredo/security.c:198-223 | A ping hash is accepted exactly when it is the one of some time in the last 30 ticks for those addresses |
| Security.PingHashLifetime | libteredo/security.c:180-223 | Our own hash is accepted exactly in the 30 ticks from its time, across the wrap-around of 32-bit time |
| Packets.PingAnswered | libteredo/packets.c:274-390 | An echo reply or Destination Unreachable for our ping is accepted exactly in the 30 ticks from sending |
| Packets.PingAuthentic | libteredo/packets.c:309-390 | Whatever is accepted carries, inside its payload, the hash of a time in the last 30 ticks over its own destination and source |
| Packets.CheckBubbleExact | libteredo/packets.c:78-111 | A bubble passes exactly when its destination has the interface identifier we use as source toward its sender |
| Packets.HeaderFields | libteredo/packets.c:53-75 | Each field of a built IPv6 header is read back |
| Encapsulation.WrapRoundTrip | libteredo/teredo.c:236-302 | For any identifier and authenticator lengths, with or without each header, parsing gives back nonce, confirmation, origin and payload exactly when the payload cannot be taken for a missing header |
| Encapsulation.ParseSound | libteredo/teredo.c:236-302 | Whatever is accepted is the encapsulation, with the headers reported, of an exact suffix of the datagram |
| Encapsulation.RecvInner | libteredo/teredo.c:236-302 | Parsing in place, with the move within the buffer, gives the parse of the datagram as received; the payload sits at offset 0 or 8 and inside what was received |
| Encapsulation.StripAuth | libteredo/teredo.c:242-275 | Removing the authentication header in place leaves the rest of the parse to do |
| Advertisements.ReadOptions | libteredo/packets.c:188-243 | The option loop ends, reads only inside the payload, and accepts exactly well-formed option lists with at most one prefix naming a server before the last; the last prefix and MTU are returned |
| Advertisements.ParseRa | libteredo/packets.c:157-271 | The cursor code accepts exactly what the reading of the option list accepts and yields that address; the MTU changes only on acceptance of an advertisement that has one |
| Advertisements.AcceptedPrefix | libteredo/maintain.c:148-151 | When an advertisement is accepted, exactly one of its prefix options names a server: the last one, of length 64, naming the expected server |
| Qualification.QualificationRoundTrip | libteredo/server.c:77-159 | Solicitation and answer cross the wire: the client accepts the answer with its nonce and MTU, and its new address gives back the endpoint the server saw |
| Qualification.AdvertRead | libteredo/packets.c:157-271 | The server's advertisement parses to its prefix, address and MTU for every valid prefix and MTU, whatever the two hosts' byte orders |
| Qualification.SolicitationAnswered | libteredo/server.c:291-447 | A restricted solicitation from outside is answered with an advertisement to where it came from |
| Qualification.ChecksumsOnTheWire | libteredo/packets.c:274-306 | Advertisements and pings sent by a host of one byte order verify on a host of any |
| Qualification.SolicitationChecksum | libteredo/packets.c:118-154 | The constants used as checksums of the two solicitations verify on hosts of either byte order |
| Server.ServerAnswersExactly | libteredo/server.c:291-447 | The server emits exactly for packets that are acceptable by the rules of section 5.3.1 as coded, not from itself, and have somewhere to go |
| Server.ChainsEnd | libteredo/server.c:291-447 | In every run in which datagrams the server sent to its own sockets come back from the sending socket, any number of times: each emission is the first of a chain started by a datagram from outside, no two share a chain, nothing is emitted for what comes back, and every UDP datagram goes to a global unicast address |
| Server.ForwardingChainsEnd | libteredo/server.c:165-199 | For any sequence of deliveries, emissions number at most those not from the server's own addresses and port, and every UDP datagram goes to a global unicast address |
| Checksum.InCksum | libteredo/teredo.c:338-379 | Over any segmentation, odd lengths included, the loop gives the one's complement checksum of the concatenated octets |
| Checksum.TeredoCksum | libteredo/teredo.c:382-403 | The same with the IPv6 pseudo-header in front |
| Checksum.ByteOrderIndependent | libteredo/teredo.c:338-379 | The stored checksum has the same octets on hosts of either byte order |
| Checksum.ChecksumVerifies | libteredo/teredo.c:338-403 | Summing again with the checksum stored over a zero field at an even offset gives 0 |
| Addresses.AddressBytes | libteredo/teredo.h:47-108 | The structured address is a bijection with 16 octets |
| Addresses.InterfaceIdInjective | libteredo/packets.c:100-111 | Equal low 64 bits mean equal flags, port and IPv4 fields |

## Left out

- Sockets, control messages and the error queue: operating system calls; sending always succeeds, and the return codes of the transmission calls are not modelled.
- Octets of the ICMPv6 errors handed to the user: only which packet is reported, with which code, and how often.
- The 64 steps of the MD5 compression function: a parameter; that HMAC is hard to forge is not claimed.
- Reading the random key, the process id and the start time: arbitrary values.
- Name resolution, the timer signals behind the clock, and the deadlines of the maintenance loop: an event says what was resolved, or that a round heard these packets and then timed out.
- Interiors of Judy arrays and search trees: the index is a map whose new slots hold null.
- Creation, cancellation and shutdown of threads, switching a tunnel to client mode, and destruction of tunnels.
- Other interleavings inside one library call: the lock protocol is proved in `Threads` and outdated copies of the state in `Snapshots`, but what a call does with an entry, both of its lookups included, is one step of `Tunnels`, and emission of a queue belongs to the step that emptied it.
- The lock of the error limiter: it is never held while another is taken.
- Code built only with cone support toward peers, or disabled with `#if 0`.
- Device drivers, the daemon, configuration, start-up and translations: they would only add easy members.
- Maintenance.Procedure.Recv: the prefix word left in the shared address buffer by an earlier rejected advertisement is an arbitrary argument, because its value is never used for a decision about an accepted one.
- Maintenance.RunKeeps: the upper bound 65535 of the MTU is the range of the 16-bit field.
