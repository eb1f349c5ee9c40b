# INET256, verified in Dafny

A model of the core of INET256, a mesh network whose nodes are addressed by hashes of their keys,
with proofs of what its protocols and data structures keep. `dafny verify dfyconfig.toml` checks
everything.

## What is modelled

**The beaconnet routing protocol.** `Routing` holds the decisions of one router as functions,
`Router` the router object whose methods carry them out in place, and `Mesh` a network of such
routers as a state machine over a fixed symmetric peer graph. Signed beacons are values that only
their origin creates. Handlers run concurrently in the source, so every handler is cut where it
drops its lock: the table update of a beacon, the lookup for a targeted beacon, the read of our own
beacon for a first-contact reply, and the hand-over of each queued packet to the link are separate
steps, and the steps of all handlers of all nodes interleave freely. Links may delay, reorder and
lose packets but do not duplicate them. A run is a sequence of steps; the theorems are about every
run from a state in which all routers have just been reset.

- `LoopFreedom`: the order "higher counter, then adopted earlier" on table entries makes
  forwarding loop-free in every reachable state.
- `InFlight`: a message in flight climbs that order at every hop even while tables change, never
  gets stuck, and is delivered unaltered at most once.
- `Progress`: what does get done in every reachable state: beacons, relays, sends and, for every
  destination a source can forward to, a run that delivers.
- `Flooding`: how often a beacon is copied. `Coverage`: who hears of it, and exactly when everybody
  does. `FloodGap` is a run in which not everybody does.
- `Wire`: the message header.

**Addresses as bits.** `Bits` defines the bitwise operators on unsigned integers, `Bitstr` the bit
sources, the word-packed buffer and the canonical bit string, `Prefix` the prefix test by leading
zeros, `FindAddr` the search for an address by prefix through router table and promises, `AddrMap`
the compression of addresses into 0200::/7 and its inverse, `Portal` the address cache of the IPv6
portal, and `TextForm` the order-keeping base64 text.

**DNS256.** `Dns` holds the resolver, the basic server and paths, `Hops` how many lookups resolution
needs and when no number is enough, `Dots` the dotted notation.

**Smaller cores.** `LinkMonitor`, `Ipc`, `Balancer` and `CentralDisco`.

I/O, clocks, randomness and cryptography are parameters: the current time, the outcome of a
signature check, the answers of servers, the choice of a random address. A panic of the source is a
result value (`None`, `Panic`, `Overflow`) where callers can run into it and a precondition where
it guards an index. Times and counters are natural numbers; the one place where 64-bit wrap-around
matters, the age test of `cleanupOnce`, models it.

## Where the code differs from what it says

- `Heartbeat` guards its cleanup by `lastCleanup.Sub(now) >= peerStateTTL`
  (networks/beaconnet/router.go:78), which is false on a clock that does not go back. Entries
  therefore live until `Reset`. `Router.Router.Heartbeat` states this, `CleanupOnce` is modelled on
  its own, and runs of `Mesh` have no cleanup.
- `BytesMSB` reads an `End` of 0 as the end of the bytes (src/internal/bitstr/bitstr.go:52-58), so
  the two prefix tests part ways for zero bits: `Prefix.PrefixTestsAgree` gives the exact condition,
  and `FindAddr.ZeroBitsMislead` shows how a request for zero bits can spoil the promise of another.
- `writeUint7` and `readUint7` are described as little-endian; the code puts the most significant
  bit first (src/inet256ipv6/addrmap.go:95-115).
- `cleanupOnce` of the link monitor drops a peer when the outer map is empty
  (src/mesh256/multihoming/link_monitor.go:202-204), which never happens in that loop, so peers keep
  an empty map.
- A beacon that reaches a node by a targeted copy is adopted without being rebroadcast
  (networks/beaconnet/router.go:149-161), which can stop a flood: `FloodGap.TargetedBeaconStopsFlood`
  is a run, and `Coverage.CoverageExact` and `Coverage.HeardExactly` say when it does.
- Nothing keeps a basic server from redirecting without a path, or a root from being an authority for
  a path outside the query (src/dns256/server.go:74-83, src/dns256/path.go:42-47). Either can use up
  all hops: `Hops.BudgetExact`, `Hops.AcyclicExact` and `Hops.SafeRoots` give the exact conditions.

## Model

| member | source | states |
|---|---|---|
| Router.Router.UpdatePeerState | networks/beaconnet/router.go:199-214 | the table changes only for a new origin or a strictly higher counter; `updated` and `created` say which |
| Router.Router.Broadcast | networks/beaconnet/router.go:226-237 | exactly one packet to every peer but the excluded one |
| Router.Router.HandleBeacon | networks/beaconnet/router.go:144-174 | an unverified beacon has no effect; otherwise the entry changes for a new origin or a higher counter, and packet by packet what is sent is one copy to every peer but the previous one for a newer broadcast beacon, one to the next hop of the destination of a targeted one if the new table has it, and our beacon to the sender on first contact |
| Router.Router.HandleData | networks/beaconnet/router.go:176-197 | delivered exactly at its destination, stuck exactly without a link or an entry, else one packet to the neighbour or the next hop with nothing but its link ends changed |
| Router.Router.HandleAbove | networks/beaconnet/router.go:56-69 | refused exactly without a link or an entry for the destination, else one message to the neighbour or the next hop |
| Router.Router.Heartbeat | networks/beaconnet/router.go:77-92 | once the period has passed since the last beacon, or without one, a new beacon with the current time to every peer, before that nothing; on a clock that does not go back no entry is ever cleaned up |
| Router.Router.CleanupOnce | networks/beaconnet/router.go:247-257 | exactly the expired entries are dropped |
| Router.ExpiredMeansOld | networks/beaconnet/router.go:250-254 | the wrapped 64-bit age test is the plain age test for times of this era, so an entry from the future stays |
| Router.Tell | src/mesh256/routers/routers.go:114-135 | the retry loop sends one message, by the first try with a link or an entry, or none if no try has either |
| Mesh.HandlerIsItsSteps | networks/beaconnet/router.go:144-174 | the separate steps of a beacon handler, taken together, update the table and send what the handler does |
| Mesh.HandlerSends | networks/beaconnet/router.go:144-174 | packet by packet, what the steps of a beacon handler queue |
| Mesh.InitExists | networks/beaconnet/router.go:43-54 | every configuration has a state in which all routers have just been reset, with any clocks |
| LoopFreedom.StepKeeps | networks/beaconnet/router.go:144-214 | every step of every handler keeps the table invariant: next hops are peers, senders of beacons support them, and the next hop for d is d or has a strictly better entry; entries only improve |
| LoopFreedom.RunKeeps | networks/beaconnet/router.go:144-214 | the same for every run: no entry is lost, and one changes only for a strictly higher counter |
| LoopFreedom.ForwardingReaches | networks/beaconnet/router.go:176-197 | in every reachable state forwarding from a node with an entry or a link for d reaches d, visits no node twice and takes fewer hops than there are nodes |
| InFlight.DataStepKeeps | networks/beaconnet/router.go:176-197 | every step keeps what is known of messages in flight, their trails and the deliveries |
| InFlight.MessagesClimb | networks/beaconnet/router.go:176-214 | the table entries a message uses on its way strictly climb for its destination while tables change, and it comes back to a node only after that node adopted a strictly newer beacon |
| InFlight.HopsBounded | networks/beaconnet/router.go:176-214 | while tables change a message uses at most as many table entries as there are nodes for every distinct counter of its destination that it meets |
| InFlight.ForwardingNeverFails | networks/beaconnet/router.go:188-195 | no message on the wire, in any run, arrives at a node that cannot forward it |
| InFlight.AtMostOnce | src/mesh256/routers/routers.go:114-135 | every delivery matches a distinct Tell by that source to that destination with that text; a Tell has at most one message in flight and none once delivered |
| InFlight.TellSendsOnce | src/mesh256/routers/routers.go:117-134 | a Tell that has sent its message is never tried again, even if the message is lost |
| Progress.HeartbeatBeacons | networks/beaconnet/router.go:77-92 | in every reachable state a heartbeat a period after the last beacon leaves the router with a beacon of that time and one copy for every peer queued; an earlier one sends nothing |
| Progress.RelayGoesOn | networks/beaconnet/router.go:155-161 | in every reachable state a targeted beacon is passed on once and unaltered, to a peer that is its destination or has a strictly better entry, exactly if the node knows the destination |
| Progress.TellGoesOut | networks/beaconnet/router.go:56-69 | in every reachable state a try with a link or an entry marks the Tell sent and queues its one message for a peer that is the destination or has a strictly better entry; any other try changes nothing |
| Progress.DataGoesOn | networks/beaconnet/router.go:176-197 | in every reachable state a message is delivered at its destination and anywhere else passed on once and unaltered, to a peer that is the destination or has a strictly better entry |
| Progress.TrailsRecord | networks/beaconnet/router.go:188-195 | the trail of a message grows by exactly the table entry used to forward it |
| Progress.MessageGetsThrough | networks/beaconnet/router.go:56-197 | in every reachable state, for every other node that a node has a link or an entry for, some run that loses nothing delivers a message there, unaltered |
| Flooding.FloodIsBounded | networks/beaconnet/router.go:149-154 | in every interleaving a router other than the origin copies a beacon at most once per link and the origin at most twice, so one beacon costs at most the sum of all peer counts plus the origin's |
| Flooding.LinksCount | src/internal/peers/peerstore.go:95-107 | the number of links is the sum of the peer counts |
| Flooding.TransitIsCounted | networks/beaconnet/router.go:226-237 | the broadcast copies of a beacon in transit on a link are at most those counted there, so at most two from the origin and one from any other router |
| Coverage.FloodCovers | networks/beaconnet/router.go:82-91 | if no broadcast copy is lost and targeted copies reach only nodes that have heard already, then once no broadcast copy is in transit every node connected to the origin has an entry at least as new |
| Coverage.CoverageExact | networks/beaconnet/router.go:149-169 | if no broadcast copy is lost then, once none is in transit, all connected nodes have heard exactly if the peers of the silent ones have; a node is silent whose first copy was a targeted one, until it broadcasts |
| Coverage.HeardExactly | networks/beaconnet/router.go:149-169 | if no broadcast copy is lost then, once none is in transit, a node has an entry at least as new exactly if a peer broadcast such a beacon to it or a targeted one was delivered to it |
| FloodGap.TargetedBeaconStopsFlood | networks/beaconnet/router.go:149-169 | if a targeted copy is the first a node gets coverage can fail: a loss-free run after which a connected node has not heard of the beacon and none is in transit |
| Wire.SetType | networks/beaconnet/message.go:49-51 | sets the type and leaves source and destination |
| Wire.SetSrc | networks/beaconnet/message.go:57-59 | sets the source and leaves type and destination |
| Wire.SetDst | networks/beaconnet/message.go:65-67 | sets the destination and leaves type and source |
| Wire.Marshal | networks/beaconnet/router.go:239-245 | what send writes is type, source, destination and body, and parses back to them |
| Wire.ParseExact | networks/beaconnet/message.go:32-67 | a message parses to four parts exactly if it is their concatenation, and does not parse exactly if it is shorter than a header |
| Wire.ParseIsInjective | networks/beaconnet/message.go:32-43 | a message is determined by its parsed parts, so forwarding header and body forwards the message |
| Bits.MaskTest | src/internal/bitstr/bitstr.go:22-25 | the test against a mask reads exactly one bit |
| Bits.MaskSet | src/internal/bitstr/buffer.go:59-65 | setting or clearing by a mask changes exactly one bit |
| Bitstr.AsBytesLSB | src/internal/bitstr/bitstr.go:167-175 | the bytes hold exactly the bits, lowest first, with the rest of the last byte clear |
| Bitstr.AsBytesMSB | src/internal/bitstr/bitstr.go:177-185 | the bytes hold exactly the bits, highest first, with the rest of the last byte clear |
| Bitstr.PackedUnique | src/internal/bitstr/bitstr.go:167-185 | a packed form is determined by the bits |
| Bitstr.CanonicalKeys | src/internal/bitstr/bitstr.go:106-118 | bit strings are equal exactly when their bits are, as their use as map keys needs |
| Bitstr.Buffer.Append | src/internal/bitstr/buffer.go:23-29 | the contents grow by the bit, whatever a Truncate left beyond the end |
| Bitstr.Buffer.AppendAll | src/internal/bitstr/buffer.go:32-36 | the contents grow by the bits of the source |
| Bitstr.Buffer.Set | src/internal/bitstr/buffer.go:52-65 | one bit of the contents is replaced |
| Bitstr.Buffer.Truncate | src/internal/bitstr/buffer.go:98-100 | up to the old length, the first bits remain |
| Bitstr.Buffer.ToString | src/internal/bitstr/buffer.go:82-88 | a canonical string with the contents of the buffer |
| Bitstr.FromSource | src/internal/bitstr/bitstr.go:79-83 | a canonical string with the bits of the source |
| Bitstr.HasPrefix | src/internal/bitstr/bitstr.go:94-104 | true exactly for a prefix of the bits, negative lengths included |
| Prefix.HasPrefix | src/inet256/id.go:78-94 | for every number of bits, true exactly if neither side is empty, both are long enough and the leading bits are equal |
| Prefix.XorLeading | src/inet256/id.go:84 | the leading zeros of the exclusive or count the leading bits in common |
| Prefix.PrefixTestsAgree | src/mesh256/routers/routers.go:141-160 | the test by leading zeros and the test bit by bit agree exactly if at least one bit is asked for, or the whole non-empty prefix matches |
| FindAddr.RouterFindAddr | networks/beaconnet/router.go:94-110 | the first address of the table that has the prefix unless it is the zero address; nothing only if no address has the prefix or the zero address does |
| FindAddr.Network.GetOrCreate | src/mesh256/routers/routers.go:147-151 | the promise whose key has the requested bits, new exactly if there was none |
| FindAddr.Network.AskRouter | src/mesh256/routers/routers.go:152-158 | only the promise asked for can change; it is fulfilled with the router's answer, an address of the table that has the prefix, and stays open only if there is none; for at least one bit every fulfilled promise stays sound |
| FindAddr.Network.HandleAddr | src/mesh256/routers/routers.go:240-251 | every open promise whose bits the address has is fulfilled with it, no other changes, and the result tells whether one was |
| FindAddr.FulfilledHasPrefix | src/mesh256/routers/routers.go:141-160 | while the promises are sound, which requests for at least one bit keep and one for zero bits may break, whatever fulfils a request for at least one bit has the requested prefix |
| FindAddr.ZeroBitsMislead | src/mesh256/routers/routers.go:147-157 | a request for zero bits shares the key of a request for the whole prefix and may put an address without it there |
| AddrMap.WriteUint7 | src/inet256ipv6/addrmap.go:96-104 | seven bits, most significant first |
| AddrMap.ReadUint7 | src/inet256ipv6/addrmap.go:107-115 | the number spelled by the first seven bits |
| AddrMap.Uint7RoundTrip | src/inet256ipv6/addrmap.go:95-115 | a number below 128 is read back from its seven bits |
| AddrMap.Compress | src/inet256ipv6/addrmap.go:64-78 | appends the leading zero count and the bits after the first one; fails exactly from 128 leading zeros on |
| AddrMap.Uncompress | src/inet256ipv6/addrmap.go:81-93 | the zeros, a one and the remaining bits |
| AddrMap.IPv6FromINET256 | src/inet256ipv6/addrmap.go:37-59 | the first 128 bits of network prefix and compressed address, as bytes |
| AddrMap.PanicsExactly | src/inet256ipv6/addrmap.go:64-75 | there is no IPv6 address, and the code panics, exactly if the first 128 bits are zero |
| AddrMap.INET256PrefixFromIPv6 | src/inet256ipv6/addrmap.go:19-33 | the uncompressed prefix for an address in the network, and the two errors |
| AddrMap.ExactInverse | src/inet256ipv6/addrmap.go:19-93 | an address maps to an IPv6 address of the network exactly if it has the prefix found for that IPv6 address, whose length is the number of leading zeros plus 115 |
| AddrMap.ImageInNetwork | src/inet256ipv6/addrmap.go:35-59 | the IPv6 address of an INET256 address is in the network |
| Portal.RunAgrees | src/inet256ipv6/portal.go:110-116 | any interleaving of insertions of found addresses and deletions keeps every cached address mapping back to its IPv6 address |
| Portal.Portal.HandleOutbound | src/inet256ipv6/portal.go:146-169 | with a sound FindAddr the packet goes to an address that maps to its destination, cached or found, and the cache stays in agreement |
| Portal.Portal.PutEntry | src/inet256ipv6/portal.go:200-202 | an existing entry is kept |
| Portal.Portal.HandleInbound | src/inet256ipv6/portal.go:187-198 | a packet is accepted exactly if its IPv6 source is that of its sender |
| Portal.Portal.Expire | src/inet256ipv6/portal.go:109-116 | exactly the entries older than the time to live are dropped |
| Portal.ReplyReaches | src/inet256ipv6/portal.go:146-198 | a reply to an accepted packet goes to an address with the IPv6 address of the sender |
| TextForm.TextRoundTrip | src/inet256/id.go:56-71 | every byte string, and every address, is read back from its text |
| TextForm.TextKeepsOrder | src/inet256/id.go:14-16 | byte strings of equal length are ordered as their texts are |
| TextForm.CharOrder | src/inet256/id.go:16 | the alphabet is in the order of its characters |
| Dns.HasPrefix | src/dns256/path.go:69-79 | true exactly for a prefix |
| Dns.Handle | src/dns256/server.go:69-93 | the first redirect whose path is a prefix of the query, as one claim; without one the records that pass the filter and no others, in order, with the TTL or its default |
| Dns.PushClaims | src/dns256/resolver.go:84-104 | pushes an authority for every claim that parses, in order, until a claim is refused |
| Dns.FollowExplained | src/dns256/resolver.go:84-104 | claims whose paths are all prefixes of the path sent lead to one authority for each whose record parses, in order; else the first that is not decides which error |
| Dns.Resolve | src/dns256/resolver.go:56-107 | the claims returned are those of the last lookup, a lookup error is returned exactly if the last lookup fails, all earlier lookups redirect, and visits and outcome form a trace in the sense of OutcomeExplained |
| Dns.ResolverInvariant | src/dns256/resolver.go:64-105 | every authority asked is reached from a root by a chain of redirects whose prefixes spell its path, at most maxHops requests are made, and if the root paths are prefixes of the query each request splits the query path |
| Dns.OutcomeExplained | src/dns256/resolver.go:64-106 | every resolution is a sequence of stacks from the roots on: the top is asked for the rest of the query path, an acceptable redirect replaces it by the authorities of its claims, and the outcome is what the last lookup says or that authorities or hops have run out |
| Hops.BasicResolves | src/dns256/resolver.go:65-105 | against basic servers whose chains of empty redirects have at most `bound` links, from any roots whose paths are prefixes of the query and with that many hops, resolution ends in claims or without an authority after at most `bound` and one lookups for each remaining path element of each root and once more |
| Hops.BudgetExact | src/dns256/resolver.go:65-105 | resolution ends within that budget for all queries and all such roots exactly if no chain of empty redirects has more than `bound` links |
| Hops.AcyclicExact | src/dns256/server.go:74-83 | among finitely many servers it does, for their number, exactly if empty redirects form no cycle |
| Hops.SafeRoots | src/dns256/resolver.go:65-105 | with enough hops for the query path a root is safe against all basic servers with chains of at most `bound` empty redirects exactly if its path is a prefix of the query path or the query path is empty |
| Hops.EmptyQueryExact | src/dns256/server.go:74-83 | an empty query ends exactly if the chain of empty redirects from its server has fewer links than there are hops, and else uses them all up |
| Hops.ForeignRootLoops | src/dns256/path.go:42-47 | a root whose path is not a prefix of the query can use up any number of hops |
| Dots.ReverseInPlace | src/dns256/path.go:25-28 | the array is reversed |
| Dots.ParseDots | src/dns256/path.go:12-30 | the pieces between dots in reverse order; an error exactly for a text with another character than letters, digits, hyphen, underscore and dot, or with a dot at an end or next to another |
| Dots.DotsRoundTrip | src/dns256/path.go:15-30 | valid paths are read back from their text and texts that parse are written back |
| LinkMonitor.LinkMonitor.Mark | src/mesh256/multihoming/link_monitor.go:112-126 | the state stays the replay of the history, and every sighted key stays bound |
| LinkMonitor.LinkMonitor.CleanupOnce | src/mesh256/multihoming/link_monitor.go:193-206 | the state stays the replay of the history, which grows by the cleanup |
| LinkMonitor.LinkMonitor.PickAddr | src/mesh256/multihoming/link_monitor.go:128-163 | an address with the maximal last sighting if there is one, else one of the store; the missing-address panic is not reached |
| LinkMonitor.SightingIsGreatestSurvivor | src/mesh256/multihoming/link_monitor.go:112-206 | for every history, whatever its times, the sighting of a peer at an address is the greatest time of a mark that no later cleanup found too old, if there is one |
| LinkMonitor.SightingsRefineHistory | src/mesh256/multihoming/link_monitor.go:112-206 | if marks are in time order and cleanups are, a peer is seen at an address exactly if its latest mark follows the most recent cleanup or was young enough then, and at the time of that mark |
| Ipc.StreamFramer.Send | src/inet256ipc/stream.go:42-63 | a message within the limit is appended as one frame, a longer one refused |
| Ipc.StreamFramer.Receive | src/inet256ipc/stream.go:65-90 | takes one frame off the stream, or fails: too long exactly for a length above the limit, a clean end exactly with nothing left before or after a length, a cut one exactly with too little left |
| Ipc.CutStream | src/inet256ipc/stream.go:42-90 | a stream of frames cut anywhere yields exactly the messages whose frames are whole, in order, and then a clean end exactly if the cut leaves nothing or just the length of the next frame, else a cut one |
| Ipc.CompleteExact | src/inet256ipc/stream.go:65-90 | the whole frames and what the cut leaves of the next make up the stream |
| Ipc.FramingRoundTrip | src/inet256ipc/stream.go:42-90 | the whole stream yields all messages in write order and is used up |
| Ipc.WriteDataMessage | src/inet256ipc/message.go:139-146 | type, address and payload at the start of the buffer, the rest of it unchanged |
| Ipc.WriteKeepAlive | src/inet256ipc/message.go:148-153 | the type at the start of the buffer, the rest of it unchanged |
| Ipc.WriteAskMessage | src/inet256ipc/message.go:155-166 | type, request ID and body at the start of the buffer, the rest of it unchanged |
| Ipc.DataRoundTrip | src/inet256ipc/message.go:34-94 | data messages and pairs of address and payload correspond one to one |
| Ipc.AskRoundTrip | src/inet256ipc/message.go:34-106 | asking messages and triples of type, request ID and body correspond one to one |
| Ipc.MessageExact | src/inet256ipc/message.go:34-55 | the messages accepted are exactly data messages, those that ask or answer, and anything that starts with the type of a keep-alive |
| Ipc.DataFitsFrame | src/inet256ipc/message.go:23-30 | a data message with a payload up to the MTU passes the framer |
| Balancer.PickBackend | src/inet256lb/stream.go:100-115 | a backend with the least count, or an error if there is none |
| Balancer.ImbalanceBound | src/inet256lb/stream.go:76-115 | with at most k connections between arrival and increment and none that ends, two counts never differ by more than k, in every interleaving of single counter reads and increments |
| Balancer.BoundIsReached | src/inet256lb/stream.go:76-115 | for every k two backends can differ by exactly k |
| CentralDisco.Server.Announce | src/discovery/centraldisco/server.go:54-91 | each refusal exactly for the first check that fails, with nothing stored; a request that has a key, a good signature, a timestamp and good endpoints joins the run whose replay the register is, and is accepted exactly if its timestamp is greater than all its peer announced before |
| CentralDisco.Server.Get | src/discovery/centraldisco/server.go:113-117 | a record the peer announced with its greatest timestamp, from a signed request of that peer, or nothing exactly if it never announced |
| CentralDisco.ReplayHoldsLatest | src/discovery/centraldisco/server.go:75-90 | after any run the register holds, for exactly the peers that announced, a record with the greatest timestamp |
| CentralDisco.TimestampsGrow | src/discovery/centraldisco/server.go:78-82 | stored timestamps strictly increase along a run |
| CentralDisco.OrderIndependence | src/discovery/centraldisco/server.go:75-91 | the result does not depend on the order of arrival exactly if no peer has two different records with its greatest timestamp |
| CentralDisco.DistinctTimestampsSuffice | src/discovery/centraldisco/server.go:75-91 | distinct timestamps per peer make it so |

## Left out

- Signatures, hashes, key exchange and public keys: a beacon names its origin's address, and whether it verifies is a parameter.
- Loop freedom across `cleanupOnce`, and that targeted beacons die out: the code does not provide either.
- Changes of the peer set during a run, and `Reset` in the middle of one.
- LookupPublicKey and handlePublicKey: a table lookup and a promise for one key.
- JSON, protobuf, gRPC, HTTP, TUN devices, timers and logging; `Lookup` of the discovery server beyond the register.
- `HasSuffix` and `LayeredHandler.Handle` of DNS256, the NAT table, reference counting, node maps and address mining.
- `Slice`, `Concat` and the byte-wise appends of the bit strings: further loops of the kind of `AppendAll`.
- The query filter of DNS256 is any predicate on records; the filter language is not modelled.
- Ipc.StreamFramer.Receive: returns the message instead of lending a pooled buffer to a callback, so reuse of the buffer after the callback is not captured.
- Ipc.StreamFramer.Send: a write that fails half way is not modelled; what the reader then sees is the cut stream of CutStream.
- Bitstr.Buffer.Truncate: a length beyond the old one leaves the buffer as the source does, without a statement about its bits.
- FindAddr.FulfilledHasPrefix: supposes sound promises, because a request for zero bits with the same key can make them unsound.
- Portal.Portal.HandleInbound: does not model the allow function, headers that do not parse, or that an error ends the inbound loop.
- Router.Router.HandleBeacon: runs its parts one after the other; their interleaving with other handlers is in Mesh. The report of the public key to the layer above is not modelled.
