# Proofs about the packet, routing and handshake cores of wireguard-go

Every module models one component of `wireguard-go/` and proves what that component is for.
Code that updates objects and buffers in place is modelled by classes and methods with
loops, proved against specification functions; the promises are lemmas about those.

| files | component |
|---|---|
| Checksum, Bytes | the Internet checksum in 64-bit native-endian words (`tun/checksum.go`) |
| Wire | where the standards put the fields of a packet, and that this is what is read |
| Headers, GroItems, GroState, GroSteps, GroPlans, GroTries, Gro, GroAccounting | merging packets of a flow (`tun/offload_linux.go`) |
| GroReference, GroVerdicts | which packets are merged, said of their bytes alone, and that the code decides so |
| WrittenHeaders | the headers of a merged packet, by the standards |
| Segments, GsoSplit, SplitProperties, SplitUndoesMerge, RestoredBytes, PushLost | cutting a large packet, and how far it undoes merging |
| TrieShape, TrieCanon, TrieEdits, AllowedIPs | the routing trie and its per-peer lists (`device/allowedips.go`) |
| Noise, NoisePatterns, KeyDerivation | the handshake over uninterpreted primitives (`device/noise-protocol.go`, `noise-helpers.go`) |
| Rotation, KeypairSlots, Device | keypair rotation and the index table (`device/indextable.go`, `keypair.go`, `peer.go`) |
| Nonces, StagedQueue | nonces under concurrent senders, and the staged queue (`device/send.go`) |
| Replay | the anti-replay window (`replay/replay.go`) |
| UdpBatch, UdpSplit | joining and splitting batches of datagrams (`conn/bind_std.go`) |
| RateLimiter, Stun | token bucket, the two STUN parsers |
| Timers, Retransmit | timer cancellation, handshake retries (`device/timers.go`, `device/send.go`) |
| Options, Sequences | shared definitions |

How the parts fit together:

- **Merging and splitting.** `GroItems.Merged` says which packets a buffer stands for. The
  steps of tcpGRO and udpGRO keep it (`GroSteps`), next to an invariant on who was merged
  where (`GroState`). `Gro.Batch` does the steps on its buffers and tables, and makes at each
  packet the move that `GroReference` makes on the bytes alone (`GroVerdicts`, `GroPlans`).
  `GsoSplit.Split` is proved against the function `Segment`; `SplitUndoesMerge` joins the two
  ends, and `Wire`, `WrittenHeaders` and `RestoredBytes` say it of the bytes on the wire.
- **The trie.** `TrieShape` is a trie as a map from prefixes to nodes with links and
  parents. `AllowedIPs.Table` keeps a heap of nodes that draws such a shape, so that
  pointer surgery is a function on shapes, and routes, canonicity and size follow from lemmas.
- **Handshake.** The four message functions are pure (`Noise`); `Device.Device` runs them
  step by step on its fields, and `Rotation` shows what every step keeps over every run.
  `NoisePatterns` writes and reads the same messages as token lists. The primitives are
  function values. Two laws are used, and can be met (`Noise.LawsAreConsistent`): both sides
  of a key exchange agree, and opening undoes sealing. What a completed run tells about the
  other side needs a third, `NoisePatterns.Strict`: no collisions of hash and HMAC, and a
  seal opens under no other key or data (`NoisePatterns.StrictIsConsistent`).
- **Concurrency.** Nonces, timers and retries are step systems whose runs interleave in every order.

Check everything with `dafny verify dfyconfig.toml`.

## Model

| member | source | states |
|---|---|---|
| Checksum.Compute | wireguard-go/tun/checksum.go:86-93 | For every length, every 64-bit initial value and either machine byte order, the result is the plain big-endian 16-bit sum folded to 16 bits (section 2 of RFC 1071). |
| Checksum.NoFold | wireguard-go/tun/checksum.go:9-84 | The 64-bit accumulator has the residue of `initial` plus the plain sum modulo 2^16 - 1, and is zero only when that sum is. |
| Checksum.AddStep | wireguard-go/tun/checksum.go:16-33 | Adding a word with a deferred carry keeps the residue and `ac + carry < 2^64`, so `ac += carry` at the end of a run never loses a carry. |
| Checksum.FourFoldsSuffice | wireguard-go/tun/checksum.go:86-93 | Four folds bring every 64-bit value to its complete fold. |
| Checksum.ThreeFoldsDoNotSuffice | wireguard-go/tun/checksum.go:86-93 | Three folds leave some 64-bit value at 2^16 or more. |
| Checksum.OnesSumIsReference | wireguard-go/tun/checksum.go:9-93 | Folding once at the end gives the same value as bringing every carry around at once. |
| Checksum.PseudoHeaderNoFold | wireguard-go/tun/checksum.go:95-102 | Chaining four sums stands for the pseudo header: a checksum continued from it is the checksum of pseudo header and data. |
| Checksum.StoredChecksumValidates | wireguard-go/tun/offload_linux.go:388-398 | Data whose checksum field was zero sums to 0xFFFF once the complement of its checksum is stored there. |
| Gro.Batch.HandleGro | wireguard-go/tun/offload_linux.go:861-888 | Fails exactly on a batch with an unacceptable buffer. On success every packet is written once or is a member of exactly one written packet, the written indexes increase, datagrams of a UDP flow keep their order, every written buffer is the packet as it came with a cleared virtio header or the accounted merge of its members, and slices in use and in the pool add up. Who is merged with whom is exactly what GroReference says from the bytes and rooms alone: a batch of n segments in order or back to front, or of n datagrams, for every n up to 128, leaves as the one packet 0. |
| GroReference.InOrderMerges | wireguard-go/tun/offload_linux.go:591-607 | For every n: valid segments in order of one flow, alike and of one size (the last may be shorter or push), or such datagrams, with room behind the first, end as one group, in order. |
| GroReference.BackToFrontMerges | wireguard-go/tun/offload_linux.go:591-607 | The same for segments that arrive back to front, with room behind each for what came before it. |
| GroVerdicts.TcpModeIff | wireguard-go/tun/offload_linux.go:334-386 | The TCP test admits a packet at the end, or at the front, exactly when the bytes of the packets in the item say that it comes next, or before: options, IP class, sizes, sequence numbers, PSH. |
| GroVerdicts.UdpModeIff | wireguard-go/tun/offload_linux.go:314-329 | The UDP test admits a datagram exactly when the bytes say so. |
| GroVerdicts.ResultIsVerdict | wireguard-go/tun/offload_linux.go:414-513 | Room, checksum of the item's only packet, checksum of the new one, merge: the attempt ends as the reference rules on the packets. |
| Wire.ParsesIff | wireguard-go/tun/offload_linux.go:531-592 | A packet reaches a table exactly when its bytes make it a whole, unfragmented TCP packet with ACK and maybe PSH, or a UDP packet, with a payload; what is read lies where the standards put it. |
| Wire.KeysIff | wireguard-go/tun/offload_linux.go:85-97 | Two packets have one flow key exactly when version, protocol, addresses, ports, and for TCP the acknowledgement number, are equal bytes. |
| Wire.ClassIff | wireguard-go/tun/offload_linux.go:279-307 | The header test compares traffic class and hop limit, or TOS, flags and TTL. |
| Wire.SumsAgree | wireguard-go/tun/offload_linux.go:388-398 | The checksum test is that of the standards over pseudo header, transport header and payload. |
| WrittenHeaders.WrittenIsRight | wireguard-go/tun/offload_linux.go:629-735 | Of every written buffer with a virtio header: IPv4 total length and header sum, or IPv6 payload length, and the UDP length are those of the merged packet; the virtio header names its family and protocol, its header length, segment size and checksum place, and finishing the partial checksum there makes it valid. |
| GroItems.AppendKeeps | wireguard-go/tun/offload_linux.go:444-506 | Appending a packet that may join keeps the buffer the merge of its packets in sequence order. |
| GroItems.PrependKeeps | wireguard-go/tun/offload_linux.go:444-506 | So does prepending with the buffer swap, with the head's header and sequence number becoming the prepended packet's. |
| GroItems.TcpAppendMeans | wireguard-go/tun/offload_linux.go:334-386 | What the TCP test admits at the end is the next segment of the same flow, no longer than the others, after full segments without PSH. |
| GroItems.TcpPrependMeans | wireguard-go/tun/offload_linux.go:334-386 | What it admits at the front ends where the item begins, carries no PSH, and has the common size unless the item is a single packet. |
| GroItems.AdjacencyDoesNotWrap | wireguard-go/tun/offload_linux.go:346-360 | The 16-bit length in the adjacency test is exact whenever appending is possible. |
| GroState.UdpOrderKept | wireguard-go/tun/offload_linux.go:782-854 | Of two datagrams of one UDP flow the earlier is written in an earlier packet, or earlier in the same one. |
| GroAccounting.Account | wireguard-go/tun/offload_linux.go:629-735 | Lengths, IP checksum, partial transport checksum and virtio header as a function of item and packet. |
| SplitUndoesMerge.WrittenSplits | wireguard-go/tun/offload_linux.go:531-735 | A written buffer with a virtio header, cut by gsoSplit, has as many segments as members, and segment j is the j-th again, byte by byte (`SegmentIsRebuilt`). |
| SplitUndoesMerge.SegmentIsRebuilt | wireguard-go/tun/offload_linux.go:893-975 | Segment j and packet j have equal length, addresses, ports, protocol, sequence and acknowledgement numbers, TOS or traffic class, flags, TTL or hop limit, header length, TCP options and payload, and the segment's checksums hold; PSH as in `SegmentPushesIff`. IPv6 flow label, TCP window, urgent pointer and reserved bits are the first packet's, and the IPv4 ID is counted up from it. |
| SplitUndoesMerge.SplitWritten | wireguard-go/tun/tun_linux.go:403-448 | End to end: with enough outputs, splitting such a buffer returns the number of its members and output j is member j again, byte by byte. |
| SplitUndoesMerge.SegmentPushesIff | wireguard-go/tun/offload_linux.go:444-506 | For every item that merged packets, whatever the order of arrival: a segment pushes exactly when its packet does, unless it is the last, its packet pushes and a packet was put in front of it later; then PSH is lost. |
| PushLost.PushIsLost | wireguard-go/tun/offload_linux.go:334-386 | Two packets of one flow with valid checksums: the later one in the stream arrives first and pushes, the test admits the other in front, and cut again the merged packet has lost PSH. |
| GsoSplit.Split | wireguard-go/tun/offload_linux.go:893-975 | Succeeds exactly when the outputs suffice; output i then is segment i, its size stored and its tail untouched; on failure all outputs are written. |
| GsoSplit.SequenceFits | wireguard-go/tun/offload_linux.go:948-951 | For inputs of at most 65535 bytes `gsoSize * i` does not wrap at 2^16 in the sequence number. |
| SplitProperties.SegmentIsDescribed | wireguard-go/tun/offload_linux.go:893-975 | All header fields of a segment: lengths, counted-up IPv4 ID, IPv4 header sum, sequence number, FIN and PSH (bits 0 and 3) off on all but the last and the other flags kept, and a transport checksum that validates. |
| SplitProperties.PayloadsConcatenate | wireguard-go/tun/offload_linux.go:893-975 | The payloads of the segments, put together, are the payload of the input. |
| AllowedIPs.Table.Insert | wireguard-go/device/allowedips.go:291-304 | The routes gain the masked prefix with its peer, the trie stays canonical and every peer's list holds exactly its nodes. |
| AllowedIPs.Table.Remove | wireguard-go/device/allowedips.go:259-278 | The routes lose the prefix exactly if it was stored for this peer; all invariants stay. |
| AllowedIPs.Table.RemoveByPeer | wireguard-go/device/allowedips.go:280-289 | The routes lose exactly the prefixes of the peer. |
| AllowedIPs.Table.Lookup | wireguard-go/device/allowedips.go:306-317 | The peer of the longest stored prefix that contains the address, or none. |
| AllowedIPs.Table.EntriesForPeer | wireguard-go/device/allowedips.go:213-224 | The prefixes of a peer, each once. |
| AllowedIPs.Table.NodePlacement | wireguard-go/device/allowedips.go:88-99 | Either the node of the prefix, or the slot under which a new node belongs. |
| TrieCanon.ShapeIsUnique | wireguard-go/device/allowedips.go:101-189 | Two canonical tries with the same routes have the same nodes, links and parents. |
| TrieCanon.FewNodes | wireguard-go/device/allowedips.go:226-257 | n prefixes use at most 2n nodes less one per address family in use. |
| TrieCanon.LongestMatchUnique | wireguard-go/device/allowedips.go:191-205 | The longest match determines the answer. |
| TrieCanon.SlowIsLongestMatch | wireguard-go/device/allowedips_rand_test.go:60-68 | The naive router gives the longest match, so the trie agrees with it. |
| TrieEdits.InsertThenRemove | wireguard-go/device/allowedips.go:226-257 | Removing a freshly inserted prefix gives back the very same nodes and links. |
| Noise.HonestRunAgrees | wireguard-go/device/noise-protocol.go:270-699 | For all keys, ephemerals, preshared key and timestamp: the run completes exactly when the four shared secrets are nonzero and the timestamp is timely, and then both sides hold the same hash and chain key and mirrored transport keys. |
| Noise.FirstMessageAgrees | wireguard-go/device/noise-protocol.go:340-442 | After the first message both sides hold the same hash and chain key. |
| Noise.SecondMessageAgrees | wireguard-go/device/noise-protocol.go:512-607 | After the second message they do so again, and the response names the initiator's index. |
| Noise.InitiationReplayRejected | wireguard-go/device/noise-protocol.go:396-424 | Offered again at once, an initiation is refused. |
| Noise.InitiationTakenOnce | wireguard-go/device/noise-protocol.go:396-424 | Once taken, an initiation is refused for ever, whatever initiations come in between. |
| Noise.AfterIff | wireguard-go/tai64n/tai64n.go:35-37 | A timestamp is after another exactly when it is larger at the first byte where they differ. |
| NoisePatterns.InitiationIsPattern | wireguard-go/device/noise-protocol.go:270-338 | The first message and the state it leaves are the tokens e, es, s, ss and a timestamp, written by an interpreter of the Noise framework over hash, chain key and cipher key (sections 5.2, 7 and 9 of its revision 34). |
| NoisePatterns.InitiationIsRead | wireguard-go/device/noise-protocol.go:340-442 | An initiation is taken exactly when the interpreter reads those tokens from it, the peer it names is known, its timestamp is newer and 20 ms have passed; then the state is the interpreter's. |
| NoisePatterns.ResponseIsPattern | wireguard-go/device/noise-protocol.go:444-510 | The second message is the tokens e, ee, se, psk and nothing, written by the interpreter. |
| NoisePatterns.ResponseIsRead | wireguard-go/device/noise-protocol.go:512-607 | And it is taken exactly when the interpreter reads them. |
| NoisePatterns.SessionKeysAreSplit | wireguard-go/device/noise-protocol.go:612-648 | The transport keys are the two outputs of the framework's split, in the order of the role. |
| NoisePatterns.InitiationBinds | wireguard-go/device/noise-protocol.go:340-442 | Without collisions and with seals that open only as they were sealed: an initiation opens exactly for the static key it was made for, and is taken exactly when the sender is known, both have the same static secret and it is timely. |
| NoisePatterns.ResponseBinds | wireguard-go/device/noise-protocol.go:512-607 | Under the same assumption a response is taken exactly when both sides have the same hash, chain key, preshared key and shared secrets. |
| NoisePatterns.RunCompletesIff | wireguard-go/device/noise-protocol.go:270-699 | Under the same assumption, for any two sides: a run completes exactly when each expects the other's static key, the preshared keys and the static secrets agree, no secret is zero and it is timely. |
| KeyDerivation.KDF1 | wireguard-go/device/noise-helpers.go:43-46 | The first expanded block of the extracted key, also when the output is the key. |
| KeyDerivation.KDF2 | wireguard-go/device/noise-helpers.go:48-54 | The first two expanded blocks (section 2 of RFC 5869), also when an output is the key. |
| KeyDerivation.KDF3 | wireguard-go/device/noise-helpers.go:56-63 | The first three expanded blocks, also when an output is the key. |
| Device.NewPeersAgree | wireguard-go/device/peer.go:61-114 | Two devices that have just been made known to each other complete a run exactly when no secret is zero, the timestamp is not zero and the clock is past the flood limit. |
| Device.IndexTable.NewIndexForHandshake | wireguard-go/device/indextable.go:58-92 | The first drawn index that is not in use, entered for the peer's handshake. |
| Device.Device.NewPeer | wireguard-go/device/peer.go:61-114 | Succeeds exactly below 2^16 peers and for a new key. |
| Device.Device.CreateMessageInitiation | wireguard-go/device/noise-protocol.go:270-338 | The message of the pure protocol; the handshake's old index is given up and the new one entered. The table stays right exactly when no message comes out or the drawn index is not 0. |
| Device.Device.ConsumeMessageInitiation | wireguard-go/device/noise-protocol.go:340-442 | Takes exactly the messages the pure protocol takes from a running peer; only that handshake changes. |
| Device.Device.CreateMessageResponse | wireguard-go/device/noise-protocol.go:444-510 | The message of the pure protocol; a new index only in the state that answers. The table stays right exactly when none was drawn or it is not 0. |
| Device.Device.ConsumeMessageResponse | wireguard-go/device/noise-protocol.go:512-607 | Takes exactly a response that finds its handshake by its index and opens under it. |
| Device.Device.BeginSymmetricSession | wireguard-go/device/noise-protocol.go:612-699 | Only a finished handshake becomes a session; its index passes to the new keypair and dropped keypairs give theirs up. |
| Device.Device.ReceivedWithKeypair | wireguard-go/device/noise-protocol.go:701-718 | Rotates exactly when the waiting keypair was used. |
| Device.Device.ZeroAndFlushAll | wireguard-go/device/peer.go:214-238 | All four indexes of the peer leave the table. |
| Device.Device.ExpireCurrentKeypairs | wireguard-go/device/peer.go:240-257 | The handshake's index leaves the table, the keypairs keep theirs. |
| Device.Device.RemovePeer | wireguard-go/device/device.go:131-138 | The peer goes; the table stays good exactly when the peer ran or held no index. |
| KeypairSlots.BeginFillsSlots | wireguard-go/device/noise-protocol.go:655-699 | An initiator's new keypair is current and what was next, or else current, is previous; a responder's waits in next, current stays and previous goes. |
| KeypairSlots.BeginDrops | wireguard-go/device/noise-protocol.go:674-699 | Just the keypairs that leave the slots leave the index table. |
| KeypairSlots.ConfirmMovesUp | wireguard-go/device/noise-protocol.go:701-718 | A packet under the waiting keypair makes it current and the old current previous; under any other keypair nothing changes. |
| KeypairSlots.SlotsHaveOrigin | wireguard-go/device/noise-protocol.go:655-718 | Over every run: a waiting keypair was begun as responder; a current one was begun as initiator, or confirmed while it was waiting. |
| KeypairSlots.ResponderWaits | wireguard-go/device/noise-protocol.go:701-718 | Over every run: the keypair of a session begun as responder is current only after a packet came in under it. |
| KeypairSlots.InitiatorSendsAtOnce | wireguard-go/device/noise-protocol.go:681-692 | Over every run: an initiator's keypair is current from the step that begins its session, until a step that puts another in its place. |
| KeypairSlots.SecretsAreForgotten | wireguard-go/device/noise-protocol.go:246-253 | After a session began, a flush or an expiry the handshake holds no chain key, hash or ephemeral key; it takes and makes no response and gives no session again. An expiry leaves the keypairs. |
| Rotation.EveryRunKeeps | wireguard-go/device/noise-protocol.go:270-718 | In every reachable state every table entry points to an owner that holds its index, and every index held is in the table. |
| Rotation.TableIsDisjointUnion | wireguard-go/device/indextable.go:38-92 | The table is the disjoint union, over peers, of the handshake index and the indexes of the three keypair slots. |
| Rotation.HeldOnce | wireguard-go/device/keypair.go:35-52 | The four indexes of one peer differ. |
| Rotation.FreeIndexExists | wireguard-go/device/indextable.go:58-92 | At most four entries a peer and 2^16 peers: a nonzero 32-bit index is always free. |
| Rotation.IndexUsableIffNonzero | wireguard-go/device/indextable.go:58-92 | A drawn free index keeps the invariant exactly when it is not 0. |
| Rotation.ZeroIndexIsLost | wireguard-go/device/indextable.go:38-42 | From every good state: after index 0 was drawn, the next draw, flush or expiry of any other peer without an index removes its entry. |
| Rotation.RemoveKeepsIff | wireguard-go/device/peer.go:259-277 | Removing a peer keeps the invariant exactly when it runs or holds no index. |
| Nonces.NoncesAreFresh | wireguard-go/device/send.go:349-373 | Over every interleaving of senders and key expiry, with at most 2^13 senders between Add and Store: the counter never wraps, used nonces strictly increase and stay below the limit. |
| Nonces.SlackIsExact | wireguard-go/device/constants.go:16 | No nonce is used twice, whatever the interleaving, exactly when at most 2^13 senders are between Add and Store. |
| Nonces.EveryNonceIsUsed | wireguard-go/device/send.go:349-373 | While senders only add, every nonce from 0 on is used, in order. |
| Nonces.SpentStaysSpent | wireguard-go/device/peer.go:240-257 | Within the slack no nonce is used after the keypair has expired or reached the limit. |
| StagedQueue.Peer.StagePackets | wireguard-go/device/send.go:318-335 | The container is queued; a full queue first gives its oldest back to the pool; no packet is lost or doubled. |
| StagedQueue.Peer.FlushStagedPackets | wireguard-go/device/send.go:404-417 | The queue is empty afterwards and its packets are back in the pool. |
| StagedQueue.Peer.SendStagedPackets | wireguard-go/device/send.go:337-402 | Sends the prefix whose nonces are below the limit, in order, and restages the suffix; every packet ends sent, staged or in the pool; the loop ends. |
| StagedQueue.DrainCounts | wireguard-go/device/send.go:366-380 | The nonces sent count up from the keypair's, one a packet, and stay below the limit. |
| StagedQueue.DrainInOrder | wireguard-go/device/send.go:337-402 | What is sent is a prefix of the staged packets, in order; what stays keeps its order, except that the container that was cut goes behind the others. |
| StagedQueue.DrainConserves | wireguard-go/device/send.go:337-402 | Sent and staged packets together are those that were staged. |
| StagedQueue.DrainIsThorough | wireguard-go/device/send.go:337-402 | Nothing stays staged while nonces are left. |
| Replay.Filter.ValidateCounter | wireguard-go/replay/replay.go:37-62 | Accepts exactly a counter below the limit, at most the window behind the newest, and not accepted since the last Reset, although Reset clears one block only. |
| Replay.Filter.Reset | wireguard-go/replay/replay.go:30-33 | Forgets every accepted counter. |
| Replay.NoReplay | wireguard-go/replay/replay.go:11-62 | Over any call sequence no counter is accepted twice without a Reset in between. |
| Replay.AcceptedIff | wireguard-go/replay/replay.go:37-62 | Of any sequence of calls: a counter is accepted exactly when it is below the limit and every counter accepted since the last Reset is another one, at most 8128 ahead. |
| UdpBatch.EqualSizesShareOneMessage | wireguard-go/conn/bind_std.go:490-538 | Up to 64 datagrams of one size (the last may be shorter), with room behind the first and together at most 65507 bytes, or 65527 for IPv6, leave as one message with their size. |
| UdpBatch.CoalesceMessages | wireguard-go/conn/bind_std.go:490-538 | The messages are consecutive maximal runs; segmented at the size set on them they deliver exactly the non-empty datagrams, the size is set once on exactly those with several, and the datagrams read as before, for the retry without offload. |
| UdpBatch.AllDelivered | wireguard-go/conn/bind_std.go:422-445 | The same of the messages alone, whatever the sizes and capacities. |
| UdpBatch.ChopUndoesJoin | wireguard-go/conn/bind_std.go:490-538 | Segmenting undoes joining. |
| UdpSplit.SplitCoalescedMessages | wireguard-go/conn/bind_std.go:542-584 | From the first message on, to one that is empty, has bad control data or a segment size beyond its buffer, exactly the pieces come out, in order and with their sender, unless they would pass a message not read yet; overflow exactly then, and otherwise the error says why it ended. |
| UdpSplit.SendersKeepTheirData | wireguard-go/conn/bind_std.go:542-584 | For each sender, the pieces put together are the datagrams it sent, in order. |
| UdpSplit.ReservedSlotsSuffice | wireguard-go/conn/bind_std.go:246-251 | With two read slots of 128 and at most 64 pieces each there is always room. |
| UdpSplit.PiecesAreDatagram | wireguard-go/conn/bind_std.go:542-584 | The pieces are the datagram exactly when the segment size is at most its length. |
| RateLimiter.Ratelimiter.Allow | wireguard-go/ratelimiter/ratelimiter.go:99-137 | Table and answer as a function of the table and the clock. |
| RateLimiter.Ratelimiter.Cleanup | wireguard-go/ratelimiter/ratelimiter.go:84-97 | Removes only what was idle for a second at the end, and all that was at the start. |
| RateLimiter.SweepIsLegal | wireguard-go/ratelimiter/ratelimiter.go:84-97 | What Cleanup does is a collection of the runs below: it removes only what was idle for a second. |
| RateLimiter.CollectionIsInvisible | wireguard-go/ratelimiter/ratelimiter.go:84-137 | Over every run the limiter answers like one that never collects. |
| RateLimiter.BurstIsBounded | wireguard-go/ratelimiter/ratelimiter.go:14-20 | In any span T the N packets of an address that pass satisfy N * 50 ms < 250 ms + T. |
| RateLimiter.SlowSenderPasses | wireguard-go/ratelimiter/ratelimiter.go:99-137 | Whatever else happens, an address whose packets are 50 ms or more apart is never refused. |
| RateLimiter.BurstIsExact | wireguard-go/ratelimiter/ratelimiter.go:14-20 | Of the packets a new address sends within 50 ms the first four pass, and of the others exactly the first that comes later than the very first. |
| Timers.DelSyncIsFinal | wireguard-go/device/timers.go:28-67 | For every one of any number of overlapping DelSync calls, over every interleaving: once it has returned, and until the next outside Mod if there was none since it began, the timer is neither pending nor armed, no expiry body runs, and none starts. |
| Timers.BodyRunsIff | wireguard-go/device/timers.go:28-60 | Over every interleaving: a callback that gets to look runs its body exactly when the last that happened to the timer was that it was set, not cancelled and not run already. |
| Timers.SecondDelIsNeeded | wireguard-go/device/timers.go:62-67 | A body running at the first Del can leave the timer set when the lock is taken. |
| Timers.ConditionIsNeeded | wireguard-go/device/timers.go:48-67 | One outside Mod while DelSync runs leaves the timer set after it returned. |
| Retransmit.RetriesBetweenRequests | wireguard-go/device/timers.go:79-107 | Over every run, between two requests for a new key or completed handshakes there are at most 19 retries. |
| Retransmit.GivesUpIff | wireguard-go/device/timers.go:79-107 | After a request or a completion the timer gives up exactly at an expiry that 19 retries came before. |
| Retransmit.RetriesWithoutBound | wireguard-go/device/send.go:98-140 | Requests reset the count: for every n there is a run in which nothing is heard, n retries happen and the timer never gives up. |
| Retransmit.InitiationsAreApart | wireguard-go/device/send.go:98-140 | Over every run two initiations are at least 5 seconds apart, however often they are asked for. |
| Retransmit.TriesGoOut | wireguard-go/device/send.go:98-140 | A request or retry 5 seconds or more after the last handshake message counts as one, goes out if it can be made and then sets the timer to 5 to 5.334 seconds; any other sends nothing, and a retry has then used up its timer. |
| Retransmit.EndsCancel | wireguard-go/device/timers.go:79-107 | After a completed handshake, or after giving up, no retry happens before the next request. |
| Retransmit.ResponseHoldsBack | wireguard-go/device/send.go:142-145 | For 5 seconds after a response no initiation goes out. |
| Stun.EncodedIsRead | wireguard-go/z/stun/client.go:57-96 | Of every well-formed response StunClient returns the address exactly when its family is IPv4; parseStunResponse returns it whatever the family. |
| Stun.Ipv6IsMisread | wireguard-go/vpnengine.go:421-442 | parseStunResponse takes an encoded IPv6 address for the IPv4 address of its first four bytes. |
| Stun.Parse | wireguard-go/z/stun/client.go:57-96 | In bounds and terminating on every input, with the result of the parser as a function. |
| Stun.ParseStunResponse | wireguard-go/vpnengine.go:421-442 | The result of the other parser as a function, a failing slice expression included. |
| Stun.BothFindEncoded | wireguard-go/vpnengine.go:421-442 | On every well-formed response both parsers return the encoded address and port (section 14.2 of RFC 8489). |
| Stun.ParsersAgree | wireguard-go/z/stun/client.go:57-96 | With the standard cookie, whatever StunClient finds on any input the other parser finds as well. |
| Stun.TruncatedAddressPanics | wireguard-go/vpnengine.go:421-442 | After any header, an address attribute cut off after its length is skipped by one parser and makes the other fail. |
| Stun.PanicsIffTruncated | wireguard-go/vpnengine.go:421-442 | parseStunResponse fails exactly when the first address attribute of declared length at least 8 that it reaches is cut off. |

## Findings

Where the code does not do what its comments or callers rely on, the exact condition is proved.

- **Index 0.** The code uses `localIndex == 0` for "no index", but a random draw can be 0.
  `Rotation.IndexUsableIffNonzero`: a drawn index keeps the table right exactly when it is
  not 0. `Rotation.ZeroIndexIsLost`: with 0, any other peer without an index removes the
  entry at its next draw, flush or expiry.
- **Truncated STUN attribute.** `parseStunResponse` reads 8 bytes of an address attribute
  without looking whether they are there. `Stun.PanicsIffTruncated` says exactly when the
  slice expression fails, for every packet of at least 20 bytes. `StunClient.parse` finds no
  address in such a packet with the standard cookie (`Stun.TruncatedAddressPanics`, and
  `Stun.ParsersAgree` read backwards).
- **Segment size beyond the datagram.** `splitCoalescedMessages` copies `gsoSize` bytes also
  when the datagram is shorter; `UdpSplit.PiecesAreDatagram` has the exact condition.
- **Nonce slack.** The margin of 2^13 below the wrap-around covers 2^13 senders between
  reading and testing the counter, and not one more (`Nonces.SlackIsExact`).
- **PSH.** Prepending to an item whose last packet pushes loses PSH. For every written
  buffer, cut again: PSH is lost exactly when the last packet in sequence pushes and another
  was put in front after it (`SplitUndoesMerge.SegmentPushesIff`, carried by
  `SplitUndoesMerge.WrittenSplits`); `PushLost.PushIsLost` is such an input.
- **Borrowed fields.** Merging compares neither TCP window, urgent pointer and reserved bits
  nor the IPv6 flow label: cut again, every packet has those of the first one
  (`RestoredBytes.Borrowed` in `SplitUndoesMerge.SegmentIsRebuilt`).
- **STUN over IPv6.** `parseStunResponse` does not look at the address family and takes an
  IPv6 address for an IPv4 one (`Stun.Ipv6IsMisread`); StunClient skips it (`Stun.EncodedIsRead`).
- **Burst of five.** `packetsBurstable` is 5, but a packet must leave tokens over: of packets
  that come at one instant only four pass (`RateLimiter.BurstIsExact`).
- **A retry that comes too early.** When the retransmission timer expires within 5 seconds of
  a handshake response, the retry sends nothing and sets no timer: the retries end without
  giving up (`Retransmit.TriesGoOut`).
- **Handshake retries.** The comment speaks of a limit on attempts, but every request for a
  new key sets the count back, also one that is too early to send anything. Between requests
  the limit holds (`Retransmit.RetriesBetweenRequests`); with one request per retry they go
  on for ever although nothing is heard (`Retransmit.RetriesWithoutBound`).
- **Removing a peer that does not run.** `Peer.Stop` returns early and flushes nothing:
  index table entries of such a peer would stay (`Rotation.RemoveKeepsIff`). No run here
  reaches such a peer with an index; in the code only a race between the isRunning test of
  ConsumeMessageInitiation and Stop could make one.
- **Too few outputs.** When gsoSplit runs out of outputs it returns one less than the number
  of segments it has written (`GsoSplit.Split`).

## Left out

Contracts that say less than the code does:

- Gro.Batch.HandleGro: buffers are values (header area, packet, room behind it), with no two sharing memory; the virtio header is a record, not its ten encoded bytes; the error of a failed encoding cannot occur and is not modelled. Room is at most 65535 bytes behind the offset and a batch at most 128 packets: the code never compares a merged length with 65535, and its callers meet both.
- GsoSplit.Split: outputs are byte sequences after the offset; inputs are packets whose header fields lie where the protocol puts them, of at most 65535 bytes; packets without GSO (gsoNoneChecksum) are not modelled.
- GroReference.InOrderMerges: the room behind a buffer is its capacity less the offset twice, as the code counts it.
- NoisePatterns.RunCompletesIff: its assumption on the primitives holds of no hash of fixed length to the letter; it stands for what is infeasible.
- AllowedIPs.Table.EntriesForPeer: the callback never stops early; a peer's list is a sequence, its list handles are the nodes, and peers are identified by a value.
- Device.Device.NewPeer: queues, endpoint and timers of the new peer, and the error of a closed device, are not part of this model.
- Device.Device.CreateMessageInitiation: requires that a free index comes up among the draws; a failing random source is not modelled, nor are MACs, cookies and the encoding of messages.
- Device.Device.CreateMessageResponse: the same.
- Device.Device.ExpireCurrentKeypairs: spending the nonces of the current and next keypair is a step of Nonces, not of this state.
- Rotation.EveryRunKeeps: exported functions are atomic steps; checks under a read lock and updates under a write lock of ConsumeMessageInitiation and ConsumeMessageResponse are one step each. Peers that do not run are removed only while they hold no index.
- StagedQueue.Peer.SendStagedPackets: one caller at a time, and one keypair throughout, also when the loop starts over at `top`; keepalives and the handshake that is started when no key is usable are not modelled; where `up`, `usable` or `running` may fail on the way, conservation, the bound on the queue, and that nothing is sent without them are stated.
- Replay.Filter.ValidateCounter: blocks are sequences of bits; counters are unbounded naturals below the limit, so wrap-around of 64-bit counters is not modelled.
- UdpBatch.CoalesceMessages: the backing arrays of the datagrams are disjoint; address and source control data are not modelled; that all arrive is stated for non-empty datagrams.
- UdpSplit.SplitCoalescedMessages: all buffers have one size and are values; a slice beyond the length of its buffer fails, the length being the capacity.
- RateLimiter.Ratelimiter.Allow: calls are sequential, the clock does not run back, and the token count of an entry that is silent for 292 years does not overflow 64 bits.
- RateLimiter.Ratelimiter.Cleanup: the clock is read once per entry; its readings lie between two bounds.
- Timers.DelSyncIsFinal: what happens under `modifyingLock` is one step.
- Retransmit.InitiationsAreApart: a peer is started once; Start again and ExpireCurrentKeypairs, after which an initiation may go out at once, are not steps here.
- Stun.ParseStunResponse: an attribute slice fails beyond the length of the packet, which is its capacity for the one caller, whose copy is made to measure (`conn/bind_std.go`, lines 282 and 283).

Not modelled at all:

- Sockets, netlink, ioctl, TUN files, Windows RIO, named pipes and the user-space network stack: I/O and foreign calls.
- The Flutter, Kotlin, Swift and C++ parts, `frp/` and `power_present/`: user interface and wrappers.
- Signalling and engine status in `vpnengine.go`, and delivery of received datagrams from receiveIP to the device: what they promise spans goroutines and files in ways that do not hold as written.
- Curve25519, BLAKE2s and ChaCha20-Poly1305: uninterpreted.
- Message encoding, timestamps, cookie MACs, padding, wait pools and the configuration protocol: they would add only easy members.
- gsoNoneChecksum: a single call of the checksum on a packet that is not split.
