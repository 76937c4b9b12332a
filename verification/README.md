# Verified model of a 4G/5G core network simulator

This project models the state machines and algorithms that carry the simulators' weight and
proves what their documentation relies on. `dafny verify dfyconfig.toml` checks all of it.

**5G UPF fast path** (`Bits`, `SpscRing`, `RingConcurrency`, `MbufPool`, `PfcpRules`,
`DemoRules`, `Pipeline`, `DpdkPath`, `FastPathRuns`, `FastPathTheorems`, `FastPathOutput`,
`FastPathEnds`, `FastPathLimits`, `SocketPath`, `SocketRuns`, `PathEquivalence`, `PacketFate`).
The lock-free ring is a state machine over every load, store and slot access, where a load may
return an older store that has not yet been superseded for the loading thread; it refines a
bounded FIFO. On top of it the whole poll-mode path (producer, lcore, stop) is one machine with the
recycled buffers, counters and both loops; its mutex twin is another. Both are then shown to treat
the same accepted packets alike, and `PacketFate` says which packets pass, from the rules as they
were added. The objects themselves are classes whose methods are proved against the functions that
the machines use.

**4G attach and S1 handover** (`S1Nodes`, `S1Runs`, `S1Invariant`, `S1MmeSteps`, `S1Theorems`,
`S1Handover`, `S1Sessions`, `S1Waits`, `S1Distinct`, `S1Crossed`, `S1Wrap`, `S1Progress`,
`S1AttachRun`, `S1HandoverRun`, `S1Objects`). MME, eNB, HSS, S-GW and P-GW with FIFO links form one
system; a GTP wait may time out at any moment while its answer is still coming, datagrams may be
lost, the PCRF may refuse and chaos may drop the vectors.
The handlers check little, so the results are invariants of the whole system over all runs; and
what the attach and handover procedures do when left alone is told message by message.

**Supporting machinery**: the worker pool (`ThreadPool`), the TLV format (`Tlv`), HTTP and JSON
printing and parsing (`Http`, `Json`), 5G registration (`Aka5G`, `Registration5G`,
`Registration5GRun`), the capture file's TCP numbers and IPv4 checksum (`TcpSeq`, `Checksum`), and
the sharded context store (`UeStore`, `UeStoreRuns`); `Common` holds shared types.

A machine is a `State`, a predicate `Enabled` and a function `Do` over labelled actions; a run is
a sequence of actions from an initial state, so a property of all runs covers all interleavings.
Fields under "history" in a state record what happened and influence no step.

Where the code and its documentation disagree, the model follows the code:

- `MbufPool::alloc` is documented to return nullptr when exhausted; it restarts at slot 0 and
  returns it, so slot 0 is handed out twice in a row and rx_enqueue's branch for a missing buffer
  is never taken. A buffer still queued can be handed out again: `HandledContents` says for every
  run whose packet is then handled, `OneCallTooMany` that one call too many suffices, and
  `UnaliasedByCalls` which calls do it.
- `stop()` is documented to lose no packet. `running_` is read relaxed, which by itself orders
  nothing: `StopDrains` needs head_ loads no older than stop(), and `StaleExit` shows why.
- FarAction BUFFER is documented as buffering; both paths forward it.
- `HandoverNotify` is commented as carrying the UE's new TEID; it carries the last TEID handed out
  to anybody. `PathSwitchTeid` gives the exact condition under which the two agree.
- GTP answers are not matched to requests; `CrossedAnswer` shows an address bound to the wrong UE
  after a timeout, `IpIsOwn` that this needs a timeout, `SessionIsOwn` when a session is safe again.
- `kFor` is documented as 32 hex digits and per subscriber; it yields 31, the last is dropped in
  decoding, and the remaining 15 key bytes are the same for everybody (`KeyIsShared`).
- A requested slice sent as a quoted object arrives at the AMF as a lone brace (`RequestReads`).
- Handshake and data disagree about who the client is: `ContinuesHandshake`. `connKey` loses bits:
  `SameKey` says which, `SegmentsTile` what two connections on one key do to each other.
- A frame writer accepts payloads that a receiver refuses (0 or more than 65536 bytes):
  `FrameSplits`.

## Model

| member | source | states |
|---|---|---|
| Bits.Pow2Test | 5g-simulator/src/upf_fastpath/ring_buffer.h:200 | the compile-time test N & (N-1) == 0 accepts exactly the powers of two |
| Bits.MaskIsMod | 5g-simulator/src/upf_fastpath/ring_buffer.h:295-323 | masking a wrapped 64-bit value, also a difference below zero, with N-1 is the value modulo N for every power of two N up to 2^64 |
| SpscRing.UsedFacts | 5g-simulator/src/upf_fastpath/ring_buffer.h:228-261 | next head equals tail exactly when N-1 items are stored; head equals tail exactly when none is; a push adds one to the distance |
| SpscRing.AppendSlot | 5g-simulator/src/upf_fastpath/ring_buffer.h:241-248 | writing the head slot and moving head appends that value to the stored sequence and disturbs no other |
| SpscRing.DropSlots | 5g-simulator/src/upf_fastpath/ring_buffer.h:267-319 | moving tail by k removes exactly the k oldest items |
| SpscRing.SpscRing.constructor | 5g-simulator/src/upf_fastpath/ring_buffer.h:204 | a new ring is empty |
| SpscRing.SpscRing.Push | 5g-simulator/src/upf_fastpath/ring_buffer.h:228-248 | appends, or refuses exactly when N-1 items are stored |
| SpscRing.SpscRing.Pop | 5g-simulator/src/upf_fastpath/ring_buffer.h:255-272 | returns and removes the oldest item; fails exactly when empty |
| SpscRing.SpscRing.PopBurst | 5g-simulator/src/upf_fastpath/ring_buffer.h:295-323 | copies and removes the first min(max, stored) items, in order, and leaves the rest of the output buffer alone |
| RingConcurrency.StepKeepsInv | 5g-simulator/src/upf_fastpath/ring_buffer.h:228-323 | every single load, store and slot access of either thread, with loads that may return older stores, keeps the invariant with unbounded counters T <= H <= T + N - 1 and intact unread slots |
| RingConcurrency.StepRefines | 5g-simulator/src/upf_fastpath/ring_buffer.h:228-323 | each access is a step of a bounded FIFO, or invisible; a refusal saw a full queue at the loaded tail, a count saw exactly the available items at the loaded head |
| RingConcurrency.AboutToPublish | 5g-simulator/src/upf_fastpath/ring_buffer.h:306-319 | when pop_burst is about to store the tail, the copied items are the next ones of the published sequence, all of them |
| RingConcurrency.RingRefinesFifo | 5g-simulator/src/upf_fastpath/ring_buffer.h:228-323 | every interleaved run of one producer and one consumer is a run of a FIFO queue of capacity N-1 |
| RingConcurrency.FifoRunTotals | 5g-simulator/src/upf_fastpath/ring_buffer.h:228-323 | over a FIFO run, what was accepted is what was delivered followed by what is queued |
| RingConcurrency.DeliveredIsPrefix | 5g-simulator/src/upf_fastpath/ring_buffer.h:228-323 | in every run the delivered values are a prefix of the accepted ones, and at most N-1 are outstanding |
| RingConcurrency.ContentsIsQueue | 5g-simulator/src/upf_fastpath/ring_buffer.h:228-323 | with no access under way the ring's stored sequence, read by masking, is the FIFO's queue |
| RingConcurrency.CurrentLoadsAreExact | 5g-simulator/src/upf_fastpath/ring_buffer.h:228-323 | when loads return the newest stores, a push is refused exactly when the queue is full and a burst counts exactly min(max, queued) |
| RingConcurrency.BurstIsExact | 5g-simulator/src/upf_fastpath/ring_buffer.h:295-323 | pop_burst returns exactly the first items of the queue at its head load |
| RingConcurrency.NoSlotRace | 5g-simulator/src/upf_fastpath/ring_buffer.h:241-313 | in every run the slot that the producer is about to write is not one that the consumer may still read |
| MbufPool.NextClosedForm | 5g-simulator/src/upf_fastpath/mbuf_pool.h:237-251 | next_ before the k-th allocation is k modulo n+1 |
| MbufPool.AllocClosedForm | 5g-simulator/src/upf_fastpath/mbuf_pool.h:237-251 | slot of the k-th allocation: identity for the first n, then period n+1 in which slot 0 comes twice in a row; always inside the pool |
| MbufPool.NextBounded | 5g-simulator/src/upf_fastpath/mbuf_pool.h:240-246 | next_ is at most n at every call boundary, and equals n exactly when the pool is about to restart |
| MbufPool.SlotReuse | 5g-simulator/src/upf_fastpath/mbuf_pool.h:237-251 | two allocations fewer than n apart share a slot if and only if they are the adjacent pair at a restart |
| MbufPool.FirstReuse | 5g-simulator/src/upf_fastpath/mbuf_pool.h:237-271 | every slot is handed out again within n+1 allocations whether or not it was freed |
| MbufPool.NextUseIsNext | 5g-simulator/src/upf_fastpath/mbuf_pool.h:237-251 | the next call that is handed the same buffer: one, n or n + 1 calls later, by the residue of the call modulo n + 1 |
| MbufPool.OwnUntil | 5g-simulator/src/upf_fastpath/mbuf_pool.h:237-271 | a buffer still belongs to a call if and only if that next call has not been made |
| MbufPool.MbufPool.constructor | 5g-simulator/src/upf_fastpath/mbuf_pool.h:218 | n buffers, none in use |
| MbufPool.MbufPool.Alloc | 5g-simulator/src/upf_fastpath/mbuf_pool.h:237-251 | returns the slot of the closed form, marks it in use, and never answers exhausted |
| MbufPool.MbufPool.FreeMbuf | 5g-simulator/src/upf_fastpath/mbuf_pool.h:268-271 | clears that buffer's flag and nothing else |
| PfcpRules.IndexMeaning | 5g-simulator/src/upf_fastpath/pfcp_rules.h:220-254 | after any add_pdr calls, repeated ids and keys included, match_pdr returns the rule last stored under the id of the rule last added for the packet's key |
| PfcpRules.ByPrecedenceSorts | 5g-simulator/src/upf_fastpath/pfcp_rules.h:220-254 | the reference order is a permutation of the rules, sorted by precedence |
| PfcpRules.IndexEqualsScan | 5g-simulator/src/upf_fastpath/pfcp_rules.h:220-254 | with distinct ids and distinct (direction, key) pairs match_pdr equals a linear scan in precedence order |
| PfcpRules.IndexAgreesExactly | 5g-simulator/src/upf_fastpath/pfcp_rules.h:220-254 | for any adds whatever, index and precedence scan of the stored rules agree on a packet if and only if no rule was ever added for its key, or the one added last for it is still stored and comes strictly before every other stored rule for it |
| PfcpRules.ConditionsNeeded | 5g-simulator/src/upf_fastpath/pfcp_rules.h:220-254 | a reused id leaves a stale entry that yields a rule not matching the packet; a reused key hides the better rule |
| PfcpRules.RuleTable.AddPdr | 5g-simulator/src/upf_fastpath/pfcp_rules.h:220-227 | updates the rule map and the one index of the rule's direction |
| DemoRules.BuildDemoRules | 5g-simulator/src/upf_fastpath/pfcp_rules.h:280-367 | the loop builds the table for n sessions; what that table does to every packet is DemoRulesForward |
| DemoRules.NoOtherKeys | 5g-simulator/src/upf_fastpath/pfcp_rules.h:280-367 | a key outside the n sessions matches nothing |
| DemoRules.DemoRulesResolve | 5g-simulator/src/upf_fastpath/pfcp_rules.h:280-367 | for n up to 2^31 every packet of UE i gets UE i's own PDR, FAR and QER, and every other packet none |
| DemoRules.DemoRulesForward | 5g-simulator/src/upf_fastpath/pfcp_rules.h:280-367 | for n up to 2^31: a packet of session i, uplink TEID 1000 + i or downlink address 10.45.0.1 + i, is forwarded, uplink to 8.8.8.8 as it is, downlink to 10.10.0.1 port 2152 in GTP-U, under flow and rates of i modulo 3; every other packet is of an unknown session |
| DemoRules.FirstUeOverwritten | 5g-simulator/src/upf_fastpath/pfcp_rules.h:280-367 | above 2^31 sessions a UE's rule is overwritten by wrapped ids |
| DemoRules.CollisionFreeBound | 5g-simulator/src/upf_fastpath/pfcp_rules.h:280-367 | every UE resolves to its own rules if and only if n is at most 2^31 |
| Pipeline.IdentityDecides | 5g-simulator/src/upf_fastpath/dpdk_path.h:354-457 | classification depends on none of the fields that it writes |
| Pipeline.CountAllTotals | 5g-simulator/src/upf_fastpath/dpdk_path.h:354-457 | each packet is counted once, forwarded or dropped; no-PDR packets are among the dropped |
| Pipeline.CountAllSplit | 5g-simulator/src/upf_fastpath/dpdk_path.h:267-305 | cutting the stream anywhere changes neither the counters nor the forwarded sequence |
| Pipeline.HandleAllSplit | 5g-simulator/src/upf_fastpath/dpdk_path.h:267-305 | handling two bursts in turn is handling their concatenation, shared buffers included |
| Pipeline.HandleAllIsCountAll | 5g-simulator/src/upf_fastpath/dpdk_path.h:342-457 | with unaliased buffers the counters are those of the packets they held, and each buffer is free and holds its packet annotated |
| PacketFate.FateByScan | 5g-simulator/src/upf_fastpath/dpdk_path.h:354-428 | after any add_pdr, add_far and add_qer calls with distinct PDR ids and keys: unknown session iff the precedence scan of the PDRs finds nothing; forwarded iff it finds one and the FAR last added under its far_id says FORWARD or BUFFER; dropped iff that FAR is missing or says DROP |
| PacketFate.QerByScan | 5g-simulator/src/upf_fastpath/dpdk_path.h:393-407 | the QER consulted is the one last added under the id that the rule found names |
| PacketFate.MarksByScan | 5g-simulator/src/upf_fastpath/dpdk_path.h:385-428 | what is written into a packet: nothing if the scan finds no rule; else that rule's ids, and the mark of a drop iff its FAR does not let it pass |
| PacketFate.StreamByScan | 5g-simulator/src/upf_fastpath/socket_path.h:320-356 | over any stream: the packets forwarded, with PDR and FAR ids of the rule that the scan finds, and the three counts, by the scan alone |
| PacketFate.PollByScan | 5g-simulator/src/upf_fastpath/dpdk_path.h:342-457 | in every run of the poll-mode path that fills no buffer in use: forwarded, dropped, no-PDR and the packets that left, with the ids written, are those of the scan over what was handled |
| PacketFate.SocketByScan | 5g-simulator/src/upf_fastpath/socket_path.h:320-356 | the same for every run of the socket path |
| DpdkPath.DpdkPath.constructor | 5g-simulator/src/upf_fastpath/dpdk_path.h:133-139 | ring of 4096 (a power of two), pool of 65536, nothing queued |
| DpdkPath.DpdkPath.RxEnqueue | 5g-simulator/src/upf_fastpath/dpdk_path.h:187-221 | takes the next buffer in every call, copies, queues unless N-1 are queued, else counts a drop; the buffer is consumed either way |
| DpdkPath.DpdkPath.ProcessOne | 5g-simulator/src/upf_fastpath/dpdk_path.h:353-455 | PDR, QER, FAR for one buffer: fields written, one counter outcome, buffer freed; which outcome is what FateByScan says |
| DpdkPath.DpdkPath.ProcessBurst | 5g-simulator/src/upf_fastpath/dpdk_path.h:342-457 | the loop handles the buffers of a burst in order |
| DpdkPath.DpdkPath.PollOnce | 5g-simulator/src/upf_fastpath/dpdk_path.h:267-295 | one poll takes min(queued, 32) from the front of the ring and handles them in order |
| DpdkPath.DpdkPath.Drain | 5g-simulator/src/upf_fastpath/dpdk_path.h:297-305 | the drain loop ends with an empty ring, having handled the whole queue in order |
| FastPathRuns.InitInv | 5g-simulator/src/upf_fastpath/dpdk_path.h:138-161 | a fresh path satisfies the invariant |
| FastPathRuns.StepKeepsInv | 5g-simulator/src/upf_fastpath/dpdk_path.h:166-457 | every step of producer, lcore and stop() in any interleaving keeps: call, buffer, queue, batch and counter histories agree |
| FastPathTheorems.Accounting | 5g-simulator/src/upf_fastpath/dpdk_path.h:187-457 | at every instant rx = forwarded + dropped + in flight + queued + in the current burst |
| FastPathTheorems.QuiescentAccounting | 5g-simulator/src/upf_fastpath/dpdk_path.h:187-457 | at quiescent points rx = forwarded + dropped + queued |
| FastPathTheorems.StopDrains | 5g-simulator/src/upf_fastpath/dpdk_path.h:166-305 | after the lcore exits, everything published before stop() was handled; with no later publication nothing is queued and rx = forwarded + dropped; for head_ loads not older than stop() |
| FastPathEnds.LcoreEnds | 5g-simulator/src/upf_fastpath/dpdk_path.h:261-305 | once stop() was called, in every reachable state and whatever values its loads of head_ return: left to itself the lcore can go on until it exits, in at most eight steps for each packet in the ring, four for each of the burst in hand, and five more |
| FastPathTheorems.HandledContents | 5g-simulator/src/upf_fastpath/dpdk_path.h:187-457 | in every run, however often the pool has come round, the packet looked up for an accepted call is that of the last call so far that was handed the same buffer; that is the accepted call itself if and only if the next call to be handed its buffer has not filled it yet |
| FastPathTheorems.CleanIsPrefix | 5g-simulator/src/upf_fastpath/dpdk_path.h:187-457 | in every run, however long, that fills no buffer still in use, the packets handled are a prefix of those accepted, in order, unchanged, and the counters are theirs |
| FastPathTheorems.UnaliasedByCalls | 5g-simulator/src/upf_fastpath/mbuf_pool.h:237-271 | a run fills no buffer in use if and only if no call comes that is the next, by the allocator, to be handed the buffer of an accepted call not yet done with |
| FastPathTheorems.HandledIsPrefix | 5g-simulator/src/upf_fastpath/dpdk_path.h:187-457 | in particular in every run with at most pool_size calls |
| FastPathTheorems.NoBufferRace | 5g-simulator/src/upf_fastpath/dpdk_path.h:187-221 | in such a run the producer never fills the buffer of the packet that the lcore has in hand |
| FastPathLimits.StaleExit | 5g-simulator/src/upf_fastpath/dpdk_path.h:267-305 | for every pool and ring, a run in which the relaxed flag and an old head_ let the lcore exit with an accepted packet queued: the condition of StopDrains is needed |
| FastPathLimits.OneCallTooMany | 5g-simulator/src/upf_fastpath/mbuf_pool.h:237-251 | for every pool and ring and any two packets, a run with pool_size + 1 calls in which the second is handled in place of the accepted first: the bound of HandledIsPrefix is needed at every size |
| FastPathOutput.OutIsForwarded | 5g-simulator/src/upf_fastpath/dpdk_path.h:342-457 | in every run that fills no buffer still in use, what left the path is what the rules make of the packets handled, annotated, in order |
| SocketPath.SocketPath.Enqueue | 5g-simulator/src/upf_fastpath/socket_path.h:181-229 | queues a copy, or counts a drop exactly when 4096 are waiting |
| SocketPath.SocketPath.ProcessOne | 5g-simulator/src/upf_fastpath/socket_path.h:320-356 | the same three stages on a private copy: annotation and one counter outcome, again that of FateByScan |
| SocketPath.SocketPath.WorkerTurn | 5g-simulator/src/upf_fastpath/socket_path.h:267-298 | one turn takes the oldest packet and handles it, or leaves exactly when the queue is empty |
| SocketPath.SocketPath.Drain | 5g-simulator/src/upf_fastpath/socket_path.h:299-311 | handles everything still queued in order |
| SocketPath.SocketPath.WorkerLoop | 5g-simulator/src/upf_fastpath/socket_path.h:267-311 | entered after stop(): handles the whole queue before the thread exits |
| SocketRuns.StepKeepsInv | 5g-simulator/src/upf_fastpath/socket_path.h:152-356 | every step of any number of enqueuers, the worker and stop() keeps the invariant |
| SocketRuns.FifoAndCounted | 5g-simulator/src/upf_fastpath/socket_path.h:181-356 | in every run accepted = handled followed by queued, the queue stays within 4096, counters and forwarded packets are those of the handled ones, and rx is fully accounted for |
| SocketRuns.NoLostWakeup | 5g-simulator/src/upf_fastpath/socket_path.h:181-298 | a sleeping worker with packets waiting is about to be notified |
| SocketRuns.StopDrains | 5g-simulator/src/upf_fastpath/socket_path.h:152-311 | after the worker exits everything accepted before stop() was handled |
| SocketRuns.WorkerEnds | 5g-simulator/src/upf_fastpath/socket_path.h:267-311 | after stop() a worker that is not asleep, left to itself, can go on until it exits, in at most three steps per queued packet and four more, and has then handled every packet accepted |
| SocketRuns.StopMissedExactly | 5g-simulator/src/upf_fastpath/socket_path.h:152-158 | with nothing on its way in, whatever follows stop()'s notification, spurious wake-ups aside: the worker sleeps and goes on sleeping if and only if it had checked the flag and was not yet asleep when notified |
| SocketRuns.StopCanBeMissed | 5g-simulator/src/upf_fastpath/socket_path.h:152-158 | a run in which the notification falls in between |
| PathEquivalence.PollFollowsRules | 5g-simulator/src/upf_fastpath/dpdk_path.h:187-457 | as long as no buffer in use is filled, however long the run, however bursts cut the stream and polling hands over to draining, the outcome is the one that the rules prescribe for the handled prefix |
| PathEquivalence.SocketFollowsRules | 5g-simulator/src/upf_fastpath/socket_path.h:181-356 | the same for the socket path |
| PathEquivalence.SameOutcome | 5g-simulator/src/upf_fastpath/socket_path.h:267-356 | same rules, same accepted packets, unaliased buffers, equally many handled, runs of any length: same packets forwarded in the same order, same forwarded, no-PDR and post-acceptance drop counts |
| PathEquivalence.SameOutcomeEarly | 5g-simulator/src/upf_fastpath/socket_path.h:267-356 | in particular within the first pool_size calls |
| PathEquivalence.SameAfterStop | 5g-simulator/src/upf_fastpath/dpdk_path.h:261-305 | after both were stopped with no later arrivals both outcomes are those of all accepted packets |
| S1Nodes.DefaultAt | 4g-simulator/src/mme/ue_context.h:123-130 | the default bearer is the first one with EBI 5 |
| S1Nodes.Xor55Meaning | 4g-simulator/src/hss/hss_node.cpp:142-146 | RES and challenge differ by 0x55 in every byte, and answering the answer gives the challenge back |
| S1Invariant.InitCore | 4g-simulator/src/mme/mme_node.cpp:31-44 | the fresh system satisfies the invariant |
| S1Invariant.KeepAttach | 4g-simulator/src/enb/enb_node.cpp:221-265 | starting an attach keeps the invariant |
| S1Invariant.KeepEnbReceive | 4g-simulator/src/enb/enb_node.cpp:47-206 | every message that the eNB handles keeps it |
| S1Invariant.KeepEnbFinish | 4g-simulator/src/enb/enb_node.cpp:195-206 | so does the delayed Attach Complete |
| S1Invariant.TeidsAllocate | 4g-simulator/src/enb/enb_node.cpp:169 | a TEID handed out by the eNB is the next of its counter and belongs to the UE named in the message that carries it |
| S1MmeSteps.NextAnnounced | 4g-simulator/src/mme/mme_node.cpp:132-178 | the first Attach Request on the link is that of the identifier which the store will assign next |
| S1MmeSteps.KeepMmeReceive | 4g-simulator/src/mme/mme_node.cpp:108-130 | every message that the MME dispatches keeps the invariant |
| S1MmeSteps.KeepChallenge | 4g-simulator/src/mme/mme_node.cpp:205-257 | so does the arrival of vectors |
| S1MmeSteps.KeepCreated | 4g-simulator/src/mme/mme_node.cpp:420-456 | so does any answer taken for the session's, matching or not |
| S1MmeSteps.StepKeepsCore | 4g-simulator/src/mme/mme_node.cpp:108-896 | every step of the composed system keeps the invariant while at most 2^32 attaches were started |
| S1Theorems.RegisteredIsComplete | 4g-simulator/src/mme/mme_node.cpp:329-334 | in every reachable state a REGISTERED context has its default bearer, a TEID that the eNB allocated for it, and a RES that equalled its XRES, although the handler checks nothing |
| S1Theorems.SetupIsTold | 4g-simulator/src/mme/mme_node.cpp:458-487 | whenever a Setup Response is read, in every reachable state: the default bearer takes the TEID that it carries, which the eNB allocated for this UE, and exactly one Modify Bearer Request goes out, with BASE_IMSI + id and that TEID |
| S1Theorems.AnswerIsTold | 4g-simulator/src/mme/mme_node.cpp:420-456 | whenever an answer is taken for the session's: with an address the UE gets its one bearer of EBI 5 and QCI 9 with the answer's TEIDs and address, and one Setup Request carries the S1-U TEID and the address to the eNB; without one there is no bearer and no message |
| S1Theorems.ModifyWaitEnds | 4g-simulator/src/mme/mme_node.cpp:790-896 | the wait for a modified bearer ends alike with an answer and without: a path switch goes on to release the source |
| S1Theorems.NoAuthFailure | 4g-simulator/src/mme/mme_node.cpp:316-318 | the AUTH FAILED branch is never taken |
| S1Theorems.Lockstep | 4g-simulator/src/enb/enb_node.cpp:226-236 | mme_ue_s1ap_id = enb_ue_s1ap_id and imsi = BASE_IMSI + id for every context, which TAU and HO commands assume |
| S1Theorems.EmmNeverBack | 4g-simulator/src/mme/mme_node.cpp:132-403 | up to 2^32 attaches no step of the system moves a context's EMM state back or removes the context |
| S1Wrap.ContextTakenBack | 4g-simulator/src/mme/ue_context_store.h:55-62 | a run with 2^32 + 1 attaches in which the identifier has come round and a context goes back: the bound is exact |
| S1Theorems.HandoversKeepSessions | 4g-simulator/src/mme/mme_node.cpp:610-896 | over every run in which the MME serves only handovers, from any state, no EMM state, IMSI, S-GW TEID or UE IP changes |
| S1Theorems.EnbTeidsDistinct | 4g-simulator/src/enb/enb_node.cpp:169 | up to 2^32 allocations no two contexts, registered or not, hold the same eNB TEID, handovers included |
| S1Handover.StepKeepsHo | 4g-simulator/src/mme/mme_node.cpp:683-835 | every step keeps: once the uplink is read the MME holds each set-up UE's latest TEID, and holds at each HandoverNotify the latest of when it was sent |
| S1Handover.PathSwitchTeid | 4g-simulator/src/enb/enb_node.cpp:425-464 | at the path switch of any UE whose Setup Response was read, the S-GW is told the TEID stored at HandoverRequestAck if and only if the last TEID allocated to anybody when the notify was sent was this UE's, or wrapped to 0 |
| S1Handover.RegisteredIsSetUp | 4g-simulator/src/mme/mme_node.cpp:329-334 | although Attach Complete checks nothing, a registered UE's Setup Response has been read |
| S1Sessions.StepKeepsGtp | 4g-simulator/src/mme/mme_node.cpp:405-456 | while no wait has timed out at most one GTP request is under way and it is for the UE waited for |
| S1Sessions.IpIsOwn | 4g-simulator/src/pgw/pgw_node.cpp:133-179 | if no GTP wait has timed out, every address in a context was allocated by the P-GW for that context's IMSI |
| S1Sessions.StepKeepsOnce | 4g-simulator/src/pgw/pgw_node.cpp:97-155 | while no wait has timed out the P-GW allocates for an IMSI at most once |
| S1Sessions.OneIpPerImsi | 4g-simulator/src/pgw/pgw_node.cpp:97-179 | so the address is the only one allocated for the IMSI |
| S1Distinct.StepKeepsApart | 4g-simulator/src/sgw/sgw_node.cpp:91-158 | every step, timeouts, losses and crossed answers included, keeps sessions of different UEs apart |
| S1Distinct.SessionsApart | 4g-simulator/src/sgw/sgw_node.cpp:91-93 | up to 2^32 TEIDs and 2^32 addresses, the sessions of two UEs share no S-GW TEID and no UE address, in every run |
| S1Waits.SessionIsOwn | 4g-simulator/src/mme/mme_node.cpp:405-456 | whatever timed out or crossed before: a session asked for while nothing is under way on the GTP side, and answered without a timeout of its own, gets exactly the one address allocated in the meantime, for its own IMSI |
| S1Crossed.CrossedAnswer | 4g-simulator/src/mme/mme_node.cpp:420-456 | a run in which a late answer is bound to the next UE: the condition of IpIsOwn is needed |
| S1AttachRun.NoneLeftOver | 4g-simulator/src/mme/mme_node.cpp:74-106 | in every reachable state with nothing under way no vectors are left in the MME's table: there is one request at a time, for the UE waited for |
| S1AttachRun.SameNumber | 4g-simulator/src/enb/enb_node.cpp:221-225 | in every such state both ends are about to use the same UE number |
| S1AttachRun.AttachProcedure | 4g-simulator/src/mme/mme_node.cpp:132-487 | the attach from every reachable state with nothing under way, for every challenge: left alone, without chaos drop or refusal, the nodes take exactly eighteen steps in whatever order, send on each link the listed messages in order, and stop with the UE REGISTERED, its bearer holding what S-GW, P-GW and eNB allocated, all else as it was |
| S1AttachRun.FirstAttach | 4g-simulator/src/mme/mme_node.cpp:132-487 | the first attach in numbers: IMSI 404100000000001, S-GW TEIDs 1000 and 1001, eNB TEID 100, address 10.0.0.1 |
| S1AttachRun.RefusalIsSilent | 4g-simulator/src/sgw/sgw_node.cpp:131-142 | a session that the PCRF refuses: cause 64 to the S-GW, nothing to the MME, no address used up |
| S1AttachRun.EarlyEnd | 4g-simulator/src/mme/mme_node.cpp:205-257 | a chaos drop, or a timeout of the wait for the session, sends nothing more and leaves the context without a bearer |
| S1HandoverRun.HandoverProcedure | 4g-simulator/src/mme/mme_node.cpp:610-896 | the handover of any UE with a session from every reachable state with nothing under way: left alone, the nodes can only take the eleven steps that send, in order, HandoverRequest, RequestAck with the next eNB TEID, Command, eNB and MME status, Notify with that TEID, Modify Bearer with BASE_IMSI + id and that TEID, its answer, release and its completion; it ends with that TEID in the default bearer and nothing else changed |
| S1HandoverRun.TauProcedure | 4g-simulator/src/mme/mme_node.cpp:518-600 | a tracking area update from a state with nothing under way: request, accept, nothing changed |
| S1Objects.FindDefault | 4g-simulator/src/mme/ue_context.h:123-130 | the search loop finds the first bearer with EBI 5 |
| S1Objects.EnbNode.AttachUes | 4g-simulator/src/enb/enb_node.cpp:221-225 | CR n sends n Attach Requests with consecutive identifiers |
| S1Objects.GenerateAuthVectors | 4g-simulator/src/hss/hss_node.cpp:120-149 | the loops build vectors that the UE's answer satisfies, for every draw of the generator |
| S1Objects.XorLoop | 4g-simulator/src/enb/enb_node.cpp:123 | RES byte by byte |
| S1Objects.MmeNode.Dispatch | 4g-simulator/src/mme/mme_node.cpp:108-129 | the MME's switch over message types, with its handlers updating fields, does one step of the MME of AttachProcedure and HandoverProcedure |
| S1Objects.MmeNode.ResumeGtp | 4g-simulator/src/mme/mme_node.cpp:420-456 | a wait for the S-GW that ends, with a datagram or with a timeout, goes on as the system's MME does |
| S1Objects.EnbNode.Dispatch | 4g-simulator/src/enb/enb_node.cpp:46-66 | the eNB's switch over message types does one step of the system's eNB |
| ThreadPool.Pool.Submit | 4g-simulator/src/common/thread_pool.h:70-73 | appends the task |
| ThreadPool.Pool.Take | 4g-simulator/src/common/thread_pool.h:95-107 | takes the oldest task; None exactly when nothing is queued |
| ThreadPool.Pool.WorkerLoop | 4g-simulator/src/common/thread_pool.h:89-113 | after stop_ one worker runs everything queued in order before it exits |
| ThreadPool.StepKeepsInv | 4g-simulator/src/common/thread_pool.h:62-113 | every step of any number of workers and submitters keeps the invariant |
| ThreadPool.PoolSafety | 4g-simulator/src/common/thread_pool.h:70-113 | in every run queued work never waits on sleepers alone, tasks leave in submission order, and each is run once by the worker that took it |
| ThreadPool.AllExitedAllRun | 4g-simulator/src/common/thread_pool.h:62-113 | when all workers have exited every task submitted before stop_ has run exactly once; with none later the queue is empty |
| ThreadPool.WorkersEnd | 4g-simulator/src/common/thread_pool.h:89-113 | once stop_ is set and no worker sleeps, the workers, left to themselves, can go on until all have exited, in at most two steps per queued task and per worker, and have then run every task submitted, once |
| ThreadPool.StopMissedExactly | 4g-simulator/src/common/thread_pool.h:62-68 | with nothing being submitted, whatever follows notify_all, spurious wake-ups aside: a worker sleeps and goes on sleeping if and only if it had found nothing to do and was not yet asleep when notified |
| ThreadPool.StopCanBeMissed | 4g-simulator/src/common/thread_pool.h:62-68 | a run of a one-worker pool in which that happens |
| Tlv.LeRoundTrip | 4g-simulator/src/common/tlv.h:154-155 | little-endian encoding and decoding are inverse |
| Tlv.LeHalves | 4g-simulator/src/common/tlv.h:134 | writeU64's two 32-bit halves are the eight bytes of the value |
| Tlv.ElementBytes | 4g-simulator/src/common/tlv.h:153 | an element on the wire: two bytes of tag, two of length, low byte first, then the value |
| Tlv.HeaderBytes | 4g-simulator/src/common/tlv.h:123-129 | the header on the wire: type, flags, sequence number, low byte first |
| Tlv.FrameBytes | 4g-simulator/src/common/tlv.h:140-144 | a frame on the wire: four bytes of length, low byte first, then the payload |
| Tlv.HeaderRoundTrip | 4g-simulator/src/common/tlv.h:164-173 | the header that was written is the one that is read |
| Tlv.ScanEncode | 4g-simulator/src/common/tlv.h:121-215 | the peek / switch / skip loop over any written elements, unknown tags anywhere, binds the known ones and never overruns |
| Tlv.BindsLast | 4g-simulator/src/hss/hss_node.cpp:72-80 | a known tag is bound exactly if written, and to its last value |
| Tlv.UnknownIgnored | 4g-simulator/src/hss/hss_node.cpp:78 | inserting an unknown element anywhere changes nothing |
| Tlv.ScanCut | 4g-simulator/src/hss/hss_node.cpp:72-80 | a frame that breaks off inside an element: what came before is bound; the rest is passed over if the element's header is not whole or its tag unknown, and reads past the end otherwise |
| Tlv.FrameSplits | 4g-simulator/src/common/socket_wrapper.h:88-92 | the receiver takes exactly one frame off a stream and leaves the rest, for exactly the payloads of 1 to 65536 bytes |
| Tlv.FrameCut | 4g-simulator/src/common/socket_wrapper.h:80-92 | of a frame that has not arrived whole nothing is taken |
| Tlv.MessageWriter.constructor | 4g-simulator/src/common/tlv.h:123-129 | placeholder and 8-byte header |
| Tlv.MessageWriter.WriteBytes | 4g-simulator/src/common/tlv.h:135-153 | appends one element |
| Tlv.MessageWriter.WriteU8 | 4g-simulator/src/common/tlv.h:131 | appends one element of one byte |
| Tlv.MessageWriter.WriteU32 | 4g-simulator/src/common/tlv.h:133 | appends one element of four bytes |
| Tlv.MessageWriter.WriteU64 | 4g-simulator/src/common/tlv.h:134 | appends one element of eight bytes |
| Tlv.MessageWriter.UdpPayload | 4g-simulator/src/common/tlv.h:147-149 | header and elements without the prefix |
| Tlv.MessageWriter.Frame | 4g-simulator/src/common/tlv.h:140-144 | the prefix is the length of the rest |
| Tlv.MessageReader.constructor | 4g-simulator/src/common/tlv.h:164-168 | reads type, flags and sequence number if there is a whole header, zeros otherwise |
| Tlv.MessageReader.Peek | 4g-simulator/src/common/tlv.h:175-180 | tag and length of the next element, or nothing if fewer than four bytes are left |
| Tlv.MessageReader.ReadFixed | 4g-simulator/src/common/tlv.h:183-197 | reads the width of the type, not the announced length |
| Tlv.MessageReader.ReadBytes | 4g-simulator/src/common/tlv.h:198-201 | reads the announced length |
| Tlv.MessageReader.Skip | 4g-simulator/src/common/tlv.h:203 | moves behind the element |
| Tlv.MessageReader.ParseLoop | 4g-simulator/src/hss/hss_node.cpp:72-80 | the loop ends on every input and computes the scan |
| Tlv.ParseAir | 4g-simulator/src/hss/hss_node.cpp:66-80 | the HSS's two values, 0 when absent |
| Tlv.AirRoundTrip | 4g-simulator/src/mme/mme_node.cpp:194-196 | what the MME writes in an authentication request the HSS reads, for every IMSI and PLMN |
| Http.StoulDecimal | 5g-simulator/src/common/wire.h:95 | the printed body length is parsed back |
| Http.NoEarlyEnd | 5g-simulator/src/common/wire.h:106-109 | in a printed head no blank line ends before the last one |
| Http.LinesOfHead | 5g-simulator/src/common/wire.h:111-117 | the getline loop recovers the printed lines |
| Http.LengthHeader | 5g-simulator/src/common/wire.h:118-128 | the printed Content-Length counts whatever headers came before |
| Http.BuildReceive | 5g-simulator/src/common/wire.h:89-132 | for any start line and extra header free of CR and LF, any body and anything following: same start line, same body, exactly the following characters left unread |
| Http.StreamSplits | 5g-simulator/src/common/wire.h:89-132 | messages sent back to back are received one by one |
| Http.Truncated | 5g-simulator/src/common/wire.h:103-132 | of a message cut off anywhere, in the head or in the body, nothing is taken |
| Http.HeaderReads | 5g-simulator/src/common/wire.h:117-124 | a header line is read as its name and its value |
| Http.Connection.RecvHead | 5g-simulator/src/common/wire.h:104-110 | the character loop stops at the first blank line |
| Http.GetLine | 5g-simulator/src/common/wire.h:112-116 | one getline |
| Http.ParseHead | 5g-simulator/src/common/wire.h:111-124 | start line and headers; a later header replaces an earlier one |
| Http.Connection.HttpRecv | 5g-simulator/src/common/wire.h:103-132 | the whole receive: closed, bad length, or the message and what is left |
| Json.PrintObj | 5g-simulator/src/common/wire.h:53-61 | the printing loop |
| Json.SkipEntry | 5g-simulator/src/common/wire.h:66-69 | the search finds nothing inside a flat field of another key |
| Json.GetField | 5g-simulator/src/common/wire.h:66-77 | get returns the value of the first field with the key when it and those before are flat, whatever follows |
| Json.GetAbsent | 5g-simulator/src/common/wire.h:67-69 | a key that a flat object lacks reads as empty |
| Json.NestedIsCut | 5g-simulator/src/common/wire.h:71-74 | a quoted value with inner quotes is cut at the first of them |
| Aka5G.HexRoundTrip | 5g-simulator/src/common/aka_lite.h:28-39 | hex text of bytes decodes to the bytes |
| Aka5G.FromHexLoop | 5g-simulator/src/common/aka_lite.h:28-33 | the decoding loop, an odd last digit dropped |
| Aka5G.XorLoop | 5g-simulator/src/common/aka_lite.h:49-54 | the repeating XOR loop |
| Aka5G.XorTwice | 5g-simulator/src/common/aka_lite.h:49-54 | XOR with the same key twice gives the challenge back |
| Aka5G.XorRecovers | 5g-simulator/src/common/aka_lite.h:49-54 | challenge XOR answer gives the key |
| Aka5G.KeyDecides | 5g-simulator/src/common/aka_lite.h:49-54 | two keys of whatever lengths give the same answer to a challenge if and only if they agree in every byte used |
| Aka5G.AnswerDecides | 5g-simulator/src/common/aka_lite.h:44-54 | the same for challenge, keys and answers as hex texts |
| Aka5G.FromHexAt | 5g-simulator/src/common/aka_lite.h:28-33 | each decoded byte is the pair of digits at its place |
| Aka5G.KeyIsShared | 5g-simulator/src/common/aka_lite.h:61-66 | the 15 key bytes 00 11 22 to ee are used, for every subscriber |
| Aka5G.MsinReads | 5g-simulator/src/common/ids5g.h:49-53 | an MSIN is ten digits that read as the UE's number |
| Aka5G.SuciResolves | 5g-simulator/src/common/ids5g.h:49-73 | the UDM recovers from a SUCI the MSIN and SUPI it was made from |
| Registration5G.StoiDecimal | 5g-simulator/src/amf/amf_main.cpp:148 | a printed UE number is parsed back |
| Registration5G.SplitPath | 5g-simulator/src/udm/udm_main.cpp:36-45 | the splitting loop, empty segments dropped |
| Registration5G.Amf.HandleRegistrationRequest | 5g-simulator/src/amf/amf_main.cpp:146-212 | stores the fetched vector under the UE's number and sends the challenge; a chaos drop rejects |
| Registration5G.Amf.HandleAuthResponse | 5g-simulator/src/amf/amf_main.cpp:215-269 | accepts only a RES* equal to the stored XRES* |
| Registration5G.ContextIsLastVector | 5g-simulator/src/amf/amf_main.cpp:202 | in every order of messages the stored XRES* is that of the last vector fetched for the number |
| Registration5G.AcceptsOnlyLastVector | 5g-simulator/src/amf/amf_main.cpp:215-269 | a Registration Accept is sent if and only if the message is an Authentication Response whose RES* is the XRES* of the last vector fetched for its number |
| Registration5G.AmfAnswers | 5g-simulator/src/amf/amf_main.cpp:146-269 | an unreadable UE number ends the AMF; a request is always answered, a response exactly if there is a context for its number, nothing else; a context is stored exactly for a request that no chaos drop rejects |
| Registration5GRun.RequestReads | 5g-simulator/src/amf/amf_main.cpp:146-150 | what the AMF reads from a Registration Request; the slice object arrives as a lone brace |
| Registration5GRun.VectorReads | 5g-simulator/src/udm/udm_main.cpp:69-77 | what the AMF reads from the UDM's vector |
| Registration5GRun.UdmResolves | 5g-simulator/src/udm/udm_main.cpp:122-134 | the UDM's dispatch finds the SUCI in the AMF's request line and answers with its vector |
| Registration5GRun.RunToChallenge | 5g-simulator/src/amf/amf_main.cpp:172-192 | request and vector pass through HTTP unchanged |
| Registration5GRun.Challenges | 5g-simulator/src/amf/amf_main.cpp:146-212 | the challenge carries the vector's RAND and AUTN, and the context holds SUCI, SUPI, XRES* and the slice as read |
| Registration5GRun.KeyIsNeeded | 5g-simulator/src/amf/amf_main.cpp:215-269 | answered with whatever key: a Registration Accept if that key agrees with the UE's own in every byte used for the challenge, and otherwise a Registration Reject with cause authentication-failure |
| Registration5GRun.AcceptReads | 5g-simulator/src/amf/amf_main.cpp:240-269 | the Accept carries the UE's number and the GUTI made of PLMN and number; the slice that arrived as a lone brace goes back as a brace in brackets |
| Registration5GRun.RegistrationByKey | 5g-simulator/src/gnb/gnb_main.cpp:32-123 | the same through HTTP and the printed texts, for every UE number, slice, challenge and AMF state |
| Registration5GRun.ChaosRejects | 5g-simulator/src/amf/amf_main.cpp:179-188 | a chaos drop rejects with identifier 0 and cause chaos-udm-drop and changes no context |
| Registration5GRun.HonestRegistration | 5g-simulator/src/gnb/gnb_main.cpp:32-123 | for every UE number, slice, challenge and AMF state an honest registration without chaos drop ends in Registration Accept |
| TcpSeq.KeySymmetric | 4g-simulator/src/common/pcap_writer.h:142-148 | both directions have one key |
| TcpSeq.SameKey | 4g-simulator/src/common/pcap_writer.h:142-148 | two connections share a key if and only if low address halves, higher port, and lower port laid under the top half of the higher address agree |
| TcpSeq.KeyNotInjective | 4g-simulator/src/common/pcap_writer.h:142-148 | two connections between 10.0.0.1 and 10.0.0.2 on different ports with one key |
| TcpSeq.Sip | 4g-simulator/src/common/pcap_writer.cpp:216-226 | a SIP payload uses its own connection's handshake exactly if both ports are 5060 |
| TcpSeq.PcapWriter.EnsureTcpHandshake | 4g-simulator/src/common/pcap_writer.cpp:78-98 | three segments and both counters advanced, once per key |
| TcpSeq.PcapWriter.WriteData | 4g-simulator/src/common/pcap_writer.cpp:182-187 | handshake if needed, one segment, one counter advanced |
| TcpSeq.Counters | 4g-simulator/src/common/pcap_writer.cpp:309-336 | after any writes, shared keys included, both counters of every key stand where the bytes sent under it since its handshake end, modulo 2^32, by which side sent them |
| TcpSeq.SegmentsTile | 4g-simulator/src/common/pcap_writer.cpp:182-187 | after any writes a data segment starts where the bytes before it in its direction end, and acknowledges what the peer has sent, modulo 2^32, each if and only if the bytes straying into that counter (of other connections on the key, less its own before the handshake) come to 0 |
| TcpSeq.AloneNoStray | 4g-simulator/src/common/pcap_writer.cpp:309-336 | nothing strays into a connection whose key no other connection's data uses and whose data does not precede its handshake |
| TcpSeq.NextFollows | 4g-simulator/src/common/pcap_writer.cpp:330-336 | no gap and no overlap between consecutive segments of a direction |
| TcpSeq.FileOnKey | 4g-simulator/src/common/pcap_writer.cpp:78-98 | after any writes the file holds on each key its data segments with their numbers, in order, and one handshake, opened by the first write that asked for it, at that place |
| TcpSeq.ContinuesHandshake | 4g-simulator/src/common/pcap_writer.cpp:84-97 | in the file a connection alone on its key begins with the handshake of the first write asking for it; the first data of each end continues that end's handshake number if and only if the opener has the lower address |
| TcpSeq.OneHandshake | 4g-simulator/src/common/pcap_writer.cpp:80-82 | a key gets exactly one handshake, if any write asked for it |
| Checksum.FoldMeaning | 4g-simulator/src/common/pcap_writer.cpp:423 | folding keeps the sum modulo 65535, and only zero folds to zero |
| Checksum.IpChecksum | 4g-simulator/src/common/pcap_writer.cpp:419-425 | both loops, the sum in 32 bits, for even lengths up to 131070 bytes |
| Checksum.KnownHeader | 4g-simulator/src/common/pcap_writer.cpp:419-425 | the checksum of one header from 192.168.0.1 to 192.168.0.199, which fixes the byte order |
| Checksum.ChecksOut | 4g-simulator/src/common/pcap_writer.cpp:419-425 | a header checks out exactly when its words sum to a non-zero multiple of 65535 |
| Checksum.InsertedChecksOut | 4g-simulator/src/common/pcap_writer.cpp:354-355 | inserted into a zeroed field of any even-length header the checksum makes it check out |
| Checksum.OneWordDetected | 4g-simulator/src/common/pcap_writer.cpp:419-425 | a change of one word goes unnoticed exactly if it swaps 0x0000 and 0xFFFF |
| Checksum.BuildIpHeader | 4g-simulator/src/common/pcap_writer.cpp:345-355 | the 20 bytes put before every segment check out and carry the given fields |
| UeStore.FlatLookup | 4g-simulator/src/mme/ue_context_store.h:55-71 | a context is in the flat map exactly if it is in its identifier's shard |
| UeStore.ShardsRefineMap | 4g-simulator/src/mme/ue_context_store.h:55-77 | store, find and remove on the shards are those operations on one flat map |
| UeStore.SizeIsCount | 4g-simulator/src/mme/ue_context_store.h:79-86 | the shards' sizes add up to the number of contexts |
| UeStore.UeContextStore.constructor | 4g-simulator/src/mme/ue_context_store.h:96-98 | an empty store, identifiers from 1 |
| UeStore.UeContextStore.Insert | 4g-simulator/src/mme/ue_context_store.h:55-62 | assigns the next identifier and adds one entry |
| UeStore.UeContextStore.Lookup | 4g-simulator/src/mme/ue_context_store.h:66-71 | the entry under the identifier, or none |
| UeStore.UeContextStore.Remove | 4g-simulator/src/mme/ue_context_store.h:73-77 | removes that entry only |
| UeStore.UeContextStore.Size | 4g-simulator/src/mme/ue_context_store.h:79-86 | the summing loop returns the number of contexts when undisturbed |
| UeStore.UeContextStore.ForEach | 4g-simulator/src/mme/ue_context_store.h:89-94 | visits every context exactly once when undisturbed |
| UeStoreRuns.StepRefinesMap | 4g-simulator/src/mme/ue_context_store.h:55-77 | under interleaving each step is nothing, one new entry, or one removal on the flat map, and a stored identifier is new |
| UeStoreRuns.UniqueIds | 4g-simulator/src/mme/ue_context_store.h:55-62 | in every run shard k holds only identifiers congruent to k; up to 2^32 insertions no identifier in the making is in the store and no two threads have the same |
| UeStoreRuns.SizeBetween | 4g-simulator/src/mme/ue_context_store.h:79-86 | with no removal meanwhile size() lies between the counts at its start and at its end |
| UeStoreRuns.VisitsOnce | 4g-simulator/src/mme/ue_context_store.h:89-94 | forEach() visits no identifier twice and misses none that was there throughout |

## Left out

- Sockets, threads as operating-system objects, select and real time: links are sequences, a timeout is a step that may happen whenever a thread waits.
- Logging, visual output, JSON event log, Prometheus, metrics printing, latency values and reservoirs: measurements and text, not behaviour.
- Counters are unbounded naturals; the 64-bit statistics and the 16-bit IP identification do not wrap in the model except where a statement says so.
- Real DPDK bindings and the hugepage allocator: foreign calls.
- QER enforcement: looked up but not enforced by either path, so it changes no outcome.
- FastPathRuns.StepKeepsInv: the flag in_use is not part of the machine, because nothing reads it; the class MbufPool has it.
- FastPathTheorems.HandledContents: filling a buffer and looking into it are one step each. After the pool has come round the copy of a later call can overlap a look-up, and the code may then read parts of both packets; NoBufferRace rules that out within one pool, and no run counted as CleanlyReachable has it.
- FastPathTheorems.StopDrains: stated for head_ loads no older than stop() once the flag was read, because otherwise it is false (StaleExit).
- S1Theorems.RegisteredIsComplete: up to 2^32 attaches, like the other results about identifiers, because with one more they come round (S1Wrap.ContextTakenBack).
- S1Handover.PathSwitchTeid: stated for UEs whose Setup Response the MME has read, registered or not; before that a TEID acknowledged while there was no bearer to store it in is lost. At most 2^32 eNB TEIDs.
- S1Sessions.IpIsOwn: stated while no GTP wait has timed out, because otherwise it is false (CrossedAnswer); S1Waits.SessionIsOwn is the statement for one session after any past.
- S1AP byte templates, Diameter and GTPv2 capture frames, SCTP framing: constant bytes written for a viewer.
- Parsing inside the 4G handlers: messages are values there; the TLV loop that they share is proved once in Tlv.
- The HSS's pseudo-random generator: its output is a parameter, and the results hold for every output.
- The P-GW's own control TEID and sequence numbers of messages: written, never read.
- Fairness: that a scheduler lets a thread run is not stated. LcoreEnds, WorkerEnds and WorkersEnd bound a thread's own steps to its exit, the two procedures those of the network; SocketRuns.StopMissedExactly and ThreadPool.StopMissedExactly say which sleepers a stop does not wake.
- PDCP numbers of a status transfer, handover causes and containers: passed on, used by nothing.
- Detach, TAU accept contents, IMS call control, CBRS, charging and the PCRF's policies.
- N2 framing in the registration run: the texts are handed over as they are; the framing is the one of Tlv.FrameSplits.
- Registration5GRun.HonestRegistration: MCC and MNC are at most three digits each, UE numbers below 2^31, as the standard and the type of the command have it.
- The AMF's PDU session messages, NRF registration and the UDM's am-data reply, which the AMF only logs.
- Secrecy of the simplified key agreement: there is none to prove, because challenge and answer together give the key away (Aka5G.XorRecovers); what an answer needs of the key is Registration5GRun.KeyIsNeeded.
- Http.BuildReceive: characters stand for bytes, and bodies are below 2^32 characters, which is what the receiver's 32-bit read can take.
- TcpSeq.SegmentsTile: for two different endpoints; what the counters do for any key, shared or used by an endpoint with itself, is Counters.
- Checksum.IpChecksum: odd lengths read past the buffer in the code and have no meaning; only even ones are modelled.
- ThreadPool: what a task does is not modelled, only that it is run; tasks do not throw.
- UeStoreRuns.UniqueIds: up to 2^32 insertions, because identifiers repeat after that.
- S1Objects and RuleTable: single handlers and setters are not listed; the dispatch switches that call them are.
