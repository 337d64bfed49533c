# CSIT traffic scripts, traffic profiles and rate search

CSIT tests packet-forwarding systems. This project models the parts of it that decide whether a test passes and what
it measures, and proves what they promise:

- the packet verifier (frames cut out of a byte stream, loop-back suppression, one's-complement checksums);
- the SRv6, NAT and ICMP scripts, as acceptors of the traces that a device under test produces;
- the TRex drivers (stream layout, phases, loss accounting, sampling) and the script that stops an asynchronous run;
- the traffic profiles (nested and stepped field sweeps, IPv6 ranges, raw-offset writes into VXLAN packets);
- the rate search for no-drop and partial-drop rates (MLRsearch);
- the grouping of results into stretches of equal performance (jumpavg).

Objects whose fields the program updates are classes here (`Packet`, `Interface`, `Client`, `TrafficStreams`,
`FlowProgram`, `GroupList`, `ProgressState`, `Search`), its loops are loops with invariants, and its branch-only code
is functions. Each operation is tied to a description that does not mention how it is computed: a trace property, a
session table, a mixed-radix number, a partition, the moments of the data.

`dafny verify dfyconfig.toml` checks everything.

## What is assumed

- Clocks, sockets and the generator are parameters: `recv` is given a list of polls (clock reading, packet if any), the
  scripts a list of receive results, the drivers the traffic of each interval, the rate search a function from the
  history, the duration and the rate to a loss fraction and a received rate.
- Scapy field reads are big-endian reads at fixed offsets: EtherType at 12, IPv4 total length at 16, IPv6 payload
  length at 18, ARP and RARP address lengths at 18 and 19. A type field up to 1500 is an 802.3 length: no EtherType.
- The reader that appends each arrival to a buffer and extracts frames until none is complete is the model's own:
  `extract_one_packet` documents such a use and has no caller in the repository.
- A frame shorter than 60 bytes is filled up with zeros on the wire.
- One step of the generator's flow variables is `FlowVars.Advance`: start at the minimum, add the step, go back to the
  minimum when that passes the maximum, and advance the next variable on the way back.
- Numbers are exact: no floating-point rounding. Square root, power and logarithm are parameters with their laws.
- The rate search is given 0 < minimal rate <= maximal rate and a width goal between 0 and 1, both exclusive; the
  program may divide by zero otherwise. `turns` says how many turns of a phase begin before its timeout.
- The packets given to an `Interface` are changed by nothing but padding while it is used.

## Where the code differs from its documentation

The code is what is modelled; each difference is stated as a lemma with the exact condition.

- `send_icmp_wait_for_reply.py` "ignores all other packets": one without an ICMP layer raises an error
  (`IcmpWait.OtherPacketsAreNotIgnored`, `IcmpWait.SuccessIffInBudget`).
- With a single SID, and neither decapsulation nor proxy, the second SRv6 check asks for the destination "None"
  (`Srv6.SingleSidNeverPasses`).
- `recv` is to ignore the packets listed, each as often as listed. A packet without a load that is filled up on the wire
  is not recognised (`Loopback.AlwaysRecognisedIff`, `Loopback.ShortRequestSurfaces`).
- The static proxy check is meant for the SID list without its first SID; with two SIDs it keeps the first
  (`Srv6.StaticProxyNeedsThirdSid`).
- `_get_start_end_ipv6` documents "number of hosts" and returns one less, and the sweep covers the range only within one
  upper half (`Ipv6Range.SweepAt`, `Ipv6Range.EndVisitedIff`).
- The stateless driver reads its two-way totals from ports 0 and 1 whatever ports it was given
  (`LossAccounting.TwoWayReconcilesIff`). After an asynchronous one-way start the stop script reports the totals of a
  synchronous run only when its own reference of port 1 happens to make up for both what came before and what the other
  direction carried (`LossAccounting.OneWayAsyncThenStop`).
- A fixed frame size is computed for direction 0 only (`Streams.SecondDirectionLength`).
- `classify` is said to return "groups of optimal bit count". It does for up to two values and for values of one average
  (`SmallSeries.UpToTwoIsOptimal`, `SmallSeries.EqualAveragesAreOptimal`), for three values under an exact condition
  (`SmallSeries.ThreeAreOptimalIff`) that 0, 10, 30 do not meet (`BitCounting.ClassifyNotOptimal`), and always up to
  log2(hi - lo + 1) bits per boundary for samples between lo and hi (`Classify.AnswerNearOptimal`).
- A phase of the rate search is said to stop when "both bounds are valid"; an upper bound without loss at the maximal
  rate also stops it (`MlrSearch.StopsIffSettled`). A no-drop interval with loss at the minimal rate and none at its
  upper bound asks for higher rates and ignores the answers (`MlrSearch.UpperTrialIsUsedIff`). It stays so until one of
  its own rates is tried again (`MlrStuck.StuckUntilTriedAgain`); if the partial-drop interval has a valid lower bound
  and does not reach above the rate asked for, that never happens and the phase ends by its timeout
  (`MlrStuck.StuckForever`, `MlrStuck.StuckSearch`). In a system whose loss is a monotone function of the rate every
  phase ends (`MlrStable.StableSearch`), unless the minimal rate is the maximal one.
- With a single rate every trial replaces the lower bound and the upper one is never tried again for longer. A phase
  whose trials are longer than the first one then never ends, unless that rate loses too much for both ratios
  (`MlrSingleRate.OneRateSettledIff`, `MlrSingleRate.SingleRatePhaseIff`, `MlrSingleRate.SingleRateEndsIff`).

## Model

| member | source | states |
|---|---|---|
| `Frames.DecidedIsStable` | GPL/traffic_scripts/PacketVerifier.py:110-172 | a frame or an error, once decided, is not changed by bytes that arrive later |
| `Frames.ErrorIff` | GPL/traffic_scripts/PacketVerifier.py:115-164 | 60 bytes decide whether there is an error: no EtherType up to 1500, an unknown one unless it is IPv4, IPv6, ARP or RARP |
| `Frames.DrainAppend` | GPL/traffic_scripts/PacketVerifier.py:99-172 | extracting all that is there and continuing after more bytes equals extracting once from everything |
| `Frames.ChunkingIndependence` | GPL/traffic_scripts/PacketVerifier.py:99-172 | two ways of cutting one byte stream into arrivals give the same frames, the same error and the same unread bytes, namely those of a single pass |
| `Frames.RoundTrip` | GPL/traffic_scripts/PacketVerifier.py:110-172 | the reader outputs frames, rest and error if and only if the stream is those well-formed frames followed by that undecidable or faulty rest: the parse exists and is unique |
| `Frames.EncapsulatedIsWellFormed` | GPL/traffic_scripts/PacketVerifier.py:120-167 | any IPv4, IPv6, ARP or RARP datagram with its own length fields, put behind an Ethernet header and padded to 60 bytes, is exactly one frame of the parser |
| `Frames.SentIsReceived` | GPL/traffic_scripts/PacketVerifier.py:99-172 | every burst of such frames plus an incomplete tail, cut into any arrivals, is read back as sent, tail included |
| `Checksum.EqualIffCongruent` | GPL/traffic_scripts/PacketVerifier.py:351-355 | two words are `checksum_equal` if and only if they are congruent modulo 0xFFFF |
| `Checksum.TotalIsRepresentative` | GPL/traffic_scripts/PacketVerifier.py:338-341 | every bracketing of end-around-carry additions gives the one representative of the integer sum modulo 0xFFFF |
| `Checksum.OrderAndGroupingIrrelevant` | GPL/traffic_scripts/PacketVerifier.py:335-355 | checksums of the same words in any order and any grouping are `checksum_equal` (section 2 of RFC 1071) |
| `Checksum.DeferredCarries` | GPL/traffic_scripts/PacketVerifier.py:335-355 | adding first and folding the carries at the end agrees with carrying at once |
| `Checksum.IncrementalUpdate` | GPL/traffic_scripts/PacketVerifier.py:335-355 | updating a correct checksum after one word changed is `checksum_equal` to the checksum of the changed words (section 3 of RFC 1624) |
| `Checksum.PlainEqualityIsTooStrong` | GPL/traffic_scripts/PacketVerifier.py:351-355 | identifying the two zeros is needed: plain equality rejects a correct update |
| `PacketQueues.PaddedIsNormal` | GPL/traffic_scripts/PacketVerifier.py:327-332 | padding is idempotent, reaches 64 or 78 bytes when there is a load to extend, and only appends zeros |
| `PacketQueues.PaddedTo` | GPL/traffic_scripts/PacketVerifier.py:327-332 | a load is filled up to 64 bytes of packet, 78 with IPv6, the Raw layer before the Padding layer |
| `PacketQueues.Packet.AutoPad` | GPL/traffic_scripts/PacketVerifier.py:323-332 | in place; a packet already padded is not touched, and the key it is compared by never changes |
| `PacketQueues.RemoveFirst` | GPL/traffic_scripts/PacketVerifier.py:251 | `list.remove` takes exactly one occurrence out of the multiset |
| `PacketQueues.OutcomeIsUnique` | GPL/traffic_scripts/PacketVerifier.py:231-254 | the trace description of `recv` (first arrival in excess of the ignore list, else the first poll past the deadline) determines the result |
| `PacketQueues.ScanIsOutcome` | GPL/traffic_scripts/PacketVerifier.py:231-254 | striking arrivals off the list one by one meets that description, and consumed plus remaining entries are the initial multiset |
| `PacketQueues.OnlyExcessSurfaces` | GPL/traffic_scripts/PacketVerifier.py:250-254 | whatever else arrives, a packet that is returned is one that arrived more often than it was listed |
| `PacketQueues.Listen` | GPL/traffic_scripts/PacketVerifier.py:231-254 | the loop returns the outcome of the scan; packets are at most padded |
| `PacketQueues.Recv` | GPL/traffic_scripts/PacketVerifier.py:227-254 | the returned packet is the first whose key occurred more often than in the ignore list; nothing only at the deadline fixed at the start; no ignore entry is lost |
| `PacketQueues.Send` | GPL/traffic_scripts/PacketVerifier.py:277-283 | the object handed in is the one padded, and its padded bytes go on the wire |
| `PacketQueues.Interface.SendPkt` | GPL/traffic_scripts/PacketVerifier.py:300-303 | the sent object itself joins `sent_packets`, padded |
| `PacketQueues.Interface.RecvPkt` | GPL/traffic_scripts/PacketVerifier.py:305-313 | own frames are suppressed up to their sent multiplicity; `sent_packets` and the packets in it stay as they were |
| `PacketQueues.Act` | GPL/traffic_scripts/PacketVerifier.py:300-313 | one send or receive has the effect that the packets sent before it prescribe |
| `PacketQueues.Run` | GPL/traffic_scripts/PacketVerifier.py:286-313 | over any interleaving of sends and receives every receive suppresses exactly what was sent before it, and no receive uses up what a later one may suppress |
| `PacketQueues.EffectAt` | GPL/traffic_scripts/PacketVerifier.py:286-313 | what a run says about its i-th action depends on the sends before it alone |
| `Loopback.RecognisedIff` | GPL/traffic_scripts/PacketVerifier.py:241-250 | a frame that comes back, filled up to 60 bytes on the wire, has the key of the packet sent if and only if nothing was added to it on its way or on arrival; always so for a packet with a load |
| `Loopback.AlwaysRecognisedIff` | GPL/traffic_scripts/PacketVerifier.py:241-250 | as the sender can tell: it is recognised however it is dissected if and only if its key has the minimal length |
| `Loopback.LoopbackIsSuppressed` | GPL/traffic_scripts/PacketVerifier.py:227-254 | among any frames of others, a receive returns frame i if and only if it is the first foreign one and all up to it came in time: own packets with a load are passed over, up to the number of times they were sent |
| `Loopback.RunSuppressesLoopback` | GPL/traffic_scripts/PacketVerifier.py:286-313 | the same in every receive of every interleaving of sends and receives |
| `Loopback.ShortRequestSurfaces` | GPL/traffic_scripts/PacketVerifier.py:316-332 | it fails without a load: a 42-byte gratuitous ARP request comes back as 60 bytes with a padding layer, gets another key and is returned |
| `Await.AwaitPacket` | GPL/traffic_scripts/srv6_encap.py:239-250 | the receive loop of the scripts computes `AwaitOther` |
| `Await.AwaitsFirstOther` | GPL/traffic_scripts/srv6_encap.py:239-250 | that is the first receive result which is not a neighbour solicitation, a timeout if that one is silence |
| `Await.SolicitationsIrrelevant` | GPL/traffic_scripts/srv6_encap.py:245-247 | any number of solicitations in front changes nothing |
| `Srv6.AcceptedMeans` | GPL/traffic_scripts/srv6_encap.py:52-139 | with a second SID, the chain of tests accepts if and only if the observable headers are those expected and Segments Left is inside the list |
| `Srv6.ExpectedOnWire` | GPL/traffic_scripts/srv6_encap.py:77-81 | the segment list and Segments Left that a check asks for, in terms of the SIDs |
| `Srv6.ReasonsHold` | GPL/traffic_scripts/srv6_encap.py:57-139 | a refusal for any reason but a failed lookup names a test that failed |
| `Srv6.PlainAcceptedIff` | GPL/traffic_scripts/srv6_encap.py:157-190 | the plain check accepts if and only if the first Ethernet layer has the two MACs and the first IPv6 layer the two addresses and next header 59 |
| `Srv6.AcceptsExactlyTravelled` | GPL/traffic_scripts/srv6_encap.py:77-86 | ... if and only if they are those of the fresh encapsulation of the expected policy after c - 1 endpoint steps (c - 2 in the static proxy call) |
| `Srv6.CorrectionCountsSteps` | GPL/traffic_scripts/srv6_encap.py:80-86 | a packet after n steps is accepted with exactly one correction, n + 1 |
| `Srv6.StepStaysOnPath` | GPL/traffic_scripts/srv6_encap.py:82-86 | each endpoint step (section 4.3.1.1 of RFC 8754) keeps the destination equal to the segment that Segments Left points at |
| `Srv6.StaticProxyNeedsThirdSid` | GPL/traffic_scripts/srv6_encap.py:77-81 | the static proxy call accepts the policy without its first SID if and only if a third SID is configured; with two it accepts the whole policy instead |
| `Srv6.BuilderIsFresh` | GPL/traffic_scripts/srv6_encap.py:262-277 | the packet built is the fresh encapsulation of its policy and has dst = addresses[segleft] |
| `Srv6.BuilderIsPlain` | GPL/traffic_scripts/srv6_encap.py:273-277 | without a second SID the packet built is a plain encapsulation for the first one |
| `Srv6.BuilderIsAccepted` | GPL/traffic_scripts/srv6_encap.py:262-277 | it is what a check with correction 1 accepts |
| `Srv6.SingleSid` | GPL/traffic_scripts/srv6_encap.py:77-97 | without a second SID: the first check accepts exactly the plain encapsulations for the first SID, the second one exactly those for the destination "None" |
| `Srv6.SingleSidNeverPasses` | GPL/traffic_scripts/srv6_encap.py:293-300 | so without decapsulation and proxy every packet to a real destination is refused on the way back |
| `Srv6.Script` | GPL/traffic_scripts/srv6_encap.py:239-302 | the script sends the plain packet first; it passes if and only if the first non-solicitation on each side is accepted by its check, after sending the built packet; silence is a timeout |
| `Srv6.CheckBackIs` | GPL/traffic_scripts/srv6_encap.py:293-300 | which check the second packet is put to, and with which addresses |
| `Srv6.ConformingNodePasses` | GPL/traffic_scripts/srv6_encap.py:239-302 | a node that encapsulates one way and makes one endpoint step the other way passes, with any solicitations in between |
| `Srv6.DecapsulatedPasses` | GPL/traffic_scripts/srv6_encap.py:142-190 | with decapsulation the inner packet passes and no packet that is still encapsulated does |
| `Nat.CheckOutside` | GPL/traffic_scripts/nat.py:117-155 | no error means: the request with its source translated to an allowed port; an error means no allowed port explains the packet, and names a difference from every such packet |
| `Nat.CheckInside` | GPL/traffic_scripts/nat.py:179-213 | no error if and only if the packet is the answer addressed back to the inside endpoint |
| `Nat.FlagsOnTheWire` | GPL/traffic_scripts/nat.py:94-96 | a TCP request is a SYN and a TCP answer a SYN-ACK, on both sides |
| `Nat.ExplainsIff` | GPL/traffic_scripts/nat.py:104-213 | some bijective session table forwards these two packets if and only if they look as the checks want (section 2.2 of RFC 3022) |
| `Nat.ExplainedIff` | GPL/traffic_scripts/nat.py:104-213 | the same for whole traces with solicitations in them |
| `Nat.Script` | GPL/traffic_scripts/nat.py:68-215 | a run passes if and only if one bijective table, with the given outside port or any when none is given, explains both packets; bad addresses and protocols raise before anything is sent; the MACs of both packets sent; silence is a timeout |
| `Nat.EveryTablePasses` | GPL/traffic_scripts/nat.py:104-213 | completeness table by table, noise included |
| `IcmpWait.WaitForReply` | GPL/traffic_scripts/send_icmp_wait_for_reply.py:108-130 | the nested loops end as the trace description says, for every trace |
| `IcmpWait.OutcomeIsUnique` | GPL/traffic_scripts/send_icmp_wait_for_reply.py:108-130 | the description determines how and at which event the run ends |
| `IcmpWait.SuccessIffInBudget` | GPL/traffic_scripts/send_icmp_wait_for_reply.py:108-128 | success if and only if a matching reply comes after at most `timeout` silent steps in total and at most 999 packets, all of them ICMP, solicitations charged to neither |
| `IcmpWait.OtherPacketsAreNotIgnored` | GPL/traffic_scripts/send_icmp_wait_for_reply.py:123 | "ignores all other packets" fails: one packet without ICMP ends the run |
| `LossAccounting.SimpleBurst` | GPL/tools/trex/trex_stl_profile.py:165-260 | whatever the warm-up carried, the report is about the run alone; the references exported are the counters at its start; missing ports are key errors |
| `LossAccounting.WarmUp` | GPL/tools/trex/trex_stl_profile.py:166-198 | it needs both ports in the statistics and changes nothing but the hardware counters |
| `LossAccounting.Measure` | GPL/tools/trex/trex_stl_profile.py:219-260 | totals, losses and rate are those of the traffic carried since the counters were cleared |
| `LossAccounting.Export` | GPL/tools/trex/trex_stl_profile.py:211-217 | the snapshots of ports 0 and 1 are the references, the second only with two directions |
| `LossAccounting.OneWayReconciles` | GPL/tools/trex/trex_stl_profile.py:235-256 | one direction: frame_loss = total_sent - total_received always |
| `LossAccounting.TwoWayReconcilesIff` | GPL/tools/trex/trex_stl_profile.py:235-256 | both directions: it holds for every traffic if and only if {port_0, port_1} = {0, 1}, since the totals are read from ports 0 and 1 |
| `LossAccounting.Stop` | GPL/tools/trex/trex_stl_stop.py:66-100 | with the snapshots restored, the report is the difference to them, and its loss is the sum of both losses and the difference of its totals |
| `LossAccounting.AsyncThenStop` | GPL/tools/trex/trex_stl_stop.py:66-93 | starting asynchronously and stopping from another client reports what a synchronous run of the same traffic would, after any warm-up |
| `LossAccounting.OneWayAsyncThenStop` | GPL/tools/trex/trex_stl_stop.py:62-93 | after a one-directional start no snapshot of port 1 is passed on; sent and received agree with a synchronous one-way report if and only if the own reference of port 1 is exactly the counters at the start plus what the other direction carried |
| `AstfSampling.LastKey` | GPL/tools/trex/trex_astf_profile.py:186 | the last of the sorted keys is the greatest |
| `AstfSampling.DetectStart` | GPL/tools/trex/trex_astf_profile.py:183-194 | the clock is rebased to the first probe that saw a packet, through a dictionary cleared at every turn |
| `AstfSampling.CollectSamples` | GPL/tools/trex/trex_astf_profile.py:208-230 | the greatest key belongs to the sample taken after the traffic became inactive, ties of the clock included |
| `AstfSampling.SimpleBurst` | GPL/tools/trex/trex_astf_profile.py:183-257 | the reported counters are those of that sample, approximated_duration is its clock minus that of the first sent packet and not negative, and the loss is the difference of the totals; an asynchronous start exports the references of its ports instead; missing ports are key errors |
| `Streams.GenPayload` | GPL/traffic_profiles/trex/profile_trex_stateless_base_class.py:50-64 | as many letters as asked for, none for a negative length |
| `Streams.TrafficStreams.CreateSized` | GPL/traffic_profiles/trex/profile_trex_stateless_base_class.py:121-168 | one stream and one latency stream per direction, all with the payload length of direction 0 |
| `Streams.TrafficStreams.CreateMix` | GPL/traffic_profiles/trex/profile_trex_stateless_base_class.py:173-202 | per row one stream for each direction, all of direction 0 first, each with its own payload length |
| `Streams.TrafficStreams.GetStreams` | GPL/traffic_profiles/trex/profile_trex_stateless_base_class.py:204-216 | the fields are set, the list is laid out by size or mix, and an unknown mix is a key error |
| `Streams.FixedSizeStreams` | GPL/traffic_profiles/trex/profile_trex_stateless_base_class.py:121-168 | lengths, rates, gaps and statistics ids of the four streams, in numbers |
| `Streams.MixStreams` | GPL/traffic_profiles/trex/profile_trex_stateless_base_class.py:30-41 | lengths, rates and gaps of the streams of both mixes, in numbers |
| `Streams.SecondDirectionLength` | GPL/traffic_profiles/trex/profile_trex_stateless_base_class.py:123-132 | the second direction gets the wanted frame length if and only if both templates are equally long or neither needs padding |
| `Streams.Install` | GPL/tools/trex/trex_stl_profile.py:138-164 | the driver installs what `InstalledBy` says, Python slices and index errors included |
| `Streams.SizedLayoutInverted` | GPL/tools/trex/trex_stl_profile.py:138-155 | for equally long direction lists of any length and two latency streams the index arithmetic recovers all four, nothing on port_1 when unidirectional |
| `Streams.FewStreams` | GPL/tools/trex/trex_stl_profile.py:139-155 | a list too short for its latency streams is an index error |
| `Streams.SizedLayoutNeedsEqualLengths` | GPL/tools/trex/trex_stl_profile.py:139-155 | with both directions equal length is also necessary, with latency streams and without |
| `Streams.MixLayoutInvertedIff` | GPL/tools/trex/trex_stl_profile.py:145-148 | the fixed slices recover both lists if and only if they have three entries or none |
| `Streams.LoadProfile` | GPL/traffic_profiles/trex/profile_trex_stateless_base_class.py:204-216 | profile and driver together: every port carries the streams of its own direction, as many as the layout has, for every known size |
| `FlowVars.NumberOfDigits` | GPL/traffic_profiles/trex/trex-stl-ethip4udp-1048576u63p.py:103-123 | mixed radix: the digits of packet k stand for k modulo the product of the counts |
| `FlowVars.DigitsOfNumber` | GPL/traffic_profiles/trex/trex-stl-ethip4udp-1048576u63p.py:103-123 | and every digit string in range is that of its number |
| `FlowVars.PacketShowsDigits` | GPL/traffic_profiles/trex/trex-stl-ethip4udp-1048576u63p.py:103-123 | under the assumed step, packet k of any chain of variables shows the mixed-radix digits of k |
| `FlowVars.WindowHitsOnce` | GPL/traffic_profiles/trex/trex-stl-ethip4udp-1048576u63p.py:103-123 | every window of one period shows every combination exactly once, for chains of any length |
| `FlowVars.TwoWheels` | GPL/traffic_profiles/trex/trex-stl-ethip4udp-1048576u63p.py:103-123 | two variables: k mod U and (k div U) mod P steps above their minima |
| `SweepProfiles.BuildProgram` | GPL/traffic_profiles/trex/trex-stl-ethip4udp-1048576u63p.py:102-157 | the calls in order make the variable chains and field writes stated |
| `SweepProfiles.DefinePackets` | GPL/traffic_profiles/trex/trex-stl-ethip4udp-1048576u63p.py:43-63 | with the constants of the profile, in both directions |
| `SweepProfiles.Ranges` | GPL/traffic_profiles/trex/trex-stl-ethip4udp-1048576u63p.py:43-63 | the address and port ranges in numbers |
| `SweepProfiles.EachPairOnce` | GPL/traffic_profiles/trex/trex-stl-ethip4udp-1048576u63p.py:102-127 | any two unit-step variables, one advancing the other: every window of U * P packets has each pair exactly once |
| `SweepProfiles.SamePeriod` | GPL/traffic_profiles/trex/trex-stl-ethip4udp-1048576u63p.py:43-63 | 1048576 x 63 and 1024 x 64512 pairs, the same period |
| `SweepProfiles.InsidePairsOnce` | GPL/traffic_profiles/trex/trex-stl-ethip4udp-1048576u63p.py:102-127 | inside: each of these address and port pairs once per period |
| `SweepProfiles.OutsidePairsOnce` | GPL/traffic_profiles/trex/trex-stl-ethip4udp-1048576u63p.py:130-156 | outside likewise, by destination |
| `SweepProfiles.UnitPair` | GPL/traffic_profiles/trex/trex-stl-ethip4udp-1048576u63p.py:102-127 | packet k carries address k mod U and port (k div U) mod P |
| `SweepProfiles.FixedPair` | GPL/traffic_profiles/trex/trex-stl-ethip4udp-1048576u63p.py:131-141 | the peer side never changes |
| `SweepProfiles.ChainCounts` | GPL/traffic_profiles/trex/trex-stl-2n3n-ethip4-ip4src254-4c6n.py:93-104 | for any c chains of n nodes both stepped counters have exactly c values |
| `SweepProfiles.ChainAddressing` | GPL/traffic_profiles/trex/trex-stl-2n3n-ethip4-ip4src254-4c6n.py:93-135 | packet k of both directions addresses chain k mod c, at node 1 + i*n one way and (i+1)*n the other, within one byte for c*n <= 255 |
| `SweepProfiles.ChainsVisited` | GPL/traffic_profiles/trex/trex-stl-2n3n-ethip4-ip4src254-4c6n.py:93-135 | every c consecutive packets visit every chain exactly once |
| `Ipv6Range.BeforeIffLess` | GPL/traffic_profiles/trex/profile_trex_stateless_base_class.py:82-85 | dictionary order of equally long byte strings is the order of their big-endian numbers |
| `Ipv6Range.RefusedIffAfter` | GPL/traffic_profiles/trex/profile_trex_stateless_base_class.py:85-86 | the range is refused if and only if the start address comes after the end address |
| `Ipv6Range.NotAnAddressIff` | GPL/traffic_profiles/trex/profile_trex_stateless_base_class.py:79-80 | an error of its own for texts that are no address |
| `Ipv6Range.SweepAt` | GPL/traffic_profiles/trex/trex-stl-2n-ethip6-ip6dst10000.py:84-98 | equal upper halves: packet k goes to start + k mod (count + 1), within 64 bits |
| `Ipv6Range.SweepVisitsOnce` | GPL/traffic_profiles/trex/trex-stl-2n-ethip6-ip6dst10000.py:84-98 | every count + 1 consecutive packets visit each address of start..end exactly once |
| `Ipv6Range.SweepStaysBetween` | GPL/traffic_profiles/trex/trex-stl-2n-ethip6-ip6dst10000.py:84-98 | and no other |
| `Ipv6Range.EndVisitedIff` | GPL/traffic_profiles/trex/profile_trex_stateless_base_class.py:88 | the end address is ever visited if and only if the upper halves are equal |
| `Ipv6Range.DifferentHalvesMayOverflow` | GPL/traffic_profiles/trex/profile_trex_stateless_base_class.py:88 | otherwise base + count need not even fit 64 bits |
| `Vxlan.BasePacketDecodes` | GPL/traffic_profiles/trex/trex-stl-dot1qip4vxlan-ip4src10udpsrcrnd.py:88-142 | a receiver that follows the headers (section 5 of RFC 7348) reads the fields the packet was built from |
| `Vxlan.DecodeReads` | GPL/traffic_profiles/trex/trex-stl-dot1qip4vxlan-ip4src10udpsrcrnd.py:88-142 | which packets the receiver decodes, and from which bytes |
| `Vxlan.WriteValues` | GPL/traffic_profiles/trex/trex-stl-dot1qip4vxlan-ip4src10udpsrcrnd.py:144-208 | what each of the seven writes of packet k writes |
| `Vxlan.WritesDisjoint` | GPL/traffic_profiles/trex/trex-stl-dot1qip4vxlan-ip4src10udpsrcrnd.py:144-208 | no byte is written twice, checksums included |
| `Vxlan.SentByte` | GPL/traffic_profiles/trex/trex-stl-dot1qip4vxlan-ip4src10udpsrcrnd.py:144-208 | every byte of packet k: the written ones, the two outer checksums, and the base packet everywhere else |
| `Vxlan.DecodedFields` | GPL/traffic_profiles/trex/trex-stl-dot1qip4vxlan-ip4src10udpsrcrnd.py:19-208 | packet k decodes to the base with VNI and outer source octet k mod n, the chosen port, and matching inner octets k mod 256 |
| `Vxlan.ForwardPackets` | GPL/traffic_profiles/trex/trex-stl-dot1qip4vxlan-ip4src10udpsrcrnd.py:19-29 | packet k of direction 0, field by field as documented |
| `Vxlan.BackwardPackets` | GPL/traffic_profiles/trex/trex-stl-dot1qip4vxlan-ip4src10udpsrcrnd.py:30-40 | packet k of direction 1 likewise |
| `Latency.RoundIsNearestEven` | GPL/tools/trex/trex_stl_profile.py:47-57 | rounding moves a value by at most 1/2, by 1/2 only to an even number, and keeps order |
| `Latency.PrintedInOrder` | GPL/tools/trex/trex_stl_profile.py:46-59 | min <= avg <= max survives in what is read back |
| `Latency.LatencyRoundTrip` | GPL/tools/trex/trex_stl_profile.py:46-59 | unless an infinity was read (an error that is not caught), cutting at the first three slashes recovers the integers and the histogram text, whatever slashes it has |
| `Latency.PrintedRounded` | GPL/tools/trex/trex_stl_profile.py:46-59 | each number read back is within 1/2 of its latency, even when exactly 1/2 away, and -1 where the text is no number |
| `RunStats.ForRuns` | resources/libraries/python/jumpavg/AvgStdevStats.py:83-113 | the merging loop computes size, mean and variance from the total moments, in any nesting; it divides by zero if and only if the first run is empty |
| `RunStats.DescribesIffMoments` | resources/libraries/python/jumpavg/AvgStdevStats.py:83-113 | statistics describe a list of samples (mean, squared deviations) if and only if they have its moments |
| `RunStats.MergedDescribesAll` | resources/libraries/python/jumpavg/AvgStdevStats.py:66-113 | merging summaries of any parts of the data gives mean and variance of all the data |
| `RunStats.AppendedStats` | resources/libraries/python/jumpavg/AvgStdevStats.py:69-70 | a summary used as the first run stands for all runs it was made from |
| `JumpAvg.GroupList.Count` | resources/libraries/python/jumpavg/BitCountingGroupList.py:121-131 | cached counts add up to the cost of the whole partition, each group charged with the average before it |
| `JumpAvg.GroupList.AppendGroup` | resources/libraries/python/jumpavg/BitCountingGroupList.py:133-157 | adds one group and keeps statistics and caches right |
| `JumpAvg.GroupList.AppendRun` | resources/libraries/python/jumpavg/BitCountingGroupList.py:159-171 | adds a run to the last group by updating its statistics, which are again those of its runs |
| `JumpAvg.ExtendAll` | resources/libraries/python/jumpavg/classify.py:59-64 | the inner loop finds the cheapest candidate; on a tie the newly opened list wins, then the earliest |
| `JumpAvg.ClassifyRuns` | resources/libraries/python/jumpavg/classify.py:53-66 | the dynamic program fills the table of best continuations of best prefixes, one entry per prefix, with these ties |
| `JumpAvg.TablePartitions` | resources/libraries/python/jumpavg/classify.py:53-66 | every entry is a partition of its prefix into non-empty groups: no value lost, none moved |
| `JumpAvg.TableIsUnique` | resources/libraries/python/jumpavg/classify.py:55-66 | ties included, the values determine every entry, and so the answer |
| `JumpAvg.NearOptimal` | resources/libraries/python/jumpavg/classify.py:28-66 | for any coding, the entry costs at most d per boundary more than any partition, d being the most a change of predecessor can do to one group |
| `JumpAvg.OptimalWithoutSwing` | resources/libraries/python/jumpavg/classify.py:28-66 | so it is optimal when predecessors do not matter |
| `BitCounting.EmptyGroupIsFree` | resources/libraries/python/jumpavg/BitCountingStats.py:80-84 | an empty group takes no bits |
| `BitCounting.AverageTermSwing` | resources/libraries/python/jumpavg/BitCountingStats.py:94-101 | among averages between lo and hi, changing the previous one changes the bits of a group by at most log2(hi - lo + 1) |
| `BitCounting.ClassifyNearOptimal` | resources/libraries/python/jumpavg/BitCountingStats.py:83-115 | with the real coding and averages between lo and hi: within log2(hi - lo + 1) bits per boundary of the optimum |
| `SmallSeries.UpToTwoIsOptimal` | resources/libraries/python/jumpavg/classify.py:53-66 | up to two values are grouped optimally, for any coding |
| `SmallSeries.EqualAveragesAreOptimal` | resources/libraries/python/jumpavg/classify.py:53-66 | so are values of one average, however many |
| `SmallSeries.SecondEntry` | resources/libraries/python/jumpavg/classify.py:56-65 | of the first two values together and apart only the cheaper one is carried on, apart on a tie |
| `SmallSeries.ThreeAreOptimalIff` | resources/libraries/python/jumpavg/classify.py:53-66 | three values are grouped optimally if and only if what is not carried on, as the costs of the first two tell, is not strictly the cheapest of the four groupings |
| `BitCounting.ClassifyNotOptimal` | resources/libraries/python/jumpavg/classify.py:28 | "optimal bit count" fails: for 0, 10, 30 another grouping takes strictly fewer bits |
| `Classify.Preprocess` | resources/libraries/python/jumpavg/classify.py:41-52 | the greatest sample, 0 at least, and each input as a run |
| `Classify.RunStandsForSamples` | resources/libraries/python/jumpavg/classify.py:43-52 | the run that takes the place of an input has mean and variance of its samples |
| `Classify.Label` | resources/libraries/python/jumpavg/classify.py:67-75 | a group is a regression if and only if its average is below the one before it, a progression if and only if above, otherwise, and for the first, normal |
| `Classify.Classify` | resources/libraries/python/jumpavg/classify.py:27-76 | the answer is the last table entry with its labels; when exactly an index, division or value error ends the call instead |
| `Classify.AnswerNearOptimal` | resources/libraries/python/jumpavg/classify.py:27-66 | the bound in terms of the samples given to `classify`, negative ones included |
| `MlrSearch.StaysUpToDate` | resources/libraries/python/MLRsearch/MultipleLossRatioSearch.py:341-400 | whatever a trial shows, both bounds stay the latest trials at their two different rates |
| `MlrSearch.TrialUpdates` | resources/libraries/python/MLRsearch/MultipleLossRatioSearch.py:341-400 | what a trial does to an interval, case by case over rates and losses, and that this determines the new interval |
| `MlrSearch.ValidBoundsStay` | resources/libraries/python/MLRsearch/MultipleLossRatioSearch.py:361-400 | in any system: a lossy upper bound is lost only by a trial at its own rate, a valid lower bound only by that or by a lower trial that loses too much |
| `MlrSearch.BracketStays` | resources/libraries/python/MLRsearch/MultipleLossRatioSearch.py:341-400 | if loss is a monotone function of the rate, a valid interval stays valid and never widens |
| `MlrSearch.HalfOfDouble` | resources/libraries/python/MLRsearch/MultipleLossRatioSearch.py:151-241 | half of double a relative width is not larger than the width |
| `MlrSearch.DoublingSquares` | resources/libraries/python/MLRsearch/MultipleLossRatioSearch.py:151-162 | doubling a width squares what is left of the rate, up to a thousandth of the width |
| `MlrSearch.BisectsGeometrically` | resources/libraries/python/MLRsearch/MultipleLossRatioSearch.py:243-256 | half a step up from the lower bound is the geometric mean of the bounds |
| `MlrPhases.ExpandDown` | resources/libraries/python/MLRsearch/MultipleLossRatioSearch.py:179-196 | the loop doubles the width the given number of times |
| `MlrPhases.ExpandUp` | resources/libraries/python/MLRsearch/MultipleLossRatioSearch.py:213-230 | likewise upwards |
| `MlrPhases.FindExternalRate` | resources/libraries/python/MLRsearch/MultipleLossRatioSearch.py:503-573 | the first request in the order no-drop lower, partial-drop lower, no-drop upper, partial-drop upper |
| `MlrPhases.FindNextRate` | resources/libraries/python/MLRsearch/MultipleLossRatioSearch.py:437-500 | the rate tried next lies within the given bounds; there is none if and only if both intervals are settled |
| `MlrSearch.StopsIffSettled` | resources/libraries/python/MLRsearch/MultipleLossRatioSearch.py:437-501 | a phase stops exactly when, for both loss ratios, the lower bound is long enough, the upper bound lossy or maximal, and the minimal rate already lossy or the interval valid below, narrow and long enough |
| `MlrSearch.NextRateIsAskedFor` | resources/libraries/python/MLRsearch/MultipleLossRatioSearch.py:437-647 | the order of priorities and the rate in each case: the step down or up of the width left, the geometric mean, or the bound to be tried for longer |
| `MlrSearch.NextRateWithin` | resources/libraries/python/MLRsearch/MultipleLossRatioSearch.py:503-647 | no rate outside the given bounds is asked for |
| `MlrSearch.LowerTrialIsUsed` | resources/libraries/python/MLRsearch/MultipleLossRatioSearch.py:361-367 | a trial asked for below an invalid lower bound becomes the lower bound |
| `MlrSearch.UpperTrialIsUsedIff` | resources/libraries/python/MLRsearch/MultipleLossRatioSearch.py:361-382 | a trial asked for above a good upper bound becomes the upper bound if and only if the lower bound is valid (or the rate is the maximal one); otherwise it is ignored |
| `MlrSearch.StuckStaysStuck` | resources/libraries/python/MLRsearch/MultipleLossRatioSearch.py:361-367 | so a lossy minimal rate under a loss-free upper bound asks for the same rate again without effect |
| `MlrStuck.StuckForever` | resources/libraries/python/MLRsearch/MultipleLossRatioSearch.py:437-501 | for any loss ratio: over a partial-drop interval with a valid lower bound that does not reach above the rate asked for, a stuck no-drop interval never changes and asks for the same rate at every turn |
| `MlrStuck.StuckUntilTriedAgain` | resources/libraries/python/MLRsearch/MultipleLossRatioSearch.py:437-501 | over any partial-drop interval it changes only by a trial at one of its own two rates, and until then the phase goes on asking |
| `MlrStuck.GetsStuck` | resources/libraries/python/MLRsearch/MultipleLossRatioSearch.py:437-501 | how to get there: the minimal rate tried again with a little loss, then the shared upper bound tried again without, both as the phase asks |
| `MlrStuck.StuckSearch` | resources/libraries/python/MLRsearch/MultipleLossRatioSearch.py:258-311 | a concrete system with which the whole search never succeeds, however many turns it is given |
| `MlrSearch.BisectionHalves` | resources/libraries/python/MLRsearch/MultipleLossRatioSearch.py:575-604 | a bisecting trial halves the logarithmic width whatever it shows |
| `MlrPhases.DurationsAreGeometric` | resources/libraries/python/MLRsearch/MultipleLossRatioSearch.py:412-430 | phase k of n has the initial duration times (final / initial) to the k / n |
| `MlrPhases.PhaseGoals` | resources/libraries/python/MLRsearch/MultipleLossRatioSearch.py:412-430 | and the final width doubled once for every phase after it |
| `MlrProgress.NeverFurther` | resources/libraries/python/MLRsearch/MultipleLossRatioSearch.py:341-400 | if loss is a monotone function of the rate, no trial takes an interval further from its goal |
| `MlrProgress.AskedForBrings` | resources/libraries/python/MLRsearch/MultipleLossRatioSearch.py:503-647 | and the trial asked for brings one of the two closer: a step of external search, a bisection or a longer trial |
| `MlrStable.PhaseEnds` | resources/libraries/python/MLRsearch/MultipleLossRatioSearch.py:437-501 | so a phase takes at most a number of trials that its goal alone determines |
| `MlrTruth.SettledIsRight` | resources/libraries/python/MLRsearch/MultipleLossRatioSearch.py:27-79 | a settled interval is right about every rate |
| `MlrStable.StableSearch` | resources/libraries/python/MLRsearch/MultipleLossRatioSearch.py:258-311 | given as many turns as that, the whole search succeeds if and only if there are two different rates or every phase of the single one can end; then both intervals decide every rate |
| `MlrSingleRate.OneRateSettledIff` | resources/libraries/python/MLRsearch/MultipleLossRatioSearch.py:355-360 | with minimal = maximal rate, in any system: settled if and only if the lower bound was tried for long enough and either the very first trial was too or both trials lost too much, since the upper bound is never tried again |
| `MlrSingleRate.SingleRatePhaseIff` | resources/libraries/python/MLRsearch/MultipleLossRatioSearch.py:437-501 | with one loss at that rate a phase goes on for ever if and only if neither that loss is too much for both ratios nor the first trial long enough; otherwise it makes one trial at most |
| `MlrSingleRate.SingleRateEndsIff` | resources/libraries/python/MLRsearch/MultipleLossRatioSearch.py:258-311 | and the search succeeds if and only if every phase can end |
| `MlrPhases.Search.Measure` | resources/libraries/python/MLRsearch/MultipleLossRatioSearch.py:330 | one more trial in the history, answered by the system under test |
| `MlrPhases.Search.MeasureAndUpdate` | resources/libraries/python/MLRsearch/MultipleLossRatioSearch.py:313-338 | one trial updates both intervals, each by the cases above |
| `MlrPhases.Search.Turn` | resources/libraries/python/MLRsearch/MultipleLossRatioSearch.py:437-501 | one turn: done if nothing is chosen, else one trial at the chosen rate, which updates both intervals |
| `MlrPhases.Search.Iterate` | resources/libraries/python/MLRsearch/MultipleLossRatioSearch.py:437-501 | the loop of a phase: both intervals are what its trials lead to, each trial at the rate chosen for the intervals before it; the goal is reached, or all turns are used up |
| `MlrPhases.Search.Phase` | resources/libraries/python/MLRsearch/MultipleLossRatioSearch.py:402-501 | the recursion over earlier phases: every phase starts from the intervals of the one before, which had reached its own goal; its trials are those its intervals ask for, within bounds and of its duration; the last one reached its goal or used up its turns |
| `MlrPhases.Search.FirstTwo` | resources/libraries/python/MLRsearch/MultipleLossRatioSearch.py:274-288 | a trial at the maximal rate and one at what was received, at the minimum or at the step below the maximum when it is outside them |
| `MlrPhases.RefinedRateIs` | resources/libraries/python/MLRsearch/MultipleLossRatioSearch.py:289-294 | after loss the smaller of the step down and the rate received, otherwise the step up |
| `MlrPhases.Search.InitialWidth` | resources/libraries/python/MLRsearch/MultipleLossRatioSearch.py:279-283 | the final width doubled once per intermediate phase, a proper width again |
| `MlrPhases.Search.Initial` | resources/libraries/python/MLRsearch/MultipleLossRatioSearch.py:277-303 | the two or three trials and the interval they make, sorted, within bounds and up to date |
| `MlrPhases.Search.Refine` | resources/libraries/python/MLRsearch/MultipleLossRatioSearch.py:289-303 | a third trial exactly if the refined rate lies strictly inside the bounds; the starting interval then is that trial and the second, in order, else the second and the first |
| `MlrPhases.Search.NarrowDown` | resources/libraries/python/MLRsearch/MultipleLossRatioSearch.py:258-311 | the whole search, for every system under test: the initial trials, the phases from their interval on, and a result settled at the final duration and width whose bounds are the latest trials at their rates |

## Left out

- Sockets, `select`, process start, argument parsing, printing and JSON output: replaced by traces and results.
- TRex client and server, and scapy dissection, beyond the counters, the flow-variable step and the offsets above; the
  guards "Incomplete ARP packet", "Incomplete RARP packet" and "Invalid IPv6 packet" cannot fail on 60 bytes read at
  fixed offsets and have no branch here.
- PacketQueues.Packet.AutoPad: length and checksum fields that scapy recomputes when a load grows are part of the
  constant header here.
- The IPv6 branch of the ICMP script, which selects the IPv4 layer, and the IPsec scripts, whose cryptography is foreign.
- LossAccounting.SimpleBurst: does not cover the output after a TRex exception, where values may be left from the
  warm-up.
- AstfSampling.SimpleBurst: leaves out latency and the layer-7 counters, which are copied to the output one by one.
- The ASTF padding helper and frame sizes: it takes the text of a list, so no size is claimed.
- Vxlan.DecodedFields: says nothing about the inner IPv4 checksum, which the profile does not correct.
- RunStats.ForRuns: standard deviations are kept as variances, so their square root is not taken.
- SmallSeries.ThreeAreOptimalIff: the exact condition is for three values; for more of them optimality is bounded, not
  characterised.
- BitCounting.ClassifyNearOptimal: takes the area of the sphere, the last term of a group's bits, as an arbitrary
  function of size and variance; the example uses its values for two values and a lower bound for three.
- MlrStable.StableSearch: the number of turns it asks for is enough, not the least one.
- The soak search (PLRsearch), which integrates numerically, and the remaining traffic profiles, which vary constants
  of those modelled.
