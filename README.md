# INET link-layer and Ethernet-application core, modelled in Dafny

This project models four pieces of the INET simulation framework for OMNeT++ and proves properties of them.

- **BasicRateSelection** (`rate_selection.dfy`, using the mode catalogue in `mode_set.dfy`) picks the IEEE 802.11 transmission mode for each outgoing frame. There are three fixed modes: control, multicast and data. Each comes from its configured bitrate, or from a catalogue default when the setting is `-1`: the slowest mandatory mode for control, the fastest mandatory mode for multicast, the fastest mode for data. A unicast frame uses the rate controller's rate if a controller is attached, and the data mode otherwise. A multicast frame always uses the multicast mode. An ACK or other response frame uses the mode of the frame it answers when that mode is mandatory. Otherwise it drops to the next slower mandatory mode, and to the control mode when no slower mandatory mode exists. This is a simplified form of the control-response rate rule in section 9.7.6.5 of IEEE 802.11-2012.
- **EtherTrafGen** (`ether_traf_gen.dfy`) sends bursts of data packets on a timer. **EtherAppClient** (`ether_app_client.dfy`) sends one numbered request per timer shot. Both check their start and stop times, aim a START shot at max(now, startTime) and later NEXT shots one send interval apart, never arm the timer at or after a non-negative stop time, keep sequence numbers and sent/received counters, and arm or cancel the timer as the node starts, shuts down or crashes. The shared parts (node status, lifecycle operations, the timer and the kernel's rules for it) are in `app_support.dfy`.
- **Ieee80211MgmtAPBase** (`mgmt_ap_base.dfy`) is the access point's frame handling. It relays a station's data frame back into the cell, which clears toDS, sets fromDS and moves address3 to the receiver and the transmitter to address3. It also converts between an 802.11 data frame with a SNAP header and an Ethernet frame, in both directions.

The class invariants are proved to hold across every call:

- in both applications, `seqNum == packetsSent`;
- in both applications, an armed timer is always before a non-negative stop time;
- in BasicRateSelection, every fixed mode is a catalogue mode.

The catalogue (Ieee80211ModeSet) is not part of this model. It is represented by a sequence of entries, each a mode (a name and an integer bitrate in bps) with a mandatory flag. The sequence is sorted by strictly increasing bitrate and contains at least one mandatory mode. `SlowerMandatoryMode` follows the definition by bitrate: the fastest mandatory mode strictly slower than the given one.

Inputs that the source obtains from the environment are method parameters in the model:

- the current simulation time (an integer, since simulation time is fixed-point);
- the volatile parameters `sendInterval` and `numPacketsPerBurst`, which are read again at every use;
- the node's status module and its state;
- the result of destination resolution, which is either a specified or the unspecified address.

`isNodeUp` is `AppSupport.IsNodeUp`: a node with no status module counts as up. The HandleMessage contracts give its effect on each message.

Three rules of the OMNeT++ simulation kernel decide what some of these calls do, so the model includes them:

- `scheduleAt` refuses a time in the past (`ScheduledInPast`);
- `scheduleAt` refuses a message that is already scheduled (`AlreadyScheduled`);
- `cancelEvent` refuses a null message (`NullTimer`).

The third rule separates the two applications. `EtherAppClient::cancelNextPacket` checks `timerMsg` for null first. `EtherTrafGen::cancelNextPacket` does not, and `timerMsg` is null when the module is not a generator. Under the kernel's rule, then, shutting down or crashing a non-generator EtherTrafGen reports the null-cancel error, while EtherAppClient does nothing. The rule belongs to the OMNeT++ kernel, not to the code of these modules. `TrafGen.EtherTrafGen.CancelNextPacket` states the consequence.

The control mode is not a floor for ACKs. The code uses it only as the fallback when no mandatory mode is slow enough. `RateSelection.DsssAckMayBeSlowerThanControlMode` shows it: with a 2 Mbps control mode, an ACK for a 1 Mbps frame goes out at 1 Mbps.

## Model

| member | source | states |
|---|---|---|
| Ieee80211ModeSet.GetMode | src/inet/linklayer/ieee80211/mac/BasicRateSelection.cc:44 | for a bitrate present in the catalogue, returns a catalogue mode with exactly that bitrate |
| Ieee80211ModeSet.SlowestMandatoryMode | src/inet/linklayer/ieee80211/mac/BasicRateSelection.cc:52 | the result is a mandatory catalogue mode and no mandatory mode is slower |
| Ieee80211ModeSet.FastestMandatoryMode | src/inet/linklayer/ieee80211/mac/BasicRateSelection.cc:47 | the result is a mandatory catalogue mode and no mandatory mode is faster |
| Ieee80211ModeSet.FastestMode | src/inet/linklayer/ieee80211/mac/BasicRateSelection.cc:50 | the result is a catalogue mode and no catalogue mode is faster |
| Ieee80211ModeSet.SlowerMandatoryMode | src/inet/linklayer/ieee80211/mac/BasicRateSelection.cc:82 | Some(r) holds the fastest mandatory mode strictly slower than the given mode; None holds exactly when no mandatory mode is slower |
| Ieee80211ModeSet.IsMandatory | src/inet/linklayer/ieee80211/mac/BasicRateSelection.cc:82 | a mandatory mode is a catalogue mode; a mode outside the catalogue is never mandatory |
| Ieee80211ModeSet.MandatoryByBitrate | src/inet/linklayer/ieee80211/mac/BasicRateSelection.cc:94 | for a catalogue mode, the entry at its bitrate is its own, and the mode is mandatory iff that entry's flag is set |
| Ieee80211ModeSet.BitrateIdentifiesEntry | src/inet/linklayer/ieee80211/mac/BasicRateSelection.cc:44 | in a sorted catalogue a bitrate identifies one entry, so lookup by bitrate is unambiguous |
| RateSelection.ResolveBitrate | src/inet/linklayer/ieee80211/mac/BasicRateSelection.cc:43-50 | the sentinel -1 gives the supplied catalogue default; any other bitrate gives the catalogue mode with exactly that bitrate, or UnknownBitrate when the catalogue lacks it; success holds iff the setting is -1 or present |
| RateSelection.ResponseMode | src/inet/linklayer/ieee80211/mac/BasicRateSelection.cc:82-83 | a mandatory frame mode is kept; otherwise the fastest strictly slower mandatory mode is used; with none, the control mode; the result is mandatory or the control mode, is never faster than the frame's mode unless it is the control mode, and is a catalogue mode |
| RateSelection.ResponseModeIsHighestBasicRateNotAbove | src/inet/linklayer/ieee80211/mac/BasicRateSelection.cc:79-86 | for a frame mode from the catalogue, the response mode is the fastest mandatory mode not faster than the frame's mode, and the control mode when every mandatory mode is faster |
| RateSelection.BasicRateSelection.Initialize | src/inet/linklayer/ieee80211/mac/BasicRateSelection.cc:39-53 | control, multicast and data modes are resolved in that order with their defaults (slowest mandatory, fastest mandatory, fastest); setup succeeds iff all three resolve, and otherwise reports the first unresolvable bitrate; on success every fixed mode is a catalogue mode |
| RateSelection.BasicRateSelection.SetRateControl | src/inet/linklayer/ieee80211/mac/BasicRateSelection.cc:55-60 | stores the controller, leaves the fixed modes unchanged, primes a non-null controller with the catalogue and the data mode, so that the unicast mode afterwards is the data mode either way |
| RateSelection.RateControl.Initialize | src/inet/linklayer/ieee80211/mac/BasicRateSelection.cc:59 | priming gives the controller the catalogue and the initial mode as its current rate |
| RateSelection.BasicRateSelection.GetSlowestMandatoryMode | src/inet/linklayer/ieee80211/mac/BasicRateSelection.cc:62-65 | returns a mandatory catalogue mode that no mandatory mode is slower than |
| RateSelection.BasicRateSelection.GetModeForUnicastDataOrMgmtFrame | src/inet/linklayer/ieee80211/mac/BasicRateSelection.cc:67-70 | the controller's current rate when a controller is attached, the data mode otherwise |
| RateSelection.BasicRateSelection.GetModeForMulticastDataOrMgmtFrame | src/inet/linklayer/ieee80211/mac/BasicRateSelection.cc:72-75 | always the multicast mode, a catalogue mode, whatever the frame |
| RateSelection.BasicRateSelection.GetModeForControlFrame | src/inet/linklayer/ieee80211/mac/BasicRateSelection.cc:77-87 | a non-ACK frame or a missing data frame gives the control mode; an ACK for a data frame applies the response rule to its reception mode, and fails iff the data frame has no reception indication; every result is a mandatory catalogue mode or the control mode |
| RateSelection.BasicRateSelection.GetResponseControlFrameMode | src/inet/linklayer/ieee80211/mac/BasicRateSelection.cc:89-99 | no frame gives the control mode; a frame applies the response rule to its transmission-request mode, and fails iff it has no transmission request; every result is a mandatory catalogue mode or the control mode |
| RateSelection.DsssControlModeIsSlowestMandatory | src/inet/linklayer/ieee80211/mac/BasicRateSelection.cc:44 | with the 802.11b catalogue and the control bitrate unset, the control mode is 1 Mbps |
| RateSelection.DsssAckForElevenMbps | src/inet/linklayer/ieee80211/mac/BasicRateSelection.cc:82-83 | an ACK for an 11 Mbps frame goes out at 2 Mbps, the nearest slower mandatory mode, not at the slowest |
| RateSelection.DsssAckForOneMbps | src/inet/linklayer/ieee80211/mac/BasicRateSelection.cc:82-83 | an ACK for a 1 Mbps frame, a mandatory mode, goes out at 1 Mbps |
| RateSelection.DsssAckMayBeSlowerThanControlMode | src/inet/linklayer/ieee80211/mac/BasicRateSelection.cc:82-83 | the control mode is no floor: with a 2 Mbps control mode an ACK can go out at 1 Mbps |
| RateSelection.DsssMissingBitrateFails | src/inet/linklayer/ieee80211/mac/BasicRateSelection.cc:49-50 | a 5.5 Mbps data bitrate against a catalogue without 5.5 Mbps is a setup error |
| AppSupport.ValidStartStop | src/inet/applications/ethernet/EtherTrafGen.cc:70-73 | the times are accepted iff the stop time is negative or not before the start time |
| AppSupport.IsNodeUp | src/inet/applications/ethernet/EtherTrafGen.cc:123-126 | a node without a status module is up; a node with one is up iff its state is UP (the same rule as EtherAppClient.cc:119-122) |
| AppSupport.BeforeStop | src/inet/applications/ethernet/EtherTrafGen.cc:144 | a negative stop time never stops; otherwise a shot is allowed iff it is strictly before the stop time (the same guard as EtherAppClient.cc:141) |
| AppSupport.FirstShot | src/inet/applications/ethernet/EtherTrafGen.cc:137 | the first shot is the later of now and the start time |
| AppSupport.Arm | src/inet/applications/ethernet/EtherTrafGen.cc:138-145 | the timer takes the new kind; it is armed at the new time only when that time is before a non-negative stop time (or the stop time is negative), subject to the kernel refusing a past time or an armed timer; an armed result is before the stop time unless it is the previously armed time |
| TrafGen.Burst | src/inet/applications/ethernet/EtherTrafGen.cc:176-198 | a burst of n holds max(n, 0) packets, every one addressed to the burst's destination |
| TrafGen.BurstIsConsecutive | src/inet/applications/ethernet/EtherTrafGen.cc:176-181 | the k-th packet of a burst after sequence number last carries number last + k + 1 |
| TrafGen.EtherTrafGen.InitializeLocal | src/inet/applications/ethernet/EtherTrafGen.cc:55-74 | counters reset to zero; fails with InvalidStartStopTimes iff stopTime >= 0 and stopTime < startTime |
| TrafGen.EtherTrafGen.InitializeApplicationLayer | src/inet/applications/ethernet/EtherTrafGen.cc:75-82 | a generator gets its timer; the START shot is armed at the first shot time iff the node is up, it is a generator and the shot is before the stop time |
| TrafGen.EtherTrafGen.ScheduleNextPacket | src/inet/applications/ethernet/EtherTrafGen.cc:133-146 | previous == -1 aims a START shot at max(now, startTime), any other value a NEXT shot at previous + interval; the timer becomes what Arm gives, and stays before the stop time |
| TrafGen.EtherTrafGen.CancelNextPacket | src/inet/applications/ethernet/EtherTrafGen.cc:148-151 | the timer is disarmed; with no timer message the kernel's null-cancel error is reported |
| TrafGen.EtherTrafGen.SendBurstPackets | src/inet/applications/ethernet/EtherTrafGen.cc:174-199 | sends exactly Burst(seqNum, n, dest) and raises seqNum and packetsSent by its length, keeping seqNum == packetsSent |
| TrafGen.EtherTrafGen.ReceivePacket | src/inet/applications/ethernet/EtherTrafGen.cc:201-208 | packetsReceived rises by one |
| TrafGen.EtherTrafGen.HandleMessage | src/inet/applications/ethernet/EtherTrafGen.cc:85-101 | not up: NotRunning and nothing counted; a packet: packetsReceived + 1; a START shot with no destination: nothing sent, timer left unarmed; otherwise one burst to the (re)resolved destination and a NEXT shot at now + interval |
| TrafGen.EtherTrafGen.HandleOperationStage | src/inet/applications/ethernet/EtherTrafGen.cc:103-121 | start at the application-layer stage arms a START shot for generators; shutdown at the application-layer stage and crash at the crash stage cancel the timer; other stages change nothing; other operations fail |
| AppClient.NextShot | src/inet/applications/ethernet/EtherAppClient.cc:129-140 | start gives kind START at max(now, startTime); otherwise kind NEXT one interval after now |
| AppClient.EtherAppClient.InitializeLocal | src/inet/applications/ethernet/EtherAppClient.cc:45-65 | counters reset to zero; fails with InvalidStartStopTimes iff stopTime >= 0 and stopTime < startTime |
| AppClient.EtherAppClient.InitializeApplicationLayer | src/inet/applications/ethernet/EtherAppClient.cc:66-74 | a generator gets its timer; the START shot is armed at the first shot time iff the node is up, it is a generator and the shot is before the stop time |
| AppClient.EtherAppClient.ScheduleNextPacket | src/inet/applications/ethernet/EtherAppClient.cc:129-143 | the timer becomes what Arm gives for the NextShot aim, and stays before the stop time |
| AppClient.EtherAppClient.CancelNextPacket | src/inet/applications/ethernet/EtherAppClient.cc:145-149 | disarms the timer when it exists, and is a no-op otherwise |
| AppClient.EtherAppClient.SendPacket | src/inet/applications/ethernet/EtherAppClient.cc:184-212 | seqNum and packetsSent rise by one and the request id is the new seqNum |
| AppClient.EtherAppClient.ReceivePacket | src/inet/applications/ethernet/EtherAppClient.cc:214-221 | packetsReceived rises by one |
| AppClient.EtherAppClient.HandleMessage | src/inet/applications/ethernet/EtherAppClient.cc:77-97 | not up: NotRunning and nothing counted; a packet: packetsReceived + 1; a START shot with no destination: nothing sent, no re-arm; otherwise one request and a NEXT shot at now + interval |
| AppClient.EtherAppClient.HandleOperationStage | src/inet/applications/ethernet/EtherAppClient.cc:99-117 | start at the application-layer stage arms a START shot for generators; shutdown at the application-layer stage and crash at the crash stage cancel the timer if there is one; other stages change nothing; other operations fail |
| MgmtAPBase.Relayed | src/linklayer/ieee80211/mgmt/Ieee80211MgmtAPBase.cc:39-48 | toDS cleared, fromDS set, receiver := old address3, address3 := old transmitter, every other field unchanged |
| MgmtAPBase.RelayKeepsEndpoints | src/linklayer/ieee80211/mgmt/Ieee80211MgmtAPBase.cc:43-48 | by the 802.11 address-field table, relaying a station's frame keeps its final destination and original source |
| MgmtAPBase.DistributeReceivedDataFrame | src/linklayer/ieee80211/mgmt/Ieee80211MgmtAPBase.cc:37-51 | updates the frame in place to Relayed of the old frame; an unspecified address3 is an error after the DS bits are set |
| MgmtAPBase.ConvertToEtherFrame | src/linklayer/ieee80211/mgmt/Ieee80211MgmtAPBase.cc:53-70 | a SNAP frame with payload becomes Ethernet II with dest = address3, src = transmitter, the same EtherType and payload (for a station's frame, its destination and source); a non-SNAP frame or a missing payload is an error |
| MgmtAPBase.EtherTypeOf | src/linklayer/ieee80211/mgmt/Ieee80211MgmtAPBase.cc:88-91 | an Ethernet II frame gives its etherType, an 802.3 frame with SNAP its localcode |
| MgmtAPBase.ConvertFromEtherFrame | src/linklayer/ieee80211/mgmt/Ieee80211MgmtAPBase.cc:76-103 | fromDS set, receiver = dest, address3 = src, transmitter left unspecified, payload moved; the EtherType comes from the Ethernet II etherType or the SNAP localcode; another frame kind or an empty frame is an error; the frame's destination and source are the Ethernet ones |
| MgmtAPBase.WirelessEthernetRoundTrip | src/linklayer/ieee80211/mgmt/Ieee80211MgmtAPBase.cc:56-99 | converting to Ethernet and back gives receiver = old address3, address3 = old transmitter, same EtherType and payload: the relayed frame with the transmitter left for the MAC |

## Left out

- Ieee802154MacBase and Ieee802154MacStd2006: these are stubs. Their handlers only log or assert, and their lifecycle handlers delegate to a base class that is not shown. So the interface lifecycle and radio-event bridging described for them are not modelled.
- The construction of a mode catalogue from its profile name (`Ieee80211ModeSet::getModeSet`) and the modulation details of a mode are not modelled. The catalogue is an input, required to be sorted and to have a mandatory mode.
- The catalogue's own answer for a mode that is not in it is not modelled. For such a mode, `SlowerMandatoryMode` still gives the next slower mandatory mode by bitrate.
- The adaptive algorithms behind IRateControl are not modelled. A controller is a current rate that priming sets. How feedback later moves that rate is not part of this model.
- The controller stored by `SetRateControl` may be any object. Which other parts of the simulation also hold it is not modelled.
- Bitrates are doubles in the source and integer bits per second here. The sentinel -1 is compared as an integer.
- I/O and kernel plumbing are not modelled: `send` (a sent packet or request is returned instead), `emit`, logging, `WATCH` and `par()` reads. The same goes for packet and chunk construction (lengths, SAPs, packet names), `registerDSAP` with its `registerSAP` parameter, and `sendOrEnqueue`.
- Destination resolution (`resolveDestMACAddress`) and its errors are not modelled. Its result is an input of HandleMessage.
- `finish()` and the destructors are not modelled. They delete the timer at the end of the simulation.
- A non-packet message reaching `check_and_cast<Packet *>` is not modelled. Every message from outside is a packet.
- The kernel delivers a timer message only at its scheduled time. That is a precondition of HandleMessage.
- Counters are unbounded integers. The 64-bit `long` counters and simulation time never wrap in the model.
- The `initialize` of Ieee80211MgmtAPBase (the gate-connectivity flag `hasRelayUnit`) is not modelled. Nor are the `#ifndef WITH_ETHERNET` build branches and the copying of frame names.
