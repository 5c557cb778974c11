# terway-qos: verified model

terway-qos shares a node's bandwidth between three classes of traffic (L0 online, L1 and L2 offline) and limits
single pods. A BPF program handles every packet: it counts it, finds the pod, applies the pod's own limit, applies
the limit of its class, and at most once a second lets a controller move the three class limits according to the
measured bandwidth. A Go agent fills the tables the program reads. This project models both halves in Dafny 4.11 and
proves what they guarantee over whole packet traces and over every sequence of control operations.

Code that changes state in place is a class (`GlobalRateInfo`, `NetStatMap`, `RateInfo`, `Qos`, `GlobalConfig`,
`Writer`, `PodConfig`, `PodCache`, `Syncer`) whose methods follow the original's branches; each method is proved equal
to one step of a function on values, and the theorems are about runs of those steps. 64-bit arithmetic wraps where the
original's does, and a BPF division by zero yields 0.

| file | what it holds |
|---|---|
| Words.dfy, Options.dfy | wrapping 64-bit arithmetic; a value that may be missing |
| TokenBucket.dfy, Pacer.dfy | the two limiters, and their runs |
| Greedy.dfy, Controller.dfy | the feedback controller as a greedy walk over a priority list; bounds and convergence |
| Meter.dfy | the bandwidth meter: one array of 20 samples shared by two directions |
| GlobalRate.dfy | the per-direction rate state and the code that updates it |
| Filling.dfy | the limits after any adjustments from the zeroed map |
| Traces.dfy, Ceiling.dfy | packet traces of one direction; the upper limits of classes under control |
| UpperLimit.dfy, LowerLimit.dfy | exactly when the upper limits hold, and what the lower limits guarantee, from the zeroed map |
| AddressKeys.dfy | keys of pod_map on both sides |
| QosProgram.dfy, EndToEnd.dfy | the whole packet path, and its runs |
| NodeMeter.dfy | what a packet does besides: it is counted once, and how it reaches the host limiter and leaves |
| Reconfig.dfy | the upper limits after a change of configuration |
| NodeLimits.dfy | the limits for the whole program from its freshly loaded maps, and packets that break the upper one |
| GlobalConfig.dfy, ConfigText.dfy | configuration: text, defaults, validation, what is written |
| BpfMaps.dfy, Claims.dfy, Plane.dfy, Syncer.dfy | the agent: tables, agreement, operations, the code with its pointers |
| Classification.dfy, SharedTables.dfy | from the agent's pod cache to the class and limit a packet meets; agent and packets interleaved over shared tables |

## What the code does not do

Nine promises or evident intentions fail in the code as written. The model keeps the code as it is, and each has a
theorem that says exactly when the intention is met:

- README.md:33 (the upper limits of L1 and L2 hold under any circumstances). In either build, from the zeroed map, a
  class's upper limit holds from some moment on exactly when its configured minimum is at least 1 MB and its turn has
  come by then: an adjustment has seen contention, or the room measured by all adjustments together exceeds what is
  filled first, the hardware limit for L1, and L1's maximum besides for L2 (`UpperLimit.RespectedExactly` for token
  buckets, `UpperLimit.PacedRespectedExactly` for pacers). Until then its limit is zero, which a bucket takes for none
  and a pacer divides by: right after loading any number of packets of L1 or L2 passes at one instant, whatever the
  configuration (`NodeLimits.FreshStartUnlimited`). With a smaller minimum a class that was held to its limit can be
  suppressed to zero at any time (`NodeLimits.SuppressedToNone`). After a change of configuration a class may stand
  above its new upper limit; `Reconfig.UnderExactly`, `Reconfig.RoomBringsUnder` and `Reconfig.OverflowBringsUnder` say
  exactly how long.
- The token bucket's refill is the bytes earned, up to a full bucket, exactly when the product of limit and
  microseconds, and the sum with the stored tokens, fit 64 bits or fill the bucket anyway
  (`TokenBucket.RefillExactly`). At 100 Gbit/s 24.6 minutes of silence leave 1290 bytes where a full bucket is due, and
  the next full-sized packet is dropped (`TokenBucket.SilenceStarves`).
- The pacer's 2 s horizon is meant to keep a flow from waiting longer. After any run a flow recovers within 2 s of its
  last accepted packet exactly when that packet was stamped at most 2 s ahead, or the clock is in its last 4 s
  (`Pacer.RecoversExactly`); stamped an hour ahead, it keeps the flow's other packets out for an hour
  (`Pacer.FarStampStarves`).
- Validation keeps the floors within the hardware limit exactly for hardware limits below 2^63; above, the sum of two
  maxima wraps (`GlobalConfigs.SoundExactly`).
- A changed egress limit is ignored when it comes with an unchanged nonzero ingress limit
  (`BpfMaps.RateWriteOutcome`, `BpfMaps.EgressChangeIgnored`).
- README.md:37 promises hot update of a pod's annotations; a limit of a cached pod follows its annotation exactly when
  the annotation is absent or equals the limit cached before, and egress not even then when the ingress limit to be
  written stands in the table already (`ControlPlane.HotUpdateExactly`).
- After a pass over a pod list all processed pods are cached with the limits of the last listed entry, because their
  pointers aim at the loop variable (go.mod asks for Go 1.21, where a loop has one variable); each pass also deletes
  the limits of every pod it does not list (`ControlPlane.PassSharesLastRates`, `ControlPlane.ForeignRates`,
  `ControlPlane.PassLeavesProcessedOnly`).
- A pass over a pod list ends in a nil dereference exactly when the first thing to stop it is a pod that had no class
  before and has been given none; the per-cgroup list never gives one (`ControlPlane.PanicsExactly`,
  `ControlPlane.PerCgroupListPanicsExactly`).
- The meter's two directions share one array. Egress keeps out of the ingress half, whatever comes, exactly when its
  index has reached 10, which from the all-zero start it has not (`Meter.CrossesExactly`, `Meter.ZeroStartCrosses`); a
  direction out of its range comes into it exactly at the wraps `Meter.SettlesExactly` names, and ingress leaves its
  range exactly when a wrap comes 100 ms or more after the previous sample (`Meter.LeavesRangeExactly`).

## Model

| member | source | states |
|---|---|---|
| TokenBucket.Accept | bpf/qos_tc.c:120-147 | `accept` on its in-out tokens and time: verdict, tokens and time are those of one bucket step, wrap included |
| TokenBucket.WindowCeiling | bpf/qos_tc.c:120-147 | in any window of calls, with the limit moving anywhere between 1 MB and a top, accepted bytes are at most one full bucket plus top times the time; tokens stay under the top |
| TokenBucket.Accounting | bpf/qos_tc.c:128-146 | over any run at a fixed limit accepted bytes plus stored tokens never exceed the tokens at the start plus the exact credit, wrapping or not; with no wrap and no cap fewer than bps/10^6 + 1 bytes a call are lost |
| TokenBucket.RefillExactly | bpf/qos_tc.c:128-134 | the refill is min(tokens + limit*us/10^6, limit), with the true product, exactly when product and sum fit 64 bits or leave a full bucket all the same |
| TokenBucket.SilenceStarves | bpf/qos_tc.c:128-134 | a concrete limit, silence and packet: the bucket should be full, holds 1290 bytes, and the packet is dropped |
| TokenBucket.TokensAreLeaky | bpf/qos_tc.c:120-147 | on every run whose refills are the true ones the verdicts are those of a leaky bucket drained by the unwrapped rate; its backlog and the stored tokens add up to one second's worth |
| TokenBucket.ShortGapsRefill | bpf/qos_tc.c:128-134 | gaps whose product with the highest limit stays below 2^64 make every refill of a run true |
| TokenBucket.ConformingNeverDropped | bpf/qos_tc.c:138-146 | while the limit moves anywhere at or above a rate of 1 MB or more, a sender whose backlog at that rate, truncation losses charged, never passes one second's worth loses no packet |
| TokenBucket.BelowOneMegabyteIsUnlimited | bpf/qos_tc.c:124-126 | under a limit below 1 MB every packet of every run passes and the bucket is untouched |
| Pacer.PaceOne | bpf/qos_tc.c:246-265 | the pacing both `edt` and each class of `global_edt` apply: new virtual clock, stamp and verdict |
| Pacer.DelayFacts | bpf/qos_tc.c:227-227 | length times 10^9 never wraps, so the delay is the true one rounded down |
| Pacer.PaceShape | bpf/qos_tc.c:223-239 | the subtraction from the clock never wraps where it is evaluated; drops change nothing and happen exactly 2 s or more ahead; an accepted packet leaves when the virtual clock says, never before now |
| Pacer.SpacedExactlyWhenNoWrap | bpf/qos_tc.c:228-233 | an accepted packet is held for its own delay after the one before exactly when clock plus delay stays below 2^64 |
| Pacer.WrapBreaksSpacing | bpf/qos_tc.c:228-233 | a concrete virtual clock at the end of its range after which a packet leaves before its predecessor |
| Pacer.PassesExactly | bpf/qos_tc.c:223-239 | a packet passes exactly when it is ready no earlier than clock plus own delay, or that sum lies less than 2 s ahead; the clock then stands at the later of the two, and the stamp is that sum if it had to wait and its own otherwise |
| Pacer.FarStampStarves | bpf/qos_tc.c:229-235 | an accepted packet stamped an hour ahead makes every later unstamped packet a drop until 2 s before that hour |
| Pacer.RunSpacing | bpf/qos_tc.c:217-240 | in every run without a wrap the virtual clock advances by at least the accepted packets' own delays, however they are stamped |
| Pacer.EarlyMeansNoWrap | bpf/qos_tc.c:228-228 | clocks and stamps in their first 292 years never make a sum wrap |
| Pacer.ClockStaysNear | bpf/qos_tc.c:234-235 | with stamps less than 2 s ahead the virtual clock stays less than 2 s ahead of the real one |
| Pacer.Envelope | bpf/qos_tc.c:217-240 | after an accepted packet, departures up to any later one are at least the own delays apart, and the bytes sent fit in top per second of departure time with one truncation a packet |
| Pacer.EnvelopeByClock | bpf/qos_tc.c:217-240 | with stamps less than 2 s ahead the bytes fit in top per second of clock time plus 2 s |
| Pacer.DeparturesAreEarliest | bpf/qos_tc.c:223-239 | without drops the last departure is the largest of all readiness times plus later delays, and is attained: no packet is held longer than needed |
| Pacer.ClockNearLatestReady | bpf/qos_tc.c:229-239 | in every run, wraps and far stamps included, the virtual clock is less than 2 s past the latest readiness of an accepted packet |
| Pacer.RecoveryAfterReady | bpf/qos_tc.c:234-235 | 2 s after that readiness every packet whose own delay is under 2 s passes |
| Pacer.RecoversExactly | bpf/qos_tc.c:217-240 | after any run, from 2 s after the last accepted packet on every packet whose own delay is under 2 s passes, exactly when that packet was stamped at most 2 s ahead or the clock is in its last 4 s |
| Pacer.ClockNearLastAcceptance | bpf/qos_tc.c:229-239 | after any run the virtual clock is less than 2 s past the last accepted packet's clock exactly when that packet's stamp was |
| Pacer.Recovery | bpf/qos_tc.c:234-235 | so after a last accepted packet stamped at most 2 s ahead, or with none accepted, no packet of short delay is dropped from 2 s on |
| Pacer.ConformingNeverDropped | bpf/qos_tc.c:217-240 | while the limit moves anywhere at or above a rate, a sender whose own clock at that rate stays less than 2 s ahead loses no packet, wraps and stamps of any kind included |
| Greedy.SuppressionIsDrain | bpf/qos_tc.c:326-366 | for a list of any length: the greedy result is the only one that lowers by exactly min(amount, total above the floors) and lowers a level only when all before it are on their floors |
| Greedy.RecoveryIsFill | bpf/qos_tc.c:370-411 | the same for raising to ceilings, by mirror image |
| Controller.RebalanceIsTheStrictOne | README.md:35-35 | inside the bounds an adjustment is the one and only outcome that moves exactly min(overflow, excess) in the order L2, L1, L0, or min(room, shortfall) in the order L0, L1, L2 |
| Controller.BoxKept | bpf/qos_tc.c:296-413 | whatever average is measured, an adjustment keeps every limit a whole number of MB between floor and ceiling |
| Controller.BoxKeptForever | bpf/qos_tc.c:296-413 | the same over any sequence of adjustments |
| Controller.UnderCeilingsFromZero | bpf/qos_tc.h:131-137 | from the zeroed map every limit ever reached is a whole number of MB under its ceiling |
| Controller.RealLimitsKept | bpf/qos_tc.c:326-365 | a class with a floor of 1 MB or more keeps a limit between 1 MB and its ceiling, also from limits off the MB grid |
| Controller.SuppressionProgress | bpf/qos_tc.c:323-366 | from any state one adjustment works off exactly the overflow; when less is left the limits are the floors to the byte |
| Controller.RecoveryProgress | bpf/qos_tc.c:367-411 | the mirror image towards the ceilings |
| Controller.ContentionConverges | bpf/qos_tc.c:323-366 | sustained contention of d MB/s or more: with P MB above the floors, floor(P/d)+1 adjustments reach exactly the floors, from any state |
| Controller.SlackConverges | bpf/qos_tc.c:367-411 | sustained slack reaches exactly the ceilings in floor(Q/d)+1 adjustments, from any state, zero included |
| Controller.ContentionPace | bpf/qos_tc.c:323-366 | when every overflow is d, the excess after n adjustments is max(0, P - n*d): the bound is met, not beaten |
| Filling.FromZero | bpf/qos_tc.h:131-137 | from the zeroed map, any adjustments: without contention the limits are the room measured so far poured into L0, then L1, then L2; from the first contention on they lie between floors and ceilings |
| Filling.RealFromZeroExactly | bpf/qos_tc.c:296-413 | a class with a floor of 1 MB or more has a real limit exactly once its turn has come, and the limit zero before |
| GlobalRate.GlobalRateInfo.constructor | bpf/qos_tc.h:131-137 | entries of the array map start as zeroes |
| GlobalRate.GlobalRateInfo.GlobalTbRateLimit | bpf/qos_tc.c:165-214 | the three-way switch: only the class of the packet is touched, by one bucket step; other priorities pass |
| GlobalRate.GlobalRateInfo.GlobalEdt | bpf/qos_tc.c:242-293 | the same with pacers, stamp included |
| GlobalRate.GlobalRateInfo.AdjustRate | bpf/qos_tc.c:296-413 | nothing within a second of the last adjustment; otherwise the greedy rebalancing by the meter's average |
| GlobalRate.GlobalRateInfo.Suppress | bpf/qos_tc.c:323-366 | the branching suppression equals the greedy walk from any state |
| GlobalRate.GlobalRateInfo.Recover | bpf/qos_tc.c:367-412 | the branching recovery equals the greedy walk from any state |
| Meter.NetStatMap.CalRate | bpf/qos_tc.c:37-98 | the in-place update of the 20 samples by one packet, wraps and lost samples included |
| Meter.NetStatMap.GetAverageRate | bpf/qos_tc.c:100-118 | a ninth of the wrapping sum of the recent values among slots base+0 to base+8 |
| Meter.SecondTestIsDead | bpf/qos_tc.c:63-65 | the second index test can never hold |
| Meter.TickFootprint | bpf/qos_tc.c:47-97 | a packet keeps both indices in 0..20, leaves the other bookkeeping slot alone and writes at most one sample slot, never a bookkeeping slot |
| Meter.Bookkeeping | bpf/qos_tc.c:52-97 | the bookkeeping slot after a packet: an open window keeps its start but at a wrap, a window closes into the slot the index names or the one past a wrap, and the index moves on behind it |
| Meter.LeavesRangeExactly | bpf/qos_tc.c:57-65 | a direction in its own range leaves it exactly when it is ingress at a wrap 100 ms or more after the previous sample |
| Meter.RingInvariant | bpf/qos_tc.c:37-98 | over any interleaving and timing: indices in 0..20, egress stays in 11..20, ingress in 1..10 while its wraps are prompt |
| Meter.SettlesExactly | bpf/qos_tc.c:57-97 | a direction out of its range comes into it exactly at a wrap, for egress only at its own or with the window still open |
| Meter.CrossesExactly | bpf/qos_tc.c:57-97 | no continuation makes egress publish into an ingress slot exactly when its index has reached 10 |
| Meter.ZeroStartCrosses | bpf/qos_tc.c:57-65 | from zeroes the first egress packet publishes into an ingress slot |
| Meter.BlockProjection | bpf/qos_tc.c:37-98 | however the directions interleave, a direction's ten slots go through what its own packets alone make of them, while the other direction stays in its range |
| Meter.AveragesIsolated | bpf/qos_tc.c:100-118 | so a direction's average is, at any time, the one its own packets alone would have given |
| Meter.AverageOfNine | bpf/qos_tc.c:106-117 | without a wrap nine times the average is the plain sum, up to the division, of the nine slots written less than a second ago, the open window's bytes among them |
| Meter.BytesConserved | bpf/qos_tc.c:67-78 | over any interleaved run every byte of a direction is in exactly one closed window or still pending |
| Meter.TimeConserved | bpf/qos_tc.c:52-85 | over any interleaved run every nanosecond is in exactly one closed window of a direction, passed over at a wrap, or since the start of the open window |
| Meter.SlotsInTurn | bpf/qos_tc.c:57-97 | a settled direction without late wraps closes its windows into its nine sample slots in turn |
| Meter.WindowsDisjoint | bpf/qos_tc.c:76-85 | the lengths of the closed windows add up to no more than the time gone by |
| Meter.RateIsTrue | bpf/qos_tc.c:71-85 | a window closes exactly at 100 ms; up to 300 ms its rate is the true byte rate rounded down, later zero |
| Traces.BucketProjection | bpf/qos_tc.c:165-214 | whatever the other classes and the controller do, a class's verdicts, bytes and final bucket are those of a lone bucket fed its own packets |
| Traces.PacerProjection | bpf/qos_tc.c:242-293 | the same for pacers, stamps included |
| Traces.HeldProjection | bpf/qos_tc.c:165-214 | with limits held the lone bucket's input is the trace filtered to the class, nothing else |
| Traces.NoClassUnlimited | bpf/qos_tc.c:165-214 | packets of no class all pass with their stamps, whatever the limits, and move no class's limiter |
| Traces.LimitsFollowAdjustments | bpf/qos_tc.c:559-562 | over a trace the limits move as the adjustments that happen do, and in no other way |
| Traces.TraceKeepsBox | bpf/qos_tc.c:519-565 | the bounds are an invariant of every trace; from zero, limits stay whole and under their ceilings |
| Traces.AdjustmentsSpaced | bpf/qos_tc.c:316-319 | adjustments are a second apart: a window of T seconds holds at most T+1, from any state |
| Traces.TraceContentionConverges | bpf/qos_tc.c:323-366 | a trace with enough contended adjustments ends exactly on the floors |
| Traces.TraceSlackConverges | bpf/qos_tc.c:367-411 | a trace with enough slack adjustments ends exactly on the ceilings |
| Ceiling.CeilingFromHere | README.md:33-33 | from a controlled state any trace passes at most one full bucket plus the upper limit times the time, and ends controlled |
| Ceiling.WindowCeilingOfTrace | README.md:33-33 | the upper limit over every window of every trace while the controller moves the limit |
| UpperLimit.RespectedExactly | README.md:33-33 | token buckets, from the zeroed map, after any history: the upper limit holds in every window of every continuation exactly when the floor is at least 1 MB and the class's turn has come |
| UpperLimit.PacedRespectedExactly | README.md:33-33 | pacers: after every accepted packet of every continuation the limit times the clock distance plus 2 s, one truncation a packet, holds under exactly the same condition, or for limits so high that one truncation outweighs a packet |
| UpperLimit.RealAfterExactly | bpf/qos_tc.h:131-137 | in either build, after any trace from the zeroed map a class with such a floor has a real limit exactly once its turn has come |
| LowerLimit.ShortGapsFit | bpf/qos_tc.c:128-134 | a class never silent so long that its upper limit times the microseconds wraps gets every refill it is due |
| LowerLimit.FloorServed | README.md:34-34 | inside the bounds, a class whose own packets keep to its lower limit, and whose refills are the true ones, loses none, wherever the controller moves the limits and whatever the other classes send |
| LowerLimit.FloorServedOnceContended | README.md:34-34 | the same from the zeroed map, after any history with a contended adjustment |
| LowerLimit.PacedFloorServed | README.md:34-34 | the same where the class is paced, however its packets are stamped |
| LowerLimit.PacedFloorServedOnceContended | README.md:34-34 | the same from the zeroed map, after any history with a contended adjustment |
| Reconfig.UnderExactly | pkg/bpf/maps.go:109-159 | from any limits, under any later averages: a class is under its upper limit exactly when it was before or some adjustment has brought it there, and then it stays |
| Reconfig.RoomBringsUnder | bpf/qos_tc.c:367-411 | without contention that is exactly when the room measured since the change exceeds what the classes before it lack |
| Reconfig.OverflowBringsUnder | bpf/qos_tc.c:323-366 | under contention exactly when the overflow since, less what stands above the floors of the classes suppressed first, makes up the difference |
| Reconfig.UnderAfterChange | pkg/bpf/maps.go:109-159 | the same after any trace under the new configuration, from any state the old one left, in either build |
| Reconfig.CeilingAfterChange | README.md:33-33 | from then on the new upper limit times the time and one bucket, as full as the old configuration left it |
| Ceiling.PacedCeiling | bpf/qos_tc.c:242-293 | the upper limit in the pacer build: after an accepted packet, at most the limit times clock distance plus 2 s, one truncation a packet |
| AddressKeys.ReverseIsLoad | pkg/byteorder/byteorder_littleendian.go:16-18 | reversing a big-endian word is the little-endian load of the same bytes |
| AddressKeys.AddressRoundTrip | pkg/bpf/maps.go:349-367 | reading back a written key gives the 16-byte form of the address |
| AddressKeys.KeysInjective | pkg/bpf/maps.go:349-357 | two addresses share a key exactly when their 16-byte forms agree |
| AddressKeys.SameFamilyKeysInjective | pkg/bpf/maps.go:349-357 | within one address family keys are unique |
| AddressKeys.PlanesAgreeOnKeys | bpf/qos_tc.c:432-473 | the key built from a packet header is the key written for the pod's address, both families and directions |
| QosProgram.RateInfo.TbRateLimit | bpf/qos_tc.c:149-163 | a pod's bucket step in place |
| QosProgram.RateInfo.Edt | bpf/qos_tc.c:217-240 | a pod's pacer step in place; a zero limit passes untouched |
| QosProgram.Qos.Classify | bpf/qos_tc.c:478-512 | count, look the pod up, set the priority, apply the pod's limit: the whole state afterwards |
| QosProgram.Qos.QosCgroup | bpf/qos_tc.c:415-516 | one packet from header to verdict: the whole node state afterwards |
| QosProgram.Qos.QosGlobal | bpf/qos_tc.c:518-565 | limit by class, then on acceptance consider an adjustment; only the packet's direction changes |
| EndToEnd.StepShape | bpf/qos_tc.c:508-513 | a packet stopped by its pod's limit, or of no IP family, spends nothing of the host's and triggers no adjustment |
| NodeMeter.MeterProjection | bpf/qos_tc.c:474-478 | over any run the meter goes through exactly the IP packets, pods' and host's, passed or dropped |
| NodeMeter.NodeBytesConserved | bpf/qos_tc.c:478-478 | every byte of every IP packet is in exactly one closed window of its direction or still pending |
| NodeMeter.NodeAveragesIsolated | bpf/qos_tc.c:544-562 | what a direction's controller sees depends on that direction's packets alone |
| NodeMeter.EnteringExactly | bpf/qos_tc.c:478-513 | what reaches the host limiter and when: class given, length, the stamp the pod's limit left, and the average of a meter that has counted the packet |
| NodeMeter.AverageDecidedOn | bpf/qos_tc.c:559-562 | in any run a packet's adjustment sees the average of all IP packets up to and including it |
| NodeMeter.VerdictExactly | bpf/qos_tc.c:415-565 | verdict and stamp of every packet from its pod's entry and its class's state; one of no IP family passes and changes nothing |
| NodeMeter.AdjustmentExactly | bpf/qos_tc.c:296-322 | a direction's limits move by its own configuration and average when its packet passes a second or more after the last adjustment, and otherwise not |
| EndToEnd.GlobalProjection | bpf/qos_tc.c:415-565 | each direction's host limiter goes through exactly the global trace of the packets that reach it, bytes included |
| EndToEnd.NodeCeiling | README.md:33-33 | the upper limit of a class for the whole program, both directions and all pods interleaved |
| EndToEnd.NodePacedCeiling | bpf/qos_tc.c:242-293 | the same where the direction is paced: limit times clock distance plus 2 s, one truncation a packet |
| EndToEnd.PodStep | bpf/qos_tc.c:489-511 | only a pod's own packets touch its entry, by one step of the limiter the build gives it, and what passes the program has passed it |
| EndToEnd.PodProjection | bpf/qos_tc.c:489-511 | a pod's bucket, and the bytes it admits, are those of a lone bucket given the pod's own packets |
| EndToEnd.PodPacerProjection | bpf/qos_tc.c:217-240 | the same for a paced pod |
| EndToEnd.PodCeiling | bpf/qos_tc.c:489-511 | a pod limited to 1 MB or more gets at most one full bucket plus its limit times the time |
| EndToEnd.PodCeilingExactly | bpf/qos_tc.c:120-163 | a pod some packet belongs to is held to its limit in every run exactly when the limit is at least 1 MB |
| EndToEnd.PodPacedCeiling | bpf/qos_tc.c:217-240 | a paced pod under any nonzero limit gets at most its limit times the clock distance plus 2 s, one truncation a packet |
| EndToEnd.PodPacedCeilingAfter | bpf/qos_tc.c:217-240 | the same from an admitted packet of the pod on, whatever its clock was before |
| NodeLimits.NodeCeilingOnceReached | README.md:33-33 | the upper limit for the whole program from its freshly loaded maps, once the class's turn has come by the averages the meter itself reported |
| NodeLimits.NodePacedCeilingOnceReached | README.md:33-33 | the same where the direction is paced, from the first packet of the class that passes |
| NodeLimits.NodeFloorOnceContended | README.md:34-34 | the lower limit for the whole program, in either build: after contention a class that keeps to its floor gets every byte through the host limiter |
| NodeLimits.FreshStartUnlimited | bpf/qos_tc.h:131-137 | concrete packets after loading, in either build: any number of any length of L1 or L2 passes at one instant, under every configuration |
| NodeLimits.SuppressedToNone | bpf/qos_tc.c:323-366 | concrete packets from the freshly loaded maps, in either build: a class with a floor below 1 MB is first held to its upper limit, then suppressed to zero by what the meter reports, then gets any number of packets through at one instant |
| GlobalConfigs.GlobalConfig.Default | pkg/types/config.go:72-82 | the receiver's fields after defaulting, wrap included |
| GlobalConfigs.GlobalConfig.Validate | pkg/types/config.go:84-99 | true exactly for the accepted configurations |
| GlobalConfigs.DefaultTwice | pkg/types/config.go:72-82 | defaulting is idempotent |
| GlobalConfigs.DefaultFillsIn | pkg/types/config.go:72-82 | what is set is kept; the burst limit and L0's maximum default to the hardware limit, L0's minimum to what the other minima leave |
| GlobalConfigs.WrittenKeepsClasses | pkg/bpf/maps.go:119-138 | the map gets the hardware limit and each class its own configured limits |
| GlobalConfigs.AcceptedExactly | pkg/types/config.go:84-99 | a configuration without a burst limit is accepted exactly when minima are at most maxima and the maxima fit the hardware limit together, or add up past 2^64 |
| GlobalConfigs.AcceptedWithoutHardware | pkg/types/config.go:84-99 | without a hardware limit exactly when L1's and L2's limits are all zero |
| GlobalConfigs.GlobalCfgMap.WriteGlobalConfig | pkg/bpf/maps.go:109-159 | both directions are written or neither, arguments defaulted in place |
| GlobalConfigs.SoundBelow63Bits | pkg/bpf/maps.go:119-138 | below 2^63 an accepted configuration yields floors that share out the hardware limit exactly, without a wrap, each under its ceiling and together under the limit in whole MB |
| GlobalConfigs.SoundExactly | pkg/types/config.go:89-96 | validation guarantees this for a hardware limit exactly when it is below 2^63 |
| GlobalConfigs.ContentionEndsWithinHardware | README.md:31-34 | with an accepted configuration sustained contention ends on floors that together fit the hardware limit |
| BpfMaps.Writer.WriteCgroupRate | pkg/bpf/maps.go:266-336 | the rate table afterwards, early returns included |
| BpfMaps.RateWriteIdempotent | pkg/bpf/maps.go:266-336 | the same request twice is the same as once |
| BpfMaps.RateWriteOutcome | pkg/bpf/maps.go:275-335 | ingress always ends as requested; egress exactly unless the early return is taken while it differed |
| BpfMaps.EgressChangeIgnored | pkg/bpf/maps.go:292-294 | a concrete egress change that is lost |
| BpfMaps.RateWriteKeepsBuckets | pkg/bpf/maps.go:284-303 | the bucket of an unchanged nonzero limit, and every other cgroup's entry, survive |
| BpfMaps.Writer.DeleteCgroupRate | pkg/bpf/maps.go:251-264 | both entries of the inode go, nothing else |
| BpfMaps.Writer.WritePodInfo | pkg/bpf/maps.go:161-198 | both tables after writing a pod; host-network pods are skipped |
| BpfMaps.Writer.DeletePodInfo | pkg/bpf/maps.go:200-216 | the pod's addresses go from pod_map, nothing else |
| Claims.PutAgreesExactly | pkg/bpf/maps.go:161-181 | writing one owner's keys keeps a table equal to all claims exactly when the owner gives up none |
| ControlPlane.DeleteKeepsAgreement | pkg/config/syncer.go:150-164 | deleting a pod keeps pod_map equal to what the cache implies |
| ControlPlane.UpdateAgreesExactly | pkg/config/syncer.go:166-219 | updating a pod keeps it exactly when the pod has not given up an address |
| ControlPlane.LoopAgrees | pkg/config/syncer.go:255-281 | so does an error-free pass over a pod list |
| ControlPlane.AgreementOverRuns | pkg/config/syncer.go:150-296 | after every error-free sequence of the three operations pod_map holds exactly the addresses of cached pods with their own network, with present class and inode |
| ControlPlane.AgreementFromStart | pkg/config/syncer.go:58-69 | in particular from the empty cache and tables |
| ControlPlane.HotUpdateExactly | README.md:37-37 | exactly when the limits of a cached pod follow its annotations, for ingress and for egress |
| ControlPlane.UpdateCaches | pkg/config/syncer.go:172-209 | the record an update caches: the priority becomes the class, cgroup and given rates stay those of a cached pod, no other pod changes |
| ControlPlane.UpdateGivesClass | pkg/config/syncer.go:202-218 | after a successful update pod_map gives every address of the pod the class asked for and its cgroup's inode, and no other address changes |
| ControlPlane.HostNetworkLeavesTables | pkg/bpf/maps.go:161-165 | a host-network pod leaves both tables alone |
| ControlPlane.UpdateFailsExactly | pkg/config/syncer.go:188-216 | when an update fails, and what it leaves |
| ControlPlane.DeleteLeavesLimits | pkg/config/syncer.go:150-164 | a deleted pod goes with its addresses only; its limits stay |
| ControlPlane.PassTracksProcessed | pkg/config/syncer.go:253-276 | the inodes collected, and the pods aimed at the loop variable, are those of the processed entries |
| ControlPlane.PassLeavesProcessedOnly | pkg/config/syncer.go:283-294 | after an error-free pass every inode left in the rate table was processed in it |
| ControlPlane.SweepSparesProcessed | pkg/config/syncer.go:283-294 | the sweep removes exactly the entries of inodes not processed, and changes none |
| ControlPlane.PassGivesLastClass | pkg/config/syncer.go:268-272 | after an error-free pass each pod is cached with the class the last entry to give it one gave, and otherwise as before but for its rates |
| ControlPlane.PassWritesLastClass | pkg/config/syncer.go:268-279 | and pod_map holds that class for every address of the pod |
| ControlPlane.PassWritesListedLimits | pkg/config/syncer.go:255-281 | the loop leaves each written inode the limits listed last, egress under the exact condition of the early return, and no other inode's entries change |
| ControlPlane.PassLeavesListedLimits | pkg/config/syncer.go:276-294 | after the sweep they stand exactly when the inode the list gave is the cached one |
| ControlPlane.StoppedPassLeaves | pkg/config/syncer.go:276-280 | a pass that cannot go on has swept nothing, left the tables as before the entry that stops it, and cached that entry's settings |
| ControlPlane.PassSharesLastRates | pkg/config/syncer.go:273-274 | after the loop processed pods are cached with the last entry's limits, all others as before |
| ControlPlane.ForeignRates | pkg/config/syncer.go:186-191 | a pod ends up cached, and updated later, with another pod's limit |
| ControlPlane.PanicsExactly | pkg/config/syncer.go:255-281 | a pass ends normally exactly when nothing stops it, and in a nil dereference exactly when the first thing to stop it is a pod with no class before the pass and none given by then |
| ControlPlane.PerCgroupListPanicsExactly | pkg/config/syncer.go:358-358 | with a list that gives no class and class writes that succeed: exactly when it processes a pod cached without one |
| Syncers.PodCache.ByPodID | pkg/config/record.go:70-79 | the cached object of an ID, or none |
| Syncers.PodCache.ByCgroupPath | pkg/config/record.go:92-101 | some cached pod with the path; none only if there is none |
| Syncers.PodCache.Update | pkg/config/syncer.go:206-209 | the object is filed under its ID, all others stay |
| Syncers.PodCache.AddIfNotPresent | pkg/config/record.go:103-112 | files the object only if the ID is free |
| Syncers.PodCache.DelByPodID | pkg/config/record.go:118-120 | removes the ID, all others stay |
| Syncers.Syncer.DeletePod | pkg/config/syncer.go:150-164 | the pointer code is the value step: cache and both tables afterwards |
| Syncers.Syncer.UpdatePod | pkg/config/syncer.go:166-219 | the same, for new and cached pods and all error returns |
| Syncers.Syncer.MergeCached | pkg/config/syncer.go:172-204 | the new object takes cgroup and rates from the cached one, the class from its own priority |
| Syncers.Syncer.StoreAndWrite | pkg/config/syncer.go:206-218 | cache, set the host-network class, write the tables |
| Syncers.Syncer.PodChangeLocked | pkg/config/syncer.go:357-372 | the same after the log line that dereferences the class |
| Syncers.Syncer.AdvanceLoopVariable | pkg/config/syncer.go:255-255 | moving the loop variable changes the rates of every pod pointing at it, and nothing else |
| Syncers.Syncer.VisitEntry | pkg/config/syncer.go:255-281 | one turn of the loop through the pointers is one value step |
| Syncers.Syncer.PodChanged | pkg/config/syncer.go:249-296 | the whole pass, errors and panics included, is the value step for the pods the index returned |
| Syncers.Syncer.SweepRates | pkg/config/syncer.go:283-294 | exactly the inodes not processed lose their rates |
| Classification.PacketMeetsItsPod | bpf/qos_tc.c:482-493 | with tables in agreement a packet gets its pod's class and rate entry, and a packet of no pod the host's class and no pod limit |
| Classification.PriorityReachesPacket | pkg/config/syncer.go:202-218 | after a successful update a packet to or from the pod's addresses gets the class the pod asks for and is held against its cgroup's entry |
| Classification.RunKeepsShared | bpf/qos_tc.c:478-512 | packets never change the pods and limits the agent has written |
| Classification.OwnedIsHeld | bpf/qos_tc.c:489-493 | over any run all a cached pod's traffic is held against its own entry |
| Classification.AnnotatedCeiling | bpf/qos_tc.c:489-511 | a pod whose limit stands in the agent's table as asked for gets at most one full bucket plus that limit times the time, with token buckets |
| Classification.AnnotatedPacedCeiling | bpf/qos_tc.c:217-240 | the same with a pacer, from an admitted packet of the pod on |
| Classification.NewPodAsRequested | pkg/config/syncer.go:166-219 | a new pod's annotated limits stand in the table after it is written, egress unless the inode's ingress limit stood as asked before |
| Classification.NewPodCeiling | pkg/config/syncer.go:166-219 | from the annotation of a newly met pod to its traffic, with token buckets |
| Classification.NewPodPacedCeiling | pkg/config/syncer.go:166-219 | the same with a pacer |
| Classification.PacketMeetsItsPodAfter | bpf/qos_tc.c:482-493 | the same as PacketMeetsItsPod, both halves, after any error-free history of the agent |
| SharedTables.AgreementWhilePacketsPass | pkg/config/syncer.go:150-296 | however error-free operations of the agent and packets interleave, pod_map holds exactly what the cache implies |
| SharedTables.PacketMeetsItsPodAnytime | bpf/qos_tc.c:482-493 | so at any moment of such a run a packet meets the class and rate entry of its pod |
| SharedTables.AgentKeepsOrStarts | pkg/bpf/maps.go:266-336 | every operation leaves each rate entry with its bucket, or with an empty one |
| SharedTables.UpdateKeepsBucketExactly | pkg/bpf/maps.go:284-303 | updating a pod touches a bucket exactly when it changes its limit |
| SharedTables.InterleavedCeiling | bpf/qos_tc.c:489-511 | over any interleaving an entry that keeps a real limit admits at most one full bucket, one more for every time the agent replaces it, and the highest limit times the time |
| SharedTables.AddressedCeiling | bpf/qos_tc.c:489-511 | the same for the addresses of a pod that stays cached, whatever else the agent does between the packets |
| ConfigText.GetGlobalConfig | pkg/config/config.go:102-132 | the two records hold what the search finds for each of the fourteen keys |
| ConfigText.KeyInsideKey | pkg/config/config.go:111-129 | no key occurs inside another |
| ConfigText.ParseReadsBack | pkg/config/config.go:134-145 | for any lines in any order, spaced by an equals sign, blanks of any kind or nothing, each key reads back as its first number, cut off at 2^64-1, and 0 without one |
| ConfigText.EqualsTakesNoBlank | pkg/config/config.go:135-135 | no blank may follow the equals sign |
| ConfigText.OtherCharacterStops | pkg/config/config.go:135-135 | no other character may stand between a key and its number |
| ConfigText.ConfigReadsBack | pkg/config/config.go:102-132 | the same for the whole configuration of a direction |
| ConfigText.TextReachesClasses | pkg/bpf/maps.go:109-138 | a reasonable text is accepted, and each class's floor and ceiling in the map are the text's |
| ConfigText.SyncGlobalConfig | pkg/config/syncer.go:221-232 | received limits go to the ingress entry and sent ones to egress, both or neither |

## Left out

- Races between CPUs: the code takes no lock on the rate state and promises nothing under lost updates; one packet is one step.
- Clock readings are inputs, one for each helper call; traces assume that those of one helper do not go back.
- The configuration is fixed within a trace; a hot change starts a new trace from the state reached, as in module Reconfig.
- BPF loading, tail-call mechanics (a tail call is a call), qdisc attachment, compilation and generated code.
- The lookup failures of array maps, which cannot happen for the indices used, and with them the branch at bpf/qos_tc.c:531-543.
- Direction marks and header length checks; a packet that fails them is modelled as one of no IP family.
- Failing map operations other than a missing key (a full hash map, a kernel error).
- File watching, cgroup file reads and writes, the cgroup cache, JSON decoding, line splitting of the per-cgroup list and the Kubernetes reconciler; their results are inputs.
- Listing and reading back for the command line (pkg/bpf/maps.go:58-93, pkg/bpf/maps.go:218-249, cmd/).
- Big-endian builds: the constant 0xffff0000 in the packet key matches the agent's key on little-endian machines only.
- The pointer `CgroupInfo` of a pod is modelled as a value: the one object that shares it is dropped from the cache in the same operation.
- A nil rate pointer is modelled as a pointer to a variable that holds nothing.
- UpperLimit.RespectedExactly: for hardware limits below 2*10^18 bytes a second and histories in the clock's first 292 years; the averages are inputs up to (2^64-1)/9, the most the meter can report. NodeLimits has the runs with the meter's own averages.
- UpperLimit.PacedRespectedExactly: for the same limits, histories in the clock's first 146 years and stamps less than 2 s ahead, without which no bound by the clock exists.
- NodeLimits.SuppressedToNone: for accepted configurations with a hardware limit below 6*10^17 bytes a second, where one burst in the meter is enough to reach every floor; UpperLimit.RespectedExactly covers higher ones.
- EndToEnd.NodePacedCeiling, and Ceiling.PacedCeiling beside it: for a clock in its first 292 years and incoming stamps less than 2 s ahead of it; Pacer.Envelope bounds by departure time without that.
- TokenBucket.ConformingNeverDropped: for runs whose refills are the true ones, as are TokenBucket.TokensAreLeaky and LowerLimit.FloorServed; TokenBucket.RefillExactly says exactly when a refill is, and TokenBucket.SilenceStarves what happens otherwise.
- SharedTables.InterleavedCeiling: of pods behind token buckets; a paced pod's bound is Classification.AnnotatedPacedCeiling, over stretches without an operation of the agent.
