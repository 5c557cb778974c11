/** The pod tables as the control plane writes them: pkg/bpf/maps.go over pod_map and cgroup_rate_map,
    and the pod records of pkg/types/config.go. */
module BpfMaps {

  import opened Words
  import opened Options
  import opened Meter
  import opened AddressKeys
  import opened QosProgram

  /** types.CgroupInfo. */
  datatype PodCgroup = PodCgroup(path: string, classId: u32, inode: u64)

  /** types.PodConfig with its pointers followed. */
  datatype Pod = Pod(
    id: string, uid: string, ipv4: Option<Addr>, ipv6: Option<Addr>, hostNetwork: bool,
    prio: Option<u32>, cgroup: PodCgroup, rxBps: Option<u64>, txBps: Option<u64>)

  /** The variable a *uint64 points to; a nil pointer is a variable that holds nothing. */
  class RateVar {
    var value: Option<u64>

    constructor (value: Option<u64>)
      ensures this.value == value
    {
      this.value := value;
    }
  }

  /** types.PodConfig. */
  class PodConfig {
    const podID: string
    const podUID: string
    const ipv4: Option<Addr>
    const ipv6: Option<Addr>
    const hostNetwork: bool
    var prio: Option<u32>
    var cgroupInfo: PodCgroup
    var rxBps: RateVar
    var txBps: RateVar

    constructor (p: Pod)
      ensures Value() == p && fresh(rxBps) && fresh(txBps)
    {
      podID, podUID, ipv4, ipv6, hostNetwork := p.id, p.uid, p.ipv4, p.ipv6, p.hostNetwork;
      prio, cgroupInfo := p.prio, p.cgroup;
      rxBps := new RateVar(p.rxBps);
      txBps := new RateVar(p.txBps);
    }

    function Value(): Pod
      reads this, rxBps, txBps
    {
      Pod(podID, podUID, ipv4, ipv6, hostNetwork, prio, cgroupInfo, rxBps.value, txBps.value)
    }
  }

  /** rateInfo in pkg/bpf/types.go: copied out by a lookup, copied in by a put. */
  datatype RateEntry = RateEntry(limitBps: u64, lastTimestamp: u64, slot: u64)

  type PodTable = map<IpKey, CgroupInfo>
  type RateTable = map<CgroupRateId, RateEntry>

  datatype Tables = Tables(pods: PodTable, rates: RateTable)

  // ---- cgroup_rate_map ----

  /** The limit an entry holds; a missing entry reads as the zero value. */
  function LimitAt(m: RateTable, id: CgroupRateId): u64 { if id in m then m[id].limitBps else 0 }

  /** Zero asks for no entry; a different limit starts a new bucket; the same limit changes nothing. */
  function SetRate(m: RateTable, id: CgroupRateId, bps: u64): RateTable {
    if bps == 0 then m - {id} else if LimitAt(m, id) == bps then m else m[id := RateEntry(bps, 0, 0)]
  }

  function InId(inode: u64): CgroupRateId { CgroupRateId(inode, Ingress) }

  function OutId(inode: u64): CgroupRateId { CgroupRateId(inode, Egress) }

  predicate StopsEarly(m: RateTable, inode: u64, rx: u64) { rx != 0 && LimitAt(m, InId(inode)) == rx }

  /** `WriteCgroupRate`, with its early return on an unchanged nonzero ingress limit. */
  function RateWrite(m: RateTable, inode: u64, rx: u64, tx: u64): RateTable {
    if StopsEarly(m, inode, rx) then m else SetRate(SetRate(m, InId(inode), rx), OutId(inode), tx)
  }

  predicate AsRequested(m: RateTable, id: CgroupRateId, bps: u64) {
    if bps == 0 then id !in m else id in m && m[id].limitBps == bps
  }

  /** Writing the same request again changes nothing. */
  lemma RateWriteIdempotent(m: RateTable, inode: u64, rx: u64, tx: u64)
    ensures RateWrite(RateWrite(m, inode, rx, tx), inode, rx, tx) == RateWrite(m, inode, rx, tx)
  {
    var r := RateWrite(m, inode, rx, tx);
    if rx == 0 { assert r - {InId(inode)} == r; }
    if tx == 0 && OutId(inode) !in r { assert r - {OutId(inode)} == r; }
  }

  /** Ingress always ends as requested; egress does exactly unless the early return is taken while
      egress was not already as requested. */
  lemma RateWriteOutcome(m: RateTable, inode: u64, rx: u64, tx: u64)
    ensures var r := RateWrite(m, inode, rx, tx);
      && AsRequested(r, InId(inode), rx)
      && (AsRequested(r, OutId(inode), tx) <==> !StopsEarly(m, inode, rx) || AsRequested(m, OutId(inode), tx))
  {
  }

  /** A changed egress limit is ignored when it comes with an unchanged ingress limit. */
  lemma EgressChangeIgnored(inode: u64, rx: u64, oldTx: u64, tx: u64)
    requires rx != 0 && oldTx != tx
    ensures var m := map[InId(inode) := RateEntry(rx, 0, 0), OutId(inode) := RateEntry(oldTx, 0, 0)];
      RateWrite(m, inode, rx, tx) == m && !AsRequested(m, OutId(inode), tx)
  {
  }

  /** The bucket behind an unchanged nonzero limit is never reset, and no other cgroup's entry is touched. */
  lemma RateWriteKeepsBuckets(m: RateTable, inode: u64, rx: u64, tx: u64, id: CgroupRateId)
    requires id in m
    requires id.inode != inode || (m[id].limitBps == (if id.direction == Ingress then rx else tx) != 0)
    ensures id in RateWrite(m, inode, rx, tx) && RateWrite(m, inode, rx, tx)[id] == m[id]
  {
  }

  // ---- pod_map ----

  /** The keys a pod owns in pod_map; a host-network pod owns none. */
  function Keys(p: Pod): set<IpKey> {
    if p.hostNetwork then {}
    else (if p.ipv4.Some? then {Ip2Addr(p.ipv4.value)} else {}) + (if p.ipv6.Some? then {Ip2Addr(p.ipv6.value)} else {})
  }

  function InfoOf(p: Pod): CgroupInfo { CgroupInfo(p.cgroup.classId, p.cgroup.inode) }

  function OrZero(x: Option<u64>): u64 { if x.Some? then x.value else 0 }

  function PodWrite(t: Tables, p: Pod): Tables {
    if p.hostNetwork then t
    else Tables(t.pods + map k | k in Keys(p) :: InfoOf(p),
                RateWrite(t.rates, p.cgroup.inode, OrZero(p.rxBps), OrZero(p.txBps)))
  }

  /** Both puts of a pod, one after the other, are one put of its key set. */
  lemma PutsOfPod(m: PodTable, p: Pod)
    requires !p.hostNetwork
    ensures var m1 := if p.ipv4.Some? then m[Ip2Addr(p.ipv4.value) := InfoOf(p)] else m;
      var m2 := if p.ipv6.Some? then m1[Ip2Addr(p.ipv6.value) := InfoOf(p)] else m1;
      m2 == m + map k | k in Keys(p) :: InfoOf(p)
  {
  }

  class Writer {
    var podMap: PodTable
    var cgroupRateMap: RateTable

    constructor ()
      ensures State() == Tables(map[], map[])
    {
      podMap, cgroupRateMap := map[], map[];
    }

    ghost function State(): Tables reads this { Tables(podMap, cgroupRateMap) }

    method WriteCgroupRate(inode: u64, rx: u64, tx: u64)
      modifies this`cgroupRateMap
      ensures cgroupRateMap == RateWrite(old(cgroupRateMap), inode, rx, tx)
    {
      var egressId, ingressId := OutId(inode), InId(inode);
      if rx == 0 {
        cgroupRateMap := cgroupRateMap - {ingressId};
      } else {
        var prev := if ingressId in cgroupRateMap then cgroupRateMap[ingressId] else RateEntry(0, 0, 0);
        if prev.limitBps == rx {
          return;
        }
        cgroupRateMap := cgroupRateMap[ingressId := RateEntry(rx, 0, 0)];
      }
      if tx == 0 {
        cgroupRateMap := cgroupRateMap - {egressId};
      } else {
        var prev := if egressId in cgroupRateMap then cgroupRateMap[egressId] else RateEntry(0, 0, 0);
        if prev.limitBps == tx {
          return;
        }
        cgroupRateMap := cgroupRateMap[egressId := RateEntry(tx, 0, 0)];
      }
    }

    method DeleteCgroupRate(inode: u64)
      modifies this`cgroupRateMap
      ensures cgroupRateMap == old(cgroupRateMap) - {OutId(inode), InId(inode)}
    {
      cgroupRateMap := cgroupRateMap - {OutId(inode)};
      cgroupRateMap := cgroupRateMap - {InId(inode)};
    }

    method WritePodInfo(config: PodConfig)
      modifies this
      ensures State() == PodWrite(old(State()), config.Value())
    {
      if config.hostNetwork {
        return;
      }
      PutsOfPod(podMap, config.Value());
      var info := CgroupInfo(config.cgroupInfo.classId, config.cgroupInfo.inode);
      if config.ipv4.Some? {
        podMap := podMap[Ip2Addr(config.ipv4.value) := info];
      }
      if config.ipv6.Some? {
        podMap := podMap[Ip2Addr(config.ipv6.value) := info];
      }
      var rx, tx := 0, 0;
      if config.rxBps.value.Some? {
        rx := config.rxBps.value.value;
      }
      if config.txBps.value.Some? {
        tx := config.txBps.value.value;
      }
      WriteCgroupRate(config.cgroupInfo.inode, rx, tx);
    }

    method DeletePodInfo(config: PodConfig)
      modifies this`podMap
      ensures podMap == old(podMap) - Keys(config.Value())
    {
      if config.hostNetwork {
        return;
      }
      if config.ipv4.Some? {
        podMap := podMap - {Ip2Addr(config.ipv4.value)};
      }
      if config.ipv6.Some? {
        podMap := podMap - {Ip2Addr(config.ipv6.value)};
      }
    }
  }
}
