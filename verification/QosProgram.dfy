/** `qos_cgroup` and `qos_global` composed: one packet from its header to its verdict, over the maps
    the control plane fills. A tail call is a call; one packet is one step. */
module QosProgram {

  import opened Words
  import opened Options
  import opened TokenBucket
  import opened Pacer
  import opened Controller
  import opened Meter
  import opened AddressKeys
  import opened GlobalRate
  import T = Traces

  /** struct cgroup_info. */
  datatype CgroupInfo = CgroupInfo(classId: u32, inode: u64)

  /** struct cgroup_rate_id. */
  datatype CgroupRateId = CgroupRateId(inode: u64, direction: Direction)

  /** The clock readings one packet causes, in program order. */
  datatype Clocks = Clocks(count: u64, pod: u64, limit: u64, adjust: u64, average: u64)

  /** A packet as it reaches `qos_cgroup`. `classId` is what the kernel knows of the sending cgroup,
      where it can be asked. */
  datatype Arrived = Arrived(
    dir: Direction, header: Header, len: u32, prio: u32, classId: Option<u32>, stamp: u64, clocks: Clocks)

  /** What the program reads and writes. */
  datatype Node = Node(
    edt: bool, ingressCfg: GlobalCfg, egressCfg: GlobalCfg,
    pods: map<IpKey, CgroupInfo>, rates: map<CgroupRateId, ClassState>,
    meter: Stats, ingress: GlobalRate, egress: GlobalRate)

  function ShaperOf(edt: bool, d: Direction): Shaper { if edt && d == Egress then Pacers else TokenBuckets }

  function CfgOf(n: Node, d: Direction): GlobalCfg { if d == Ingress then n.ingressCfg else n.egressCfg }

  function GlobalOf(n: Node, d: Direction): GlobalRate { if d == Ingress then n.ingress else n.egress }

  function WithRate(n: Node, d: Direction, g: GlobalRate): Node {
    if d == Ingress then n.(ingress := g) else n.(egress := g)
  }

  /** A pod's own limit; in the pacer `edt` a zero limit passes everything untouched. */
  function PodLimit(shaper: Shaper, s: ClassState, skb: Skb, now: u64): (ClassState, Verdict, u64) {
    if shaper == Pacers && s.bps == 0 then (s, Ok, skb.stamp) else LimitClass(shaper, s, skb, now)
  }

  /** The pod-level half: the new node, the verdict, and the packet as `qos_global` would get it. */
  function Cgroup(n: Node, p: Arrived): (Node, Verdict, Skb)
    requires !p.header.NotIp?
  {
    var n1 := n.(meter := Count(n.meter, p.dir, p.len, p.clocks.count).0);
    var key := PacketKey(p.header, p.dir);
    if key !in n.pods then
      (n1, Ok, Skb(if p.classId.Some? then p.classId.value else p.prio, p.len, p.stamp))
    else
      var skb := Skb(n.pods[key].classId, p.len, p.stamp);
      var id := CgroupRateId(n.pods[key].inode, p.dir);
      if id in n.rates && n.rates[id].bps > 0 then
        var (s, v, stamp) := PodLimit(ShaperOf(n.edt, p.dir), n.rates[id], skb, p.clocks.pod);
        (n1.(rates := n1.rates[id := s]), v, skb.(stamp := stamp))
      else (n1, Ok, skb)
  }

  /** The packet of a global trace that an arrived packet becomes. */
  function Entering(n: Node, p: Arrived): T.Packet
    requires !p.header.NotIp?
  {
    var (n1, _, skb) := Cgroup(n, p);
    T.Packet(skb, p.clocks.limit, p.clocks.adjust, Average(n1.meter, p.dir, p.clocks.average))
  }

  function Step(n: Node, p: Arrived): (Node, T.Outcome) {
    if p.header.NotIp? then (n, T.Outcome(Ok, p.stamp))
    else
      var (n1, v, skb) := Cgroup(n, p);
      if v == Shot then (n1, T.Outcome(Shot, skb.stamp))
      else
        var (g, o) := T.Step(ShaperOf(n.edt, p.dir), CfgOf(n, p.dir), GlobalOf(n, p.dir), Entering(n, p));
        (WithRate(n1, p.dir, g), o)
  }

  /** struct rate_info, updated in place by `tb_rate_limit` and `edt`. */
  class RateInfo {
    var bps: u64
    var tLast: u64
    var slot3: u64

    constructor (bps: u64, tLast: u64, slot3: u64)
      ensures State() == ClassState(bps, tLast, slot3)
    {
      this.bps, this.tLast, this.slot3 := bps, tLast, slot3;
    }

    ghost function State(): ClassState reads this { ClassState(bps, tLast, slot3) }

    method TbRateLimit(prio: u32, wireLen: u32, stamp: u64, now: u64) returns (verdict: Verdict)
      modifies this`tLast, this`slot3
      ensures (State(), verdict, stamp) == PodLimit(TokenBuckets, old(State()), Skb(prio, wireLen, stamp), now)
    {
      var tokens, last;
      verdict, tokens, last := Accept(wireLen, slot3, tLast, bps, now);
      slot3 := tokens;
      tLast := last;
    }

    method Edt(prio: u32, wireLen: u32, stamp: u64, now: u64) returns (verdict: Verdict, stamp': u64)
      modifies this`tLast
      ensures (State(), verdict, stamp') == PodLimit(Pacers, old(State()), Skb(prio, wireLen, stamp), now)
    {
      if bps == 0 {
        return Ok, stamp;
      }
      tLast, stamp', verdict := PaceOne(tLast, wireLen, bps, stamp, now);
    }
  }

  class Qos {
    const edt: bool
    const meter: NetStatMap
    const ingress: GlobalRateInfo
    const egress: GlobalRateInfo
    var ingressCfg: GlobalCfg
    var egressCfg: GlobalCfg
    var pods: map<IpKey, CgroupInfo>
    var rates: map<CgroupRateId, RateInfo>

    /** Freshly loaded maps: the array maps hold zeroes, the hash maps nothing. */
    constructor (edt: bool, ingressCfg: GlobalCfg, egressCfg: GlobalCfg)
      ensures Valid()
      ensures State() == Node(edt, ingressCfg, egressCfg, map[], map[], ZeroStats(), ZERO_RATE, ZERO_RATE)
    {
      this.edt, this.ingressCfg, this.egressCfg := edt, ingressCfg, egressCfg;
      meter := new NetStatMap();
      ingress := new GlobalRateInfo();
      egress := new GlobalRateInfo();
      pods, rates := map[], map[];
    }

    ghost predicate Valid() reads this, meter {
      && meter.Valid()
      && ingress != egress
      && forall a, b :: a in rates && b in rates && a != b ==> rates[a] != rates[b]
    }

    ghost function Rates(): map<CgroupRateId, ClassState>
      reads this, rates.Values
    {
      map id | id in rates :: rates[id].State()
    }

    ghost function State(): Node
      reads this, meter, meter.stats, ingress, egress, rates.Values
      requires Valid()
    {
      Node(edt, ingressCfg, egressCfg, pods, Rates(), meter.Contents(), ingress.State(), egress.State())
    }

    method QosCgroup(p: Arrived) returns (verdict: Verdict, stamp: u64)
      requires Valid()
      modifies meter.stats, ingress, egress, rates.Values
      ensures Valid()
      ensures (State(), T.Outcome(verdict, stamp)) == Step(old(State()), p)
    {
      if p.header.NotIp? {
        return Ok, p.stamp;
      }
      var priority: u32;
      verdict, priority, stamp := Classify(p);
      if verdict == Ok {
        verdict, stamp := QosGlobal(p.dir, priority, p.len, stamp, p.clocks);
      }
    }

    /** `qos_cgroup` up to its tail call: count, look the pod up, apply the pod's own limit. */
    method Classify(p: Arrived) returns (verdict: Verdict, priority: u32, stamp: u64)
      requires Valid() && !p.header.NotIp?
      modifies meter.stats, rates.Values
      ensures Valid()
      ensures (State(), verdict, Skb(priority, p.len, stamp)) == Cgroup(old(State()), p)
    {
      verdict, stamp, priority := Ok, p.stamp, p.prio;
      ghost var before := Rates();
      meter.CalRate(p.len, p.dir, p.clocks.count);
      var key := PacketKey(p.header, p.dir);
      if key !in pods {
        if p.classId.Some? {
          priority := p.classId.value;
        }
        assert Rates() == before;
        return;
      }
      priority := pods[key].classId;
      var id := CgroupRateId(pods[key].inode, p.dir);
      if id in rates && rates[id].bps > 0 {
        var info := rates[id];
        if edt && p.dir == Egress {
          verdict, stamp := info.Edt(priority, p.len, stamp, p.clocks.pod);
        } else {
          verdict := info.TbRateLimit(priority, p.len, stamp, p.clocks.pod);
        }
        assert Rates() == before[id := info.State()];
      }
    }

    function InfoOf(d: Direction): GlobalRateInfo { if d == Ingress then ingress else egress }

    /** `qos_global`; both maps it looks up are arrays, so the lookups always succeed. */
    method QosGlobal(d: Direction, priority: u32, len: u32, stamp: u64, clocks: Clocks)
      returns (verdict: Verdict, stamp': u64)
      requires Valid()
      modifies InfoOf(d)
      ensures var cfg := if d == Ingress then ingressCfg else egressCfg;
        var avg := Average(meter.Contents(), d, clocks.average);
        var p := T.Packet(Skb(priority, len, stamp), clocks.limit, clocks.adjust, avg);
        (InfoOf(d).State(), T.Outcome(verdict, stamp')) == T.Step(ShaperOf(edt, d), cfg, old(InfoOf(d).State()), p)
    {
      var info := InfoOf(d);
      var cfg := if d == Ingress then ingressCfg else egressCfg;
      if edt && d == Egress {
        verdict, stamp' := info.GlobalEdt(priority, len, stamp, clocks.limit);
      } else {
        stamp' := stamp;
        verdict := info.GlobalTbRateLimit(priority, len, clocks.limit);
      }
      if verdict != Ok {
        return;
      }
      info.AdjustRate(cfg, meter, d, clocks.adjust, clocks.average);
    }
  }
}
