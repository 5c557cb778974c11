/** Whole runs of the composed program: what every arriving packet goes through, and the limits that
    hold for what comes out. */
module EndToEnd {

  import opened Words
  import opened Options
  import opened TokenBucket
  import opened Controller
  import opened Meter
  import opened AddressKeys
  import opened GlobalRate
  import opened QosProgram
  import opened Ceiling
  import P = Pacer
  import T = Traces

  function RunNode(n: Node, ps: seq<Arrived>): Node
    decreases ps
  {
    if ps == [] then n else RunNode(QosProgram.Step(n, ps[0]).0, ps[1..])
  }

  /** The clock readings at the limiters do not go back. */
  ghost predicate NodeClocked(ps: seq<Arrived>) {
    forall i, j :: 0 <= i < j < |ps| ==>
      ps[i].clocks.limit <= ps[j].clocks.limit && ps[i].clocks.pod <= ps[j].clocks.pod
  }

  predicate Reaches(n: Node, p: Arrived, d: Direction) {
    p.dir == d && !p.header.NotIp? && Cgroup(n, p).1 == Ok
  }

  /** The packets of one direction that pass their pod's limit, as `qos_global` sees them. */
  function Reaching(n: Node, ps: seq<Arrived>, d: Direction): seq<T.Packet>
    decreases ps
  {
    if ps == [] then []
    else (if Reaches(n, ps[0], d) then [Entering(n, ps[0])] else [])
         + Reaching(QosProgram.Step(n, ps[0]).0, ps[1..], d)
  }

  /** What one packet adds to the bytes of a class that the whole program lets through in one direction. */
  function Passing(n: Node, p: Arrived, d: Direction, c: ClassId): nat {
    if p.dir == d && !p.header.NotIp? && QosProgram.Step(n, p).1.verdict == Ok && Cgroup(n, p).2.prio == c
    then p.len else 0
  }

  function PassedBytes(n: Node, ps: seq<Arrived>, d: Direction, c: ClassId): nat
    decreases ps
  {
    if ps == [] then 0
    else Passing(n, ps[0], d, c) + PassedBytes(QosProgram.Step(n, ps[0]).0, ps[1..], d, c)
  }

  lemma StepKeepsTables(n: Node, p: Arrived)
    ensures var n' := QosProgram.Step(n, p).0;
      n'.edt == n.edt && n'.pods == n.pods && n'.ingressCfg == n.ingressCfg && n'.egressCfg == n.egressCfg
  {
  }

  /** One step moves at most the direction it belongs to, by exactly one step of `qos_global` if the packet
      reaches it. A packet dropped by its pod's limit spends nothing of the host's and triggers no
      adjustment. */
  lemma StepShape(n: Node, p: Arrived, d: Direction)
    ensures var (n', o) := QosProgram.Step(n, p);
      if Reaches(n, p, d) then
        (GlobalOf(n', d), o) == T.Step(ShaperOf(n.edt, d), CfgOf(n, d), GlobalOf(n, d), Entering(n, p))
      else GlobalOf(n', d) == GlobalOf(n, d)
  {
  }

  /** A packet adds what it adds to the global trace, and nothing if it does not reach it. */
  lemma PassingShape(n: Node, p: Arrived, d: Direction, c: ClassId)
    ensures Passing(n, p, d, c) ==
      if Reaches(n, p, d) && T.OfClass(Entering(n, p), c) && QosProgram.Step(n, p).1.verdict == Ok
      then Entering(n, p).skb.len else 0
  {
  }

  /** The host limiter of a direction sees exactly the packets that reach it: states and bytes are those
      of the global trace. */
  lemma {:induction false} GlobalProjection(n: Node, ps: seq<Arrived>, d: Direction, c: ClassId)
    ensures var trace, shaper, cfg := Reaching(n, ps, d), ShaperOf(n.edt, d), CfgOf(n, d);
      && GlobalOf(RunNode(n, ps), d) == T.RunPackets(shaper, cfg, GlobalOf(n, d), trace)
      && PassedBytes(n, ps, d, c) == T.ClassBytes(shaper, cfg, GlobalOf(n, d), trace, c)
    decreases ps
  {
    if ps != [] {
      var n' := QosProgram.Step(n, ps[0]).0;
      var rest := Reaching(n', ps[1..], d);
      StepShape(n, ps[0], d);
      PassingShape(n, ps[0], d, c);
      assert ShaperOf(n'.edt, d) == ShaperOf(n.edt, d) && CfgOf(n', d) == CfgOf(n, d) by { StepKeepsTables(n, ps[0]); }
      GlobalProjection(n', ps[1..], d, c);
      if Reaches(n, ps[0], d) {
        T.FirstPacket(ShaperOf(n.edt, d), CfgOf(n, d), GlobalOf(n, d), Entering(n, ps[0]), rest, c);
      } else {
        assert Reaching(n, ps, d) == rest;
      }
    }
  }

  lemma {:induction false} ReachingClocked(n: Node, ps: seq<Arrived>, d: Direction)
    requires NodeClocked(ps)
    ensures var trace := Reaching(n, ps, d);
      T.Clocked(trace)
      && forall k :: 0 <= k < |trace| ==> ps[0].clocks.limit <= trace[k].now <= ps[|ps| - 1].clocks.limit
    decreases ps
  {
    if ps != [] {
      ReachingClocked(QosProgram.Step(n, ps[0]).0, ps[1..], d);
    }
  }

  /** The upper limit of a class over the whole program: header parsing, pod lookup, pod limits, meter,
      controller and both directions interleaved, over any stretch of packets. */
  lemma NodeCeiling(n: Node, ps: seq<Arrived>, d: Direction, c: ClassId)
    requires var cfg := CfgOf(n, d);
      WellFormed(cfg) && MEGABYTE <= FloorOf(cfg, c) && UnderControl(cfg, GlobalOf(n, d), c)
    requires ShaperOf(n.edt, d) == TokenBuckets && NodeClocked(ps) && ps != []
    ensures var top := Top(CfgOf(n, d), c);
      NSEC_PER_SEC * PassedBytes(n, ps, d, c)
      <= NSEC_PER_SEC * top + top * (ps[|ps| - 1].clocks.limit - ps[0].clocks.limit)
    ensures UnderControl(CfgOf(n, d), GlobalOf(RunNode(n, ps), d), c)
  {
    var cfg, g, trace := CfgOf(n, d), GlobalOf(n, d), Reaching(n, ps, d);
    var from, to := ps[0].clocks.limit, ps[|ps| - 1].clocks.limit;
    assert T.Clocked(trace) && from <= to && forall k :: 0 <= k < |trace| ==> from <= trace[k].now <= to by {
      ReachingClocked(n, ps, d);
    }
    assert PassedBytes(n, ps, d, c) == T.ClassBytes(TokenBuckets, cfg, g, trace, c)
      && GlobalOf(RunNode(n, ps), d) == T.RunPackets(TokenBuckets, cfg, g, trace) by {
      GlobalProjection(n, ps, d, c);
    }
    CeilingBetweenReadings(cfg, g, trace, c, from, to);
  }

  // ---- the pacer build ----

  /** Clocks in their first 292 years, the limiter's not before the pod's, and stamps less than 2 s ahead. */
  ghost predicate NodeStamped(ps: seq<Arrived>) {
    && NodeClocked(ps)
    && forall i :: 0 <= i < |ps| ==>
         && ps[i].clocks.pod <= ps[i].clocks.limit < 0x8000_0000_0000_0000
         && ps[i].stamp < ps[i].clocks.pod + T_HORIZON_DROP
  }

  /** Past its pod's pacer a packet still carries a stamp less than 2 s ahead. */
  lemma EnteringStamp(n: Node, p: Arrived)
    requires Reaches(n, p, p.dir) && p.clocks.pod <= p.clocks.limit && p.stamp < p.clocks.pod + T_HORIZON_DROP
    ensures Entering(n, p).skb.stamp < p.clocks.limit + T_HORIZON_DROP
  {
  }

  lemma {:induction false} ReachingStamped(n: Node, ps: seq<Arrived>, d: Direction)
    requires NodeStamped(ps)
    ensures StampedInTime(Reaching(n, ps, d)) && |Reaching(n, ps, d)| <= |ps|
    decreases ps
  {
    ReachingClocked(n, ps, d);
    if ps != [] {
      if Reaches(n, ps[0], d) { EnteringStamp(n, ps[0]); }
      ReachingStamped(QosProgram.Step(n, ps[0]).0, ps[1..], d);
    }
  }

  /** The class has a real limit and its virtual clock is less than 2 s ahead of `since`. */
  ghost predicate PacedFrom(n: Node, since: u64, d: Direction, c: ClassId) {
    var cfg, s := CfgOf(n, d), ClassOf(GlobalOf(n, d), c);
    && WellFormed(cfg) && MEGABYTE <= FloorOf(cfg, c) && RealLimit(s.bps, CeilingOf(cfg, c))
    && since <= s.tLast < since + T_HORIZON_DROP
  }

  lemma ReachingBetween(n: Node, since: u64, ps: seq<Arrived>, d: Direction)
    requires NodeStamped(ps) && ps != [] && since <= ps[0].clocks.limit
    ensures var trace, to := Reaching(n, ps, d), ps[|ps| - 1].clocks.limit;
      && StampedInTime(trace) && |trace| <= |ps| && since <= to
      && forall k :: 0 <= k < |trace| ==> since <= trace[k].now <= to
  {
    ReachingStamped(n, ps, d);
    ReachingClocked(n, ps, d);
  }

  /** The upper limit of a class over the whole program where it is paced: bytes in at most the class's limit
      times the time since the class's virtual clock, with the 2 s horizon and one truncation a packet. */
  lemma NodePacedCeiling(n: Node, since: u64, ps: seq<Arrived>, d: Direction, c: ClassId)
    requires PacedFrom(n, since, d, c) && ShaperOf(n.edt, d) == Pacers
    requires NodeStamped(ps) && ps != [] && since <= ps[0].clocks.limit
    ensures NSEC_PER_SEC * PassedBytes(n, ps, d, c)
         <= Top(CfgOf(n, d), c) * P.PacedSpan(since, ps[|ps| - 1].clocks.limit, |ps|)
  {
    ReachingBetween(n, since, ps, d);
    PacedBetweenReadings(CfgOf(n, d), GlobalOf(n, d), since, Reaching(n, ps, d), c, ps[|ps| - 1].clocks.limit, |ps|);
    GlobalProjection(n, ps, d, c);
  }

  // ---- the pods' own limits ----

  /** The rate entry a packet is held against, if it belongs to a known pod. */
  function PodOf(n: Node, p: Arrived): Option<CgroupRateId> {
    if p.header.NotIp? || PacketKey(p.header, p.dir) !in n.pods then None
    else Some(CgroupRateId(n.pods[PacketKey(p.header, p.dir)].inode, p.dir))
  }

  /** Bytes of a pod that pass the whole program. */
  function PodBytes(n: Node, ps: seq<Arrived>, id: CgroupRateId): nat
    decreases ps
  {
    if ps == [] then 0
    else
      var (n', o) := QosProgram.Step(n, ps[0]);
      (if PodOf(n, ps[0]) == Some(id) && o.verdict == Ok then ps[0].len else 0) + PodBytes(n', ps[1..], id)
  }

  /** Bytes of a pod that pass the pod's own limit. */
  function PodAdmitted(n: Node, ps: seq<Arrived>, id: CgroupRateId): nat
    decreases ps
  {
    if ps == [] then 0
    else
      (if PodOf(n, ps[0]) == Some(id) && Cgroup(n, ps[0]).1 == Ok then ps[0].len else 0)
      + PodAdmitted(QosProgram.Step(n, ps[0]).0, ps[1..], id)
  }

  function PodOffers(n: Node, ps: seq<Arrived>, id: CgroupRateId, bps: u64): seq<Offer>
    decreases ps
  {
    if ps == [] then []
    else (if PodOf(n, ps[0]) == Some(id) then [Offer(ps[0].clocks.pod, ps[0].len, bps)] else [])
         + PodOffers(QosProgram.Step(n, ps[0]).0, ps[1..], id, bps)
  }

  function PodArrivals(n: Node, ps: seq<Arrived>, id: CgroupRateId, bps: u64): seq<P.Arrival>
    decreases ps
  {
    if ps == [] then []
    else (if PodOf(n, ps[0]) == Some(id) then [P.Arrival(ps[0].clocks.pod, ps[0].stamp, ps[0].len, bps)] else [])
         + PodArrivals(QosProgram.Step(n, ps[0]).0, ps[1..], id, bps)
  }

  function PodBucket(n: Node, id: CgroupRateId): Bucket
    requires id in n.rates
  {
    Bucket(n.rates[id].slot, n.rates[id].tLast)
  }

  /** One step against one pod's entry: only the pod's own packets touch it, by one step of its limiter,
      and what passes the program has passed it. */
  lemma PodStep(n: Node, p: Arrived, id: CgroupRateId)
    requires id in n.rates && n.rates[id].bps > 0
    ensures var (n', o) := QosProgram.Step(n, p);
      && n'.edt == n.edt && id in n'.rates
      && if PodOf(n, p) == Some(id) then
           var skb := Skb(Cgroup(n, p).2.prio, p.len, p.stamp);
           var r := PodLimit(ShaperOf(n.edt, id.direction), n.rates[id], skb, p.clocks.pod);
           n'.rates[id] == r.0 && Cgroup(n, p).1 == r.1 && (o.verdict == Ok ==> r.1 == Ok)
         else n'.rates[id] == n.rates[id]
  {
  }

  /** What passes the program has passed the pod's limit. */
  lemma {:induction false} PodBytesAdmitted(n: Node, ps: seq<Arrived>, id: CgroupRateId)
    ensures PodBytes(n, ps, id) <= PodAdmitted(n, ps, id)
    decreases ps
  {
    if ps != [] { PodBytesAdmitted(QosProgram.Step(n, ps[0]).0, ps[1..], id); }
  }

  /** Pod independence: whatever else the node does, a pod's bucket and the bytes it admits are those of a lone
      bucket given the pod's own packets. */
  lemma {:induction false} PodProjection(n: Node, ps: seq<Arrived>, id: CgroupRateId)
    requires id in n.rates && n.rates[id].bps > 0 && ShaperOf(n.edt, id.direction) == TokenBuckets
    ensures id in RunNode(n, ps).rates
    ensures var os := PodOffers(n, ps, id, n.rates[id].bps);
      && PodBucket(RunNode(n, ps), id) == TokenBucket.Run(PodBucket(n, id), os)
      && PodAdmitted(n, ps, id) == TokenBucket.AcceptedBytes(PodBucket(n, id), os)
    decreases ps
  {
    if ps != [] {
      var n', bps := QosProgram.Step(n, ps[0]).0, n.rates[id].bps;
      PodStep(n, ps[0], id);
      PodProjection(n', ps[1..], id);
      var rest := PodOffers(n', ps[1..], id, bps);
      if PodOf(n, ps[0]) == Some(id) {
        assert ([Offer(ps[0].clocks.pod, ps[0].len, bps)] + rest)[1..] == rest;
      } else {
        assert PodOffers(n, ps, id, bps) == rest;
      }
    }
  }

  /** The same where the pod is paced. */
  lemma {:induction false} PodPacerProjection(n: Node, ps: seq<Arrived>, id: CgroupRateId)
    requires id in n.rates && n.rates[id].bps > 0 && ShaperOf(n.edt, id.direction) == Pacers
    ensures id in RunNode(n, ps).rates
    ensures var xs := PodArrivals(n, ps, id, n.rates[id].bps);
      && RunNode(n, ps).rates[id].tLast == P.Run(n.rates[id].tLast, xs)
      && PodAdmitted(n, ps, id) == P.AcceptedBytes(n.rates[id].tLast, xs)
    decreases ps
  {
    if ps != [] {
      var n', bps := QosProgram.Step(n, ps[0]).0, n.rates[id].bps;
      PodStep(n, ps[0], id);
      PodPacerProjection(n', ps[1..], id);
      var rest := PodArrivals(n', ps[1..], id, bps);
      if PodOf(n, ps[0]) == Some(id) {
        assert ([P.Arrival(ps[0].clocks.pod, ps[0].stamp, ps[0].len, bps)] + rest)[1..] == rest;
      } else {
        assert PodArrivals(n, ps, id, bps) == rest;
      }
    }
  }

  lemma {:induction false} PodOffersClocked(n: Node, ps: seq<Arrived>, id: CgroupRateId, bps: u64)
    requires NodeClocked(ps)
    ensures var os := PodOffers(n, ps, id, bps);
      TokenBucket.Ordered(os)
      && forall k :: 0 <= k < |os| ==>
           os[k].bps == bps && ps[0].clocks.pod <= os[k].now <= ps[|ps| - 1].clocks.pod
    decreases ps
  {
    if ps != [] {
      PodOffersClocked(QosProgram.Step(n, ps[0]).0, ps[1..], id, bps);
    }
  }

  lemma {:induction false} PodArrivalsTimely(n: Node, ps: seq<Arrived>, id: CgroupRateId, bps: u64, from: nat, to: nat)
    requires NodeStamped(ps) && forall k :: 0 <= k < |ps| ==> from <= ps[k].clocks.pod <= to
    ensures var xs := PodArrivals(n, ps, id, bps);
      && P.Timely(xs) && |xs| <= |ps|
      && forall k :: 0 <= k < |xs| ==> xs[k].bps == bps && from <= xs[k].now <= to
    decreases ps
  {
    if ps != [] {
      var n' := QosProgram.Step(n, ps[0]).0;
      PodArrivalsTimely(n', ps[1..], id, bps, ps[0].clocks.pod, to);
      var rest := PodArrivals(n', ps[1..], id, bps);
      if PodOf(n, ps[0]) == Some(id) {
        P.TimelyCons(P.Arrival(ps[0].clocks.pod, ps[0].stamp, ps[0].len, bps), rest);
      } else {
        assert PodArrivals(n, ps, id, bps) == rest;
      }
    }
  }

  /** A pod with a limit of at least 1 MB gets at most one full bucket plus its limit times the time,
      whatever the rest of the node does. */
  lemma PodCeiling(n: Node, ps: seq<Arrived>, id: CgroupRateId)
    requires id in n.rates && MEGABYTE <= n.rates[id].bps && n.rates[id].slot <= n.rates[id].bps
    requires ShaperOf(n.edt, id.direction) == TokenBuckets && NodeClocked(ps) && ps != []
    ensures PodWithin(PodAdmitted(n, ps, id), n.rates[id].bps, ps)
    ensures PodWithin(PodBytes(n, ps, id), n.rates[id].bps, ps)
  {
    var bps := n.rates[id].bps;
    PodBytesAdmitted(n, ps, id);
    PodProjection(n, ps, id);
    PodOffersCeiling(n, ps, id, PodBucket(n, id), bps);
  }

  /** One full bucket plus the limit times the time of the run. */
  ghost predicate PodWithin(bytes: nat, bps: u64, ps: seq<Arrived>)
    requires ps != []
  {
    NSEC_PER_SEC * bytes <= NSEC_PER_SEC * bps + bps * (ps[|ps| - 1].clocks.pod - ps[0].clocks.pod)
  }

  ghost predicate PodHeld(n: Node, id: CgroupRateId)
    requires id in n.rates
  {
    forall ps: seq<Arrived> :: ps != [] && NodeClocked(ps) ==> PodWithin(PodAdmitted(n, ps, id), n.rates[id].bps, ps)
  }

  function Copies(p: Arrived, k: nat): (r: seq<Arrived>)
    ensures |r| == k && forall i :: 0 <= i < k ==> r[i] == p
    decreases k
  {
    if k == 0 then [] else [p] + Copies(p, k - 1)
  }

  lemma SmallLimitAdmits(n: Node, p: Arrived, id: CgroupRateId)
    requires id in n.rates && n.rates[id].bps < MEGABYTE && ShaperOf(n.edt, id.direction) == TokenBuckets
    requires PodOf(n, p) == Some(id)
    ensures var n' := QosProgram.Step(n, p).0;
      && Cgroup(n, p).1 == Ok && n'.pods == n.pods && n'.edt == n.edt
      && id in n'.rates && n'.rates[id].bps == n.rates[id].bps
  {
  }

  lemma {:induction false} CopiesAdmitted(n: Node, p: Arrived, id: CgroupRateId, k: nat)
    requires id in n.rates && n.rates[id].bps < MEGABYTE && ShaperOf(n.edt, id.direction) == TokenBuckets
    requires PodOf(n, p) == Some(id) && p.len == 1
    ensures PodAdmitted(n, Copies(p, k), id) == k
    decreases k
  {
    if k > 0 {
      assert Copies(p, k)[0] == p && Copies(p, k)[1..] == Copies(p, k - 1);
      SmallLimitAdmits(n, p, id);
      CopiesAdmitted(QosProgram.Step(n, p).0, p, id, k - 1);
    }
  }

  /** A pod some packet belongs to is held to its limit in every run exactly when the limit is at least 1 MB. */
  lemma PodCeilingExactly(n: Node, id: CgroupRateId, p: Arrived)
    requires id in n.rates && n.rates[id].slot <= n.rates[id].bps
    requires ShaperOf(n.edt, id.direction) == TokenBuckets && PodOf(n, p) == Some(id)
    ensures PodHeld(n, id) <==> MEGABYTE <= n.rates[id].bps
  {
    if MEGABYTE <= n.rates[id].bps {
      forall ps: seq<Arrived> | ps != [] && NodeClocked(ps)
        ensures PodWithin(PodAdmitted(n, ps, id), n.rates[id].bps, ps)
      {
        PodCeiling(n, ps, id);
      }
    } else {
      CopiesOverrun(n, id, p);
    }
  }

  lemma CopiesOverrun(n: Node, id: CgroupRateId, p: Arrived)
    requires id in n.rates && n.rates[id].bps < MEGABYTE
    requires ShaperOf(n.edt, id.direction) == TokenBuckets && PodOf(n, p) == Some(id)
    ensures var ps := Copies(p.(len := 1), n.rates[id].bps + 1);
      NodeClocked(ps) && !PodWithin(PodAdmitted(n, ps, id), n.rates[id].bps, ps)
  {
    CopiesAdmitted(n, p.(len := 1), id, n.rates[id].bps + 1);
    NoTimePasses(p.(len := 1), n.rates[id].bps + 1, n.rates[id].bps);
  }

  lemma NoTimePasses(p: Arrived, k: nat, bps: u64)
    requires k > bps
    ensures NodeClocked(Copies(p, k)) && !PodWithin(k, bps, Copies(p, k))
  {
    var ps := Copies(p, k);
    assert ps[|ps| - 1].clocks.pod - ps[0].clocks.pod == 0;
  }

  lemma PodOffersCeiling(n: Node, ps: seq<Arrived>, id: CgroupRateId, b: Bucket, bps: u64)
    requires MEGABYTE <= bps && b.tokens <= bps && NodeClocked(ps) && ps != []
    ensures NSEC_PER_SEC * TokenBucket.AcceptedBytes(b, PodOffers(n, ps, id, bps))
         <= NSEC_PER_SEC * bps + bps * (ps[|ps| - 1].clocks.pod - ps[0].clocks.pod)
  {
    PodOffersClocked(n, ps, id, bps);
    CeilingBetween(b, PodOffers(n, ps, id, bps), ps[0].clocks.pod, ps[|ps| - 1].clocks.pod, bps);
  }

  /** A paced pod, under any limit but zero: its limit times the time since its virtual clock, with the 2 s
      horizon and one truncation a packet. */
  lemma PodPacedCeiling(n: Node, since: u64, ps: seq<Arrived>, id: CgroupRateId)
    requires id in n.rates && n.rates[id].bps > 0 && since <= n.rates[id].tLast < since + T_HORIZON_DROP
    requires ShaperOf(n.edt, id.direction) == Pacers && NodeStamped(ps) && ps != [] && since <= ps[0].clocks.pod
    ensures NSEC_PER_SEC * PodBytes(n, ps, id)
         <= n.rates[id].bps * P.PacedSpan(since, ps[|ps| - 1].clocks.pod, |ps|)
  {
    var s := n.rates[id];
    PodBytesAdmitted(n, ps, id);
    PodPacerProjection(n, ps, id);
    PodArrivalsCeiling(n, since, ps, id, s.tLast, s.bps);
  }

  /** From an admitted packet of the pod on, whatever its clock before, as long as it was not 2 s ahead. */
  lemma PodPacedCeilingAfter(n: Node, p: Arrived, ps: seq<Arrived>, id: CgroupRateId)
    requires id in n.rates && n.rates[id].bps > 0 && n.rates[id].tLast < p.clocks.pod + T_HORIZON_DROP
    requires ShaperOf(n.edt, id.direction) == Pacers && PodOf(n, p) == Some(id) && Cgroup(n, p).1 == Ok
    requires NodeStamped([p]) && NodeStamped(ps) && ps != [] && p.clocks.pod <= ps[0].clocks.pod
    ensures NSEC_PER_SEC * PodBytes(QosProgram.Step(n, p).0, ps, id)
         <= n.rates[id].bps * P.PacedSpan(p.clocks.pod, ps[|ps| - 1].clocks.pod, |ps|)
  {
    var s := n.rates[id];
    PodStep(n, p, id);
    assert [p][0] == p;
    P.AcceptedClock(s.tLast, P.Arrival(p.clocks.pod, p.stamp, p.len, s.bps));
    PodPacedCeiling(QosProgram.Step(n, p).0, p.clocks.pod, ps, id);
  }

  lemma PodArrivalsCeiling(n: Node, since: u64, ps: seq<Arrived>, id: CgroupRateId, tLast: u64, bps: u64)
    requires bps > 0 && since <= tLast < since + T_HORIZON_DROP
    requires NodeStamped(ps) && ps != [] && since <= ps[0].clocks.pod
    ensures NSEC_PER_SEC * P.AcceptedBytes(tLast, PodArrivals(n, ps, id, bps))
         <= bps * P.PacedSpan(since, ps[|ps| - 1].clocks.pod, |ps|)
  {
    var to := ps[|ps| - 1].clocks.pod;
    PodArrivalsTimely(n, ps, id, bps, since, to);
    P.SentBetween(tLast, PodArrivals(n, ps, id, bps), since, to, |ps|, bps);
  }
}
