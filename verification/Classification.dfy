/** From the pod cache to the packet: with the tables in agreement, the class, the rate entry and the limit a
    packet meets are those of the pod the address belongs to. */
module Classification {

  import opened Words
  import opened Options
  import opened TokenBucket
  import opened GlobalRate
  import opened Meter
  import opened AddressKeys
  import opened QosProgram
  import opened BpfMaps
  import opened ControlPlane
  import opened EndToEnd
  import P = Pacer

  /** The data plane reads the tables the control plane has written: the same pods, and the same rate entries
      with the same limits. Only the buckets behind the limits are its own. */
  ghost predicate Shares(n: Node, pl: Plane) {
    && n.pods == pl.tables.pods
    && n.rates.Keys == pl.tables.rates.Keys
    && forall id :: id in n.rates ==> n.rates[id].bps == pl.tables.rates[id].limitBps
  }

  /** Packets never change what the control plane has written. */
  lemma {:induction false} RunKeepsShared(n: Node, pl: Plane, ps: seq<Arrived>)
    requires Shares(n, pl)
    ensures Shares(RunNode(n, ps), pl)
    decreases ps
  {
    if ps != [] {
      StepKeepsShared(n, pl, ps[0]);
      RunKeepsShared(QosProgram.Step(n, ps[0]).0, pl, ps[1..]);
    }
  }

  lemma CgroupKeepsLimits(n: Node, p: Arrived)
    requires !p.header.NotIp?
    ensures var n1 := Cgroup(n, p).0;
      && n1.pods == n.pods && n1.rates.Keys == n.rates.Keys
      && forall id :: id in n.rates ==> n1.rates[id].bps == n.rates[id].bps
  {
  }

  lemma StepKeepsShared(n: Node, pl: Plane, p: Arrived)
    requires Shares(n, pl)
    ensures Shares(QosProgram.Step(n, p).0, pl)
  {
    if !p.header.NotIp? {
      var n1, n' := Cgroup(n, p).0, QosProgram.Step(n, p).0;
      assert n'.rates == n1.rates && n'.pods == n1.pods;
      CgroupKeepsLimits(n, p);
    }
  }

  /** The cached pod, with its own network, that an address belongs to. */
  ghost predicate OwnedBy(pl: Plane, a: Addr, id: string) {
    id in pl.cache && Ip2Addr(a) in Keys(pl.cache[id])
  }

  /** What a packet meets: the class and rate entry of the pod its address belongs to, or, when that is no pod
      of the cache, the class the host gives it and no pod's limit. */
  ghost predicate MeetsItsPod(pl: Plane, n: Node, p: Arrived)
    requires !p.header.NotIp?
  {
    var a := PodEnd(p.header, p.dir);
    && (forall id :: OwnedBy(pl, a, id) ==>
          Cgroup(n, p).2.prio == pl.cache[id].cgroup.classId
          && PodOf(n, p) == Some(CgroupRateId(pl.cache[id].cgroup.inode, p.dir)))
    && ((forall id :: !OwnedBy(pl, a, id)) ==>
          PodOf(n, p) == None
          && Cgroup(n, p).2.prio == (if p.classId.Some? then p.classId.value else p.prio))
  }

  lemma PacketMeetsItsPod(pl: Plane, n: Node, p: Arrived)
    requires InAgreement(pl) && Shares(n, pl) && !p.header.NotIp?
    ensures MeetsItsPod(pl, n, p)
  {
    var a, key := PodEnd(p.header, p.dir), PacketKey(p.header, p.dir);
    PlanesAgreeOnKeys(p.header, p.dir);
    forall id | OwnedBy(pl, a, id)
      ensures key in n.pods && n.pods[key] == InfoOf(pl.cache[id])
    {
      OwnerWrites(pl, id, key);
    }
    if key in n.pods {
      var id := WriterOwns(pl, key);
      assert OwnedBy(pl, a, id);
    }
  }

  lemma WriterOwns(pl: Plane, key: IpKey) returns (id: string)
    requires InAgreement(pl) && key in pl.tables.pods
    ensures id in pl.cache && key in Keys(pl.cache[id])
  {
    var o := ClaimsOf(pl.cache);
    id :| id in o && key in o[id].keys;
  }

  /** From a pod's priority to its packets: after a successful update a packet of the pod gets the class it asks for,
      or its cgroup's, and is held against the entry of its cgroup. */
  lemma PriorityReachesPacket(pl: Plane, pod: Pod, found: Option<PodCgroup>, classOk: bool, n: Node, p: Arrived)
    requires InAgreement(pl) && AddressesFree(pl.cache, pod)
    requires pod.id in pl.cache ==> Keys(pl.cache[pod.id]) <= Keys(pod)
    requires UpdateStep(pl, pod, found, classOk).1 == Done && Shares(n, UpdateStep(pl, pod, found, classOk).0)
    requires !p.header.NotIp? && !pod.hostNetwork
    requires pod.ipv4 == Some(PodEnd(p.header, p.dir)) || pod.ipv6 == Some(PodEnd(p.header, p.dir))
    ensures var before := if pod.id in pl.cache then pl.cache[pod.id].cgroup else found.value;
      && Cgroup(n, p).2.prio == ClassAsked(pod.prio, before.classId)
      && PodOf(n, p) == Some(CgroupRateId(before.inode, p.dir))
  {
    var pl' := UpdateStep(pl, pod, found, classOk).0;
    UpdateGivesClass(pl, pod, found, classOk);
    UpdateAgreesExactly(pl, pod, found, classOk);
    assert OwnedBy(pl', PodEnd(p.header, p.dir), pod.id);
    PacketMeetsItsPod(pl', n, p);
  }

  // ---- runs of packets ----

  /** Bytes to or from a cached pod's addresses that pass the whole program in one direction. */
  ghost function OwnedBytes(pl: Plane, n: Node, ps: seq<Arrived>, d: Direction, id: string): nat
    decreases ps
  {
    if ps == [] then 0
    else
      var (n', o) := QosProgram.Step(n, ps[0]);
      (if Owns(pl, ps[0], d, id) && o.verdict == Ok then ps[0].len else 0) + OwnedBytes(pl, n', ps[1..], d, id)
  }

  ghost predicate Owns(pl: Plane, p: Arrived, d: Direction, id: string) {
    p.dir == d && !p.header.NotIp? && OwnedBy(pl, PodEnd(p.header, d), id)
  }

  /** All a pod's traffic is held against its own entry. */
  lemma {:induction false} OwnedIsHeld(pl: Plane, n: Node, ps: seq<Arrived>, d: Direction, id: string)
    requires InAgreement(pl) && Shares(n, pl) && id in pl.cache
    ensures OwnedBytes(pl, n, ps, d, id) <= PodBytes(n, ps, CgroupRateId(pl.cache[id].cgroup.inode, d))
    decreases ps
  {
    if ps != [] {
      if Owns(pl, ps[0], d, id) { PacketMeetsItsPod(pl, n, ps[0]); }
      StepKeepsShared(n, pl, ps[0]);
      OwnedIsHeld(pl, QosProgram.Step(n, ps[0]).0, ps[1..], d, id);
    }
  }

  /** A pod whose limit stands in the agent's table as asked for, at 1 MB or more, is held to it: over any stretch
      of packets its addresses get at most one full bucket plus the limit times the time. */
  lemma AnnotatedCeiling(pl: Plane, n: Node, ps: seq<Arrived>, d: Direction, id: string, limit: u64)
    requires InAgreement(pl) && Shares(n, pl) && id in pl.cache && MEGABYTE <= limit
    requires var k := CgroupRateId(pl.cache[id].cgroup.inode, d);
      AsRequested(pl.tables.rates, k, limit) && (k in n.rates ==> n.rates[k].slot <= limit)
    requires ShaperOf(n.edt, d) == TokenBuckets && NodeClocked(ps) && ps != []
    ensures PodWithin(OwnedBytes(pl, n, ps, d, id), limit, ps)
  {
    var k := CgroupRateId(pl.cache[id].cgroup.inode, d);
    assert k in n.rates && n.rates[k].bps == limit;
    OwnedIsHeld(pl, n, ps, d, id);
    PodCeiling(n, ps, k);
  }

  /** The same where the direction is paced, under any limit but zero, from an admitted packet of the pod on. */
  lemma AnnotatedPacedCeiling(pl: Plane, n: Node, p: Arrived, ps: seq<Arrived>, d: Direction, id: string, limit: u64)
    requires InAgreement(pl) && Shares(n, pl) && id in pl.cache && 0 < limit
    requires var k := CgroupRateId(pl.cache[id].cgroup.inode, d);
      AsRequested(pl.tables.rates, k, limit)
      && (k in n.rates ==> n.rates[k].tLast < p.clocks.pod + T_HORIZON_DROP)
    requires ShaperOf(n.edt, d) == Pacers && Owns(pl, p, d, id) && Cgroup(n, p).1 == Ok
    requires NodeStamped([p]) && NodeStamped(ps) && ps != [] && p.clocks.pod <= ps[0].clocks.pod
    ensures NSEC_PER_SEC * OwnedBytes(pl, QosProgram.Step(n, p).0, ps, d, id)
         <= limit * P.PacedSpan(p.clocks.pod, ps[|ps| - 1].clocks.pod, |ps|)
  {
    var k := CgroupRateId(pl.cache[id].cgroup.inode, d);
    assert k in n.rates && n.rates[k].bps == limit;
    assert PodOf(n, p) == Some(k) by { PacketMeetsItsPod(pl, n, p); }
    StepKeepsShared(n, pl, p);
    OwnedIsHeld(pl, QosProgram.Step(n, p).0, ps, d, id);
    PodPacedCeilingAfter(n, p, ps, k);
  }

  function Annotated(pod: Pod, d: Direction): Option<u64> { if d == Ingress then pod.rxBps else pod.txBps }

  /** A new pod with its own network, written without an error. Only egress has an exception: an inode met before,
      whose ingress limit already stands as the annotation asks. */
  ghost predicate NewPod(pl: Plane, pod: Pod, found: Option<PodCgroup>, classOk: bool, d: Direction) {
    && InAgreement(pl) && AddressesFree(pl.cache, pod) && pod.id !in pl.cache && !pod.hostNetwork
    && UpdateStep(pl, pod, found, classOk).1 == Done
    && (d == Egress ==> !StopsEarly(pl.tables.rates, found.value.inode, OrZero(pod.rxBps)))
  }

  /** The annotation of a new pod stands in the table as asked for, and the tables agree. */
  lemma NewPodAsRequested(pl: Plane, pod: Pod, found: Option<PodCgroup>, classOk: bool, d: Direction)
    requires NewPod(pl, pod, found, classOk, d)
    ensures var pl' := UpdateStep(pl, pod, found, classOk).0;
      && InAgreement(pl') && pod.id in pl'.cache
      && AsRequested(pl'.tables.rates, CgroupRateId(pl'.cache[pod.id].cgroup.inode, d), OrZero(Annotated(pod, d)))
  {
    var p := Merged(pl.cache, pod, found);
    UpdateAgreesExactly(pl, pod, found, classOk);
    RateWriteOutcome(pl.tables.rates, p.cgroup.inode, OrZero(p.rxBps), OrZero(p.txBps));
  }

  /** From the annotation to the traffic: a pod the agent has just met, with a limit of 1 MB or more in its
      annotation, is held to that limit. */
  lemma NewPodCeiling(pl: Plane, pod: Pod, found: Option<PodCgroup>, classOk: bool, n: Node, ps: seq<Arrived>,
                      d: Direction)
    requires NewPod(pl, pod, found, classOk, d) && Annotated(pod, d).Some? && MEGABYTE <= Annotated(pod, d).value
    requires Shares(n, UpdateStep(pl, pod, found, classOk).0)
    requires forall k :: k in n.rates ==> n.rates[k].slot <= n.rates[k].bps
    requires ShaperOf(n.edt, d) == TokenBuckets && NodeClocked(ps) && ps != []
    ensures PodWithin(OwnedBytes(UpdateStep(pl, pod, found, classOk).0, n, ps, d, pod.id), Annotated(pod, d).value, ps)
  {
    NewPodAsRequested(pl, pod, found, classOk, d);
    AnnotatedCeiling(UpdateStep(pl, pod, found, classOk).0, n, ps, d, pod.id, Annotated(pod, d).value);
  }

  /** The same where the direction is paced, under any annotated limit but zero. */
  lemma NewPodPacedCeiling(pl: Plane, pod: Pod, found: Option<PodCgroup>, classOk: bool, n: Node,
                           p: Arrived, ps: seq<Arrived>, d: Direction)
    requires NewPod(pl, pod, found, classOk, d) && Annotated(pod, d).Some? && 0 < Annotated(pod, d).value
    requires Shares(n, UpdateStep(pl, pod, found, classOk).0)
    requires forall k :: k in n.rates ==> n.rates[k].tLast < p.clocks.pod + T_HORIZON_DROP
    requires ShaperOf(n.edt, d) == Pacers
    requires Owns(UpdateStep(pl, pod, found, classOk).0, p, d, pod.id) && Cgroup(n, p).1 == Ok
    requires NodeStamped([p]) && NodeStamped(ps) && ps != [] && p.clocks.pod <= ps[0].clocks.pod
    ensures NSEC_PER_SEC * OwnedBytes(UpdateStep(pl, pod, found, classOk).0, QosProgram.Step(n, p).0, ps, d, pod.id)
         <= Annotated(pod, d).value * P.PacedSpan(p.clocks.pod, ps[|ps| - 1].clocks.pod, |ps|)
  {
    NewPodAsRequested(pl, pod, found, classOk, d);
    AnnotatedPacedCeiling(UpdateStep(pl, pod, found, classOk).0, n, p, ps, d, pod.id, Annotated(pod, d).value);
  }

  // ---- histories of the control plane ----

  /** What a packet meets after any error-free history of the control plane, from its empty start. */
  lemma PacketMeetsItsPodAfter(ops: seq<Op>, n: Node, p: Arrived)
    requires ErrorFree(Plane(map[], Tables(map[], map[])), ops) && !p.header.NotIp?
    requires Shares(n, RunOps(Plane(map[], Tables(map[], map[])), ops))
    ensures MeetsItsPod(RunOps(Plane(map[], Tables(map[], map[])), ops), n, p)
  {
    AgreementFromStart(ops);
    PacketMeetsItsPod(RunOps(Plane(map[], Tables(map[], map[])), ops), n, p);
  }
}
