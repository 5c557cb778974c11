/** Agent and packets over one pair of tables: the rate map holds the limits the agent writes and the buckets
    behind them that packets use, and either may come next. */
module SharedTables {

  import opened Words
  import opened Options
  import opened TokenBucket
  import opened Meter
  import opened GlobalRate
  import opened QosProgram
  import opened BpfMaps
  import opened ControlPlane
  import opened EndToEnd
  import opened Classification

  /** The agent's cache, and the node with the tables both sides share. */
  datatype System = System(cache: map<string, Pod>, node: Node)

  datatype Event = Packet(p: Arrived) | Agent(op: Op)

  /** The shared tables as the agent reads them, and as it leaves them. */
  function TablesOf(n: Node): Tables {
    Tables(n.pods, map k | k in n.rates :: RateEntry(n.rates[k].bps, n.rates[k].tLast, n.rates[k].slot))
  }

  function WithTables(n: Node, t: Tables): Node {
    n.(pods := t.pods,
       rates := map k | k in t.rates :: ClassState(t.rates[k].limitBps, t.rates[k].lastTimestamp, t.rates[k].slot))
  }

  function PlaneOf(s: System): Plane { Plane(s.cache, TablesOf(s.node)) }

  function AgentStep(s: System, op: Op): System
    requires op.Changed? ==> |op.entries| == |op.choices|
  {
    var pl := Apply(PlaneOf(s), op).0;
    System(pl.cache, WithTables(s.node, pl.tables))
  }

  predicate Runnable(e: Event) { e.Agent? && e.op.Changed? ==> |e.op.entries| == |e.op.choices| }

  function StepSystem(s: System, e: Event): System
    requires Runnable(e)
  {
    match e
    case Packet(p) => s.(node := QosProgram.Step(s.node, p).0)
    case Agent(op) => AgentStep(s, op)
  }

  /** Every step of the agent is orderly and ends without an error. */
  ghost predicate ErrorFreeEvents(s: System, es: seq<Event>)
    decreases es
  {
    es == [] ||
    (&& (es[0].Agent? ==> Orderly(PlaneOf(s), es[0].op) && Apply(PlaneOf(s), es[0].op).1 == Done)
     && ErrorFreeEvents(StepSystem(s, es[0]), es[1..]))
  }

  ghost function RunSystem(s: System, es: seq<Event>): System
    requires ErrorFreeEvents(s, es)
    decreases es
  {
    if es == [] then s else RunSystem(StepSystem(s, es[0]), es[1..])
  }

  lemma AgentPlane(s: System, op: Op)
    requires op.Changed? ==> |op.entries| == |op.choices|
    ensures PlaneOf(AgentStep(s, op)) == Apply(PlaneOf(s), op).0
  {
    var pl := Apply(PlaneOf(s), op).0;
    assert TablesOf(WithTables(s.node, pl.tables)).rates == pl.tables.rates;
  }

  // ---- agreement while packets pass ----

  /** However agent and packets interleave, pod_map says what the cache implies, no more and no less. */
  lemma {:induction false} AgreementWhilePacketsPass(s: System, es: seq<Event>)
    requires InAgreement(PlaneOf(s)) && ErrorFreeEvents(s, es)
    ensures InAgreement(PlaneOf(RunSystem(s, es)))
    decreases es
  {
    if es != [] {
      match es[0] {
        case Packet(p) => StepKeepsTables(s.node, p);
        case Agent(op) =>
          AgentPlane(s, op);
          ApplyAgrees(PlaneOf(s), op);
      }
      AgreementWhilePacketsPass(StepSystem(s, es[0]), es[1..]);
    }
  }

  lemma SystemShares(s: System)
    ensures Shares(s.node, PlaneOf(s))
  {
  }

  /** So at any moment a packet meets the class and rate entry of the pod its address belongs to then. */
  lemma PacketMeetsItsPodAnytime(s: System, es: seq<Event>, p: Arrived)
    requires InAgreement(PlaneOf(s)) && ErrorFreeEvents(s, es) && !p.header.NotIp?
    ensures var s' := RunSystem(s, es); MeetsItsPod(PlaneOf(s'), s'.node, p)
  {
    AgreementWhilePacketsPass(s, es);
    SystemShares(RunSystem(s, es));
    PacketMeetsItsPod(PlaneOf(RunSystem(s, es)), RunSystem(s, es).node, p);
  }

  // ---- what the agent does to a bucket ----

  /** Every entry left is as it was, bucket included, or starts empty. */
  ghost predicate KeptOrFresh(m: RateTable, m': RateTable) {
    forall k :: k in m' ==> (k in m && m'[k] == m[k]) || (m'[k].lastTimestamp == 0 && m'[k].slot == 0)
  }

  lemma RateWriteKeepsOrStarts(m: RateTable, inode: u64, rx: u64, tx: u64)
    ensures KeptOrFresh(m, RateWrite(m, inode, rx, tx))
  {
  }

  lemma PodWriteKeepsOrStarts(t: Tables, p: Pod)
    ensures KeptOrFresh(t.rates, PodWrite(t, p).rates)
  {
    RateWriteKeepsOrStarts(t.rates, p.cgroup.inode, OrZero(p.rxBps), OrZero(p.txBps));
  }

  lemma {:induction false} LoopKeepsOrStarts(pl: Plane, es: seq<Entry>, cs: seq<Option<string>>)
    requires |es| == |cs|
    ensures KeptOrFresh(pl.tables.rates, Loop(pl, es, cs).plane.tables.rates)
    decreases |es|
  {
    if es != [] {
      var n := |es| - 1;
      LoopKeepsOrStarts(pl, es[..n], cs[..n]);
      VisitKeepsOrStarts(Loop(pl, es[..n], cs[..n]), es[n], cs[n]);
    }
  }

  lemma VisitKeepsOrStarts(s: Pass, e: Entry, choice: Option<string>)
    ensures KeptOrFresh(s.plane.tables.rates, Visit(s, e, choice).plane.tables.rates)
  {
    var cache := Overwritten(s.plane.cache, s.aliased, e);
    if choice.Some? && choice.value in cache {
      PodWriteKeepsOrStarts(s.plane.tables, Retargeted(cache[choice.value], e));
    }
  }

  lemma AgentKeepsOrStarts(pl: Plane, op: Op)
    requires op.Changed? ==> |op.entries| == |op.choices|
    ensures KeptOrFresh(pl.tables.rates, Apply(pl, op).0.tables.rates)
  {
    match op {
      case Update(pod, found, classOk) =>
        if pod.id in pl.cache || found.Some? { PodWriteKeepsOrStarts(pl.tables, Merged(pl.cache, pod, found)); }
      case Delete(id) =>
      case Changed(es, cs) => LoopKeepsOrStarts(pl, es, cs);
    }
  }

  /** One UpdatePod touches a bucket exactly when it changes its limit. */
  lemma UpdateKeepsBucketExactly(pl: Plane, pod: Pod, found: Option<PodCgroup>, classOk: bool, k: CgroupRateId)
    requires var m' := UpdateStep(pl, pod, found, classOk).0.tables.rates; k in pl.tables.rates && k in m'
    requires pl.tables.rates[k].limitBps != 0
    ensures var m' := UpdateStep(pl, pod, found, classOk).0.tables.rates;
      m'[k] == pl.tables.rates[k] <==> m'[k].limitBps == pl.tables.rates[k].limitBps
  {
  }

  // ---- limits over interleaved runs ----

  /** Bytes of a rate entry that pass the pod's own limit. */
  function Admitted(s: System, es: seq<Event>, id: CgroupRateId): nat
    requires forall i :: 0 <= i < |es| ==> Runnable(es[i])
    decreases es
  {
    if es == [] then 0
    else
      (match es[0]
       case Packet(p) => if PodOf(s.node, p) == Some(id) && Cgroup(s.node, p).1 == Ok then p.len else 0
       case Agent(_) => 0)
      + Admitted(StepSystem(s, es[0]), es[1..], id)
  }

  /** The agent's steps that replace the entry. */
  function Resets(s: System, es: seq<Event>, id: CgroupRateId): nat
    requires forall i :: 0 <= i < |es| ==> Runnable(es[i])
    decreases es
  {
    if es == [] then 0
    else
      var s' := StepSystem(s, es[0]);
      (if es[0].Agent? && id in s'.node.rates && id in s.node.rates && s'.node.rates[id] != s.node.rates[id]
       then 1 else 0)
      + Resets(s', es[1..], id)
  }

  /** At every moment the entry holds a limit from 1 MB to `top`. */
  ghost predicate Limited(s: System, es: seq<Event>, id: CgroupRateId, top: u64)
    requires forall i :: 0 <= i < |es| ==> Runnable(es[i])
    decreases es
  {
    id in s.node.rates && MEGABYTE <= s.node.rates[id].bps <= top
    && (es != [] ==> Limited(StepSystem(s, es[0]), es[1..], id, top))
  }

  /** The packets' clock readings do not go back, from one reading to another. */
  ghost predicate EventsClocked(es: seq<Event>, from: nat, to: nat)
    decreases es
  {
    if es == [] then from <= to
    else if es[0].Packet? then from <= es[0].p.clocks.pod <= to && EventsClocked(es[1..], es[0].p.clocks.pod, to)
    else EventsClocked(es[1..], from, to)
  }

  /** What the entry may still admit, in bytes times nanoseconds: its tokens and the time since its last packet when
      that is known to lie before `from`, a full bucket and the time from there otherwise. */
  function Allowance(s: ClassState, synced: bool, from: int, to: int, top: u64): int {
    if synced then NSEC_PER_SEC * s.slot + top * (to - s.tLast) else NSEC_PER_SEC * top + top * (to - from)
  }

  lemma {:induction false} EventsOrdered(es: seq<Event>, from: nat, to: nat)
    requires EventsClocked(es, from, to)
    ensures from <= to
    decreases es
  {
    if es != [] { EventsOrdered(es[1..], if es[0].Packet? then es[0].p.clocks.pod else from, to); }
  }

  lemma CallSpends(s: ClassState, now: u64, len: u64, synced: bool, from: nat, to: nat, top: u64)
    requires MEGABYTE <= s.bps <= top && s.slot <= top && from <= now <= to && (synced ==> s.tLast <= from)
    ensures var (b, v) := Admit(Bucket(s.slot, s.tLast), Offer(now, len, s.bps));
      && b.tokens <= top && b.tLast == now
      && NSEC_PER_SEC * (if v == Ok then len else 0)
         + Allowance(ClassState(s.bps, b.tLast, b.tokens), true, now, to, top)
         <= Allowance(s, synced, from, to, top)
  {
    var b, o := Bucket(s.slot, s.tLast), Offer(now, len, s.bps);
    AdmitCapped(b, o, top);
    if synced {
      AdmitUpper(b, o, top);
      MulDist(top, now - s.tLast, to - now);
    } else {
      MulMono(top, to - now, to - from);
    }
  }

  lemma WaitSpends(s: ClassState, synced: bool, from: int, now: int, to: int, top: u64)
    requires from <= now
    ensures Allowance(s, synced, now, to, top) <= Allowance(s, synced, from, to, top)
  {
    MulMono(top, to - now, to - from);
  }

  /** A packet spends what it takes from the allowance. */
  lemma PacketSpends(n: Node, p: Arrived, id: CgroupRateId, synced: bool, from: nat, to: nat, top: u64)
    requires id in n.rates && MEGABYTE <= n.rates[id].bps <= top && n.rates[id].slot <= top
    requires ShaperOf(n.edt, id.direction) == TokenBuckets
    requires from <= p.clocks.pod <= to && (synced ==> n.rates[id].tLast <= from)
    ensures var n', mine := QosProgram.Step(n, p).0, PodOf(n, p) == Some(id);
      var got := if mine && Cgroup(n, p).1 == Ok then p.len else 0;
      && n'.edt == n.edt && id in n'.rates && n'.rates[id].slot <= top
      && (synced || mine ==> n'.rates[id].tLast <= p.clocks.pod)
      && NSEC_PER_SEC * got + Allowance(n'.rates[id], synced || mine, p.clocks.pod, to, top)
         <= Allowance(n.rates[id], synced, from, to, top)
  {
    PodStep(n, p, id);
    if PodOf(n, p) == Some(id) {
      CallSpends(n.rates[id], p.clocks.pod, p.len, synced, from, to, top);
    } else {
      WaitSpends(n.rates[id], synced, from, p.clocks.pod, to, top);
    }
  }

  /** An agent's step keeps the entry, or spends one full bucket on replacing it. */
  lemma AgentSpends(s: System, op: Op, id: CgroupRateId, synced: bool, from: nat, to: nat, top: u64)
    requires op.Changed? ==> |op.entries| == |op.choices|
    requires id in s.node.rates && s.node.rates[id].slot <= top && from <= to
    requires id in AgentStep(s, op).node.rates && (synced ==> s.node.rates[id].tLast <= from)
    ensures var e, e' := s.node.rates[id], AgentStep(s, op).node.rates[id];
      && AgentStep(s, op).node.edt == s.node.edt && e'.slot <= top
      && (synced && e' == e ==> e'.tLast <= from)
      && Allowance(e', synced && e' == e, from, to, top)
         <= Allowance(e, synced, from, to, top) + (if e' == e then 0 else NSEC_PER_SEC * top)
  {
    AgentKeepsOrStarts(PlaneOf(s), op);
    var e := s.node.rates[id];
    if synced {
      MulMono(top, to - from, to - e.tLast);
    }
  }

  lemma NothingSpent(s: ClassState, synced: bool, from: int, to: int, top: u64)
    requires from <= to && (synced ==> s.tLast <= from)
    ensures Allowance(s, synced, from, to, top) >= 0
  {
    MulMono(top, 0, to - from);
    if synced { MulMono(top, 0, to - s.tLast); }
  }

  /** What the replacements cost: a full bucket each. */
  function Refunds(resets: nat, top: u64): nat { NSEC_PER_SEC * top * resets }

  lemma OneRefund(resets: nat, top: u64)
    ensures Refunds(0, top) == 0 && Refunds(resets + 1, top) == Refunds(resets, top) + NSEC_PER_SEC * top
  {
    MulDist(NSEC_PER_SEC * top, resets, 1);
  }

  /** However agent and packets interleave, an entry that keeps a real limit lets through at most one full bucket,
      one more for every time the agent replaces it, and the highest limit times the time. A limit written again
      unchanged costs nothing. */
  lemma {:induction false} InterleavedCeiling(s: System, es: seq<Event>, id: CgroupRateId, synced: bool,
                                             from: nat, to: nat, top: u64)
    requires forall i :: 0 <= i < |es| ==> Runnable(es[i])
    requires ShaperOf(s.node.edt, id.direction) == TokenBuckets
    requires Limited(s, es, id, top) && s.node.rates[id].slot <= top && EventsClocked(es, from, to)
    requires synced ==> s.node.rates[id].tLast <= from
    ensures NSEC_PER_SEC * Admitted(s, es, id)
         <= Allowance(s.node.rates[id], synced, from, to, top) + Refunds(Resets(s, es, id), top)
    decreases es
  {
    EventsOrdered(es, from, to);
    if es == [] {
      NothingSpent(s.node.rates[id], synced, from, to, top);
      OneRefund(0, top);
    } else {
      var s' := StepSystem(s, es[0]);
      match es[0] {
        case Packet(p) =>
          PacketSpends(s.node, p, id, synced, from, to, top);
          InterleavedCeiling(s', es[1..], id, synced || PodOf(s.node, p) == Some(id), p.clocks.pod, to, top);
        case Agent(op) =>
          AgentSpends(s, op, id, synced, from, to, top);
          var kept := s'.node.rates[id] == s.node.rates[id];
          InterleavedCeiling(s', es[1..], id, synced && kept, from, to, top);
          OneRefund(Resets(s', es[1..], id), top);
      }
    }
  }

  // ---- from annotations to traffic, while the agent works ----

  /** Bytes to or from a cached pod's addresses in one direction that pass the pod's own limit. */
  ghost function AddressedBytes(s: System, es: seq<Event>, d: Direction, id: string): nat
    requires forall i :: 0 <= i < |es| ==> Runnable(es[i])
    decreases es
  {
    if es == [] then 0
    else
      (match es[0]
       case Packet(p) => if Owns(PlaneOf(s), p, d, id) && Cgroup(s.node, p).1 == Ok then p.len else 0
       case Agent(_) => 0)
      + AddressedBytes(StepSystem(s, es[0]), es[1..], d, id)
  }

  /** The pod stays cached with its cgroup. */
  ghost predicate StaysCached(s: System, es: seq<Event>, id: string, inode: u64)
    requires forall i :: 0 <= i < |es| ==> Runnable(es[i])
    decreases es
  {
    id in s.cache && s.cache[id].cgroup.inode == inode
    && (es != [] ==> StaysCached(StepSystem(s, es[0]), es[1..], id, inode))
  }

  lemma {:induction false} AddressedIsAdmitted(s: System, es: seq<Event>, d: Direction, id: string, inode: u64)
    requires forall i :: 0 <= i < |es| ==> Runnable(es[i])
    requires InAgreement(PlaneOf(s)) && ErrorFreeEvents(s, es) && StaysCached(s, es, id, inode)
    ensures AddressedBytes(s, es, d, id) <= Admitted(s, es, CgroupRateId(inode, d))
    decreases es
  {
    if es != [] {
      match es[0] {
        case Packet(p) =>
          StepKeepsTables(s.node, p);
          SystemShares(s);
          if Owns(PlaneOf(s), p, d, id) { PacketMeetsItsPod(PlaneOf(s), s.node, p); }
        case Agent(op) =>
          AgentPlane(s, op);
          ApplyAgrees(PlaneOf(s), op);
      }
      AddressedIsAdmitted(StepSystem(s, es[0]), es[1..], d, id, inode);
    }
  }

  /** While a pod stays cached and its entry keeps a limit from 1 MB to `top`, its addresses get at most one full
      bucket, one more for every time the agent replaces the entry, and `top` times the time, whatever else the
      agent does between the packets. */
  lemma AddressedCeiling(s: System, es: seq<Event>, d: Direction, id: string, inode: u64, from: nat, to: nat, top: u64)
    requires forall i :: 0 <= i < |es| ==> Runnable(es[i])
    requires InAgreement(PlaneOf(s)) && ErrorFreeEvents(s, es) && StaysCached(s, es, id, inode)
    requires ShaperOf(s.node.edt, d) == TokenBuckets && EventsClocked(es, from, to)
    requires var k := CgroupRateId(inode, d); Limited(s, es, k, top) && s.node.rates[k].slot <= top
    ensures NSEC_PER_SEC * AddressedBytes(s, es, d, id)
         <= NSEC_PER_SEC * top + top * (to - from) + Refunds(Resets(s, es, CgroupRateId(inode, d)), top)
  {
    AddressedIsAdmitted(s, es, d, id, inode);
    InterleavedCeiling(s, es, CgroupRateId(inode, d), false, from, to, top);
  }
}
