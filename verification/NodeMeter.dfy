/** What every packet does to the node besides its verdict: the meter counts each IP packet once, whoever it
    belongs to, before anything is limited, and the host limiter gets the packet as its pod left it. */
module NodeMeter {

  import opened Words
  import opened TokenBucket
  import opened Controller
  import opened AddressKeys
  import opened GlobalRate
  import opened QosProgram
  import opened EndToEnd
  import M = Meter
  import P = Pacer
  import T = Traces

  /** The IP packets as the meter sees them. */
  function TicksOf(ps: seq<Arrived>): seq<M.Tick> {
    if ps == [] then [] else TickOf(ps[0]) + TicksOf(ps[1..])
  }

  function TickOf(p: Arrived): seq<M.Tick> {
    if p.header.NotIp? then [] else [M.Tick(p.dir, p.len, p.clocks.count)]
  }

  /** Every IP packet is counted once, pods' and host's, passed or dropped, and nothing else moves the meter. */
  lemma {:induction false} MeterProjection(n: Node, ps: seq<Arrived>)
    ensures RunNode(n, ps).meter == M.Run(n.meter, TicksOf(ps))
    decreases ps
  {
    if ps != [] {
      var n' := QosProgram.Step(n, ps[0]).0;
      MeterStep(n, ps[0]);
      MeterProjection(n', ps[1..]);
      var rest := TicksOf(ps[1..]);
      if ps[0].header.NotIp? {
        assert TicksOf(ps) == rest;
      } else {
        assert ([M.Tick(ps[0].dir, ps[0].len, ps[0].clocks.count)] + rest)[1..] == rest;
      }
    }
  }

  lemma MeterStep(n: Node, p: Arrived)
    ensures QosProgram.Step(n, p).0.meter
      == if p.header.NotIp? then n.meter else M.Count(n.meter, p.dir, p.len, p.clocks.count).0
  {
  }

  /** Bytes of the IP packets of a direction. */
  function IpBytes(ps: seq<Arrived>, d: M.Direction): nat {
    if ps == [] then 0
    else (if ps[0].dir == d && !ps[0].header.NotIp? then ps[0].len else 0) + IpBytes(ps[1..], d)
  }

  lemma {:induction false} TicksOffer(ps: seq<Arrived>, d: M.Direction)
    ensures M.Offered(TicksOf(ps), d) == IpBytes(ps, d)
  {
    if ps != [] {
      TicksOffer(ps[1..], d);
      var rest := TicksOf(ps[1..]);
      if ps[0].header.NotIp? {
        assert TicksOf(ps) == rest;
      } else {
        assert ([M.Tick(ps[0].dir, ps[0].len, ps[0].clocks.count)] + rest)[1..] == rest;
      }
    }
  }

  /** Every byte of every IP packet that reaches the node is in exactly one closed window of its direction or still
      pending, dropped packets included. */
  lemma NodeBytesConserved(n: Node, ps: seq<Arrived>, d: M.Direction)
    requires M.RingOk(n.meter) && M.Pending(n.meter, d) + IpBytes(ps, d) < TWO64
    ensures M.Pending(n.meter, d) + IpBytes(ps, d)
         == M.ClosedBytes(n.meter, TicksOf(ps), d) + M.Pending(RunNode(n, ps).meter, d)
  {
    MeterProjection(n, ps);
    TicksOffer(ps, d);
    M.BytesConserved(n.meter, TicksOf(ps), d);
  }

  /** What the controller of a direction sees after a run depends on that direction's packets alone. */
  lemma NodeAveragesIsolated(n: Node, ps: seq<Arrived>, d: M.Direction, now: u64)
    requires M.RingOk(n.meter) && M.Settled(n.meter, M.Other(d))
    requires d == M.Egress ==> M.PromptIngress(n.meter, TicksOf(ps))
    ensures M.Average(RunNode(n, ps).meter, d, now)
         == M.Average(M.Run(n.meter, M.OfDirection(TicksOf(ps), d)), d, now)
  {
    MeterProjection(n, ps);
    M.AveragesIsolated(n.meter, TicksOf(ps), d, now);
  }

  // ---- the packet as the host limiter gets it ----

  /** The class the program gives a packet: its pod's, or what the host knows of it. */
  function ClassGiven(n: Node, p: Arrived): u32
    requires !p.header.NotIp?
  {
    var key := PacketKey(p.header, p.dir);
    if key in n.pods then n.pods[key].classId else if p.classId.Some? then p.classId.value else p.prio
  }

  /** The entry a packet is held against has a limit. */
  predicate HasLimit(n: Node, p: Arrived) {
    PodOf(n, p).Some? && PodOf(n, p).value in n.rates && n.rates[PodOf(n, p).value].bps > 0
  }

  /** What a limit makes of a packet: in the EDT build egress is paced and leaves with the pacer's stamp; everything
      else meets a bucket and keeps the stamp it had. */
  function Through(n: Node, s: ClassState, p: Arrived, stamp: u64, now: u64): (Verdict, u64) {
    if n.edt && p.dir == M.Egress then
      var x := P.Pace(s.tLast, P.Arrival(now, stamp, p.len, s.bps));
      (x.verdict, x.stamp)
    else (Admit(Bucket(s.slot, s.tLast), Offer(now, p.len, s.bps)).1, stamp)
  }

  /** What its pod's limit makes of a packet. */
  function Limited(n: Node, p: Arrived): (Verdict, u64) {
    if HasLimit(n, p) then Through(n, n.rates[PodOf(n, p).value], p, p.stamp, p.clocks.pod) else (Ok, p.stamp)
  }

  /** What reaches the host limiter: the class given, the whole length, the stamp the pod's limit left, and the
      average of a meter that has counted this packet too. */
  lemma EnteringExactly(n: Node, p: Arrived, d: M.Direction)
    requires !p.header.NotIp?
    ensures Reaches(n, p, d) <==> p.dir == d && Limited(n, p).0 == Ok
    ensures Entering(n, p) == T.Packet(
      Skb(ClassGiven(n, p), p.len, Limited(n, p).1), p.clocks.limit, p.clocks.adjust,
      M.Average(M.Run(n.meter, TicksOf([p])), p.dir, p.clocks.average))
  {
    assert [p][1..] == [] && [p][0] == p;
    assert TicksOf([p]) == [M.Tick(p.dir, p.len, p.clocks.count)];
    assert M.Run(n.meter, TicksOf([p])) == M.Count(n.meter, p.dir, p.len, p.clocks.count).0;
  }

  /** So in any run the controller decides on the average of all IP packets up to and including the one that
      triggers it. */
  lemma AverageDecidedOn(n: Node, ps: seq<Arrived>, p: Arrived)
    requires !p.header.NotIp?
    ensures Entering(RunNode(n, ps), p).avg
         == M.Average(M.Run(n.meter, TicksOf(ps + [p])), p.dir, p.clocks.average)
  {
    MeterProjection(n, ps);
    EnteringExactly(RunNode(n, ps), p, p.dir);
    TicksOfConcat(ps, p);
    RunConcat(n.meter, TicksOf(ps), TicksOf([p]));
  }

  lemma {:induction false} TicksOfConcat(ps: seq<Arrived>, p: Arrived)
    ensures TicksOf(ps + [p]) == TicksOf(ps) + TicksOf([p])
  {
    if ps == [] {
      assert ps + [p] == [p];
    } else {
      TicksOfConcat(ps[1..], p);
      FirstTick(ps, p);
      Associative(TickOf(ps[0]), TicksOf(ps[1..]), TicksOf([p]));
    }
  }

  lemma FirstTick(ps: seq<Arrived>, p: Arrived)
    requires ps != []
    ensures TicksOf(ps + [p]) == TickOf(ps[0]) + TicksOf(ps[1..] + [p])
  {
    var all := ps + [p];
    assert all[1..] == ps[1..] + [p] && all[0] == ps[0];
  }

  lemma Associative<A>(a: seq<A>, b: seq<A>, c: seq<A>)
    ensures (a + b) + c == a + (b + c)
  {
  }

  lemma {:induction false} RunConcat(s: M.Stats, a: seq<M.Tick>, b: seq<M.Tick>)
    ensures M.Run(s, a + b) == M.Run(M.Run(s, a), b)
    decreases a
  {
    if a == [] {
      assert a + b == b;
    } else {
      assert (a + b)[1..] == a[1..] + b && (a + b)[0] == a[0];
      RunConcat(M.Count(s, a[0].dir, a[0].len, a[0].now).0, a[1..], b);
    }
  }

  // ---- the verdict ----

  /** What the limit of its class makes of a packet that comes with a stamp; a packet of no class meets none. */
  function ClassLimited(n: Node, p: Arrived, stamp: u64): (Verdict, u64)
    requires !p.header.NotIp?
  {
    var g := if p.dir == M.Ingress then n.ingress else n.egress;
    match ClassGiven(n, p)
    case 0 => Through(n, g.l0, p, stamp, p.clocks.limit)
    case 1 => Through(n, g.l1, p, stamp, p.clocks.limit)
    case 2 => Through(n, g.l2, p, stamp, p.clocks.limit)
    case _ => (Ok, stamp)
  }

  /** A packet passes exactly when its pod's limit lets it and its class's limit does, and leaves with the stamp of
      the last limiter it met; one of no IP family passes as it is and changes nothing. */
  lemma VerdictExactly(n: Node, p: Arrived)
    ensures var (n', o) := QosProgram.Step(n, p);
      if p.header.NotIp? then n' == n && o == T.Outcome(Ok, p.stamp)
      else
        var (v, stamp) := Limited(n, p);
        var (w, last) := ClassLimited(n, p, stamp);
        o == if v == Shot then T.Outcome(Shot, stamp) else T.Outcome(w, last)
  {
  }

  /** The limits of a direction after a packet: moved by the direction's own configuration and average when the packet
      passes a second or more after the last adjustment, and by nothing else. */
  lemma AdjustmentExactly(n: Node, p: Arrived, d: M.Direction)
    requires !p.header.NotIp?
    ensures var (n', o) := QosProgram.Step(n, p);
      var g := if d == M.Ingress then n.ingress else n.egress;
      var g' := if d == M.Ingress then n'.ingress else n'.egress;
      var cfg := if d == M.Ingress then n.ingressCfg else n.egressCfg;
      if p.dir == d && o.verdict == Ok && (p.clocks.adjust - g.tLast) % TWO64 >= 1_000_000_000
      then
        && g'.tLast == p.clocks.adjust
        && LimitsOf(g') == Rebalance(cfg, LimitsOf(g), M.Average(M.Run(n.meter, TicksOf([p])), d, p.clocks.average))
      else g'.tLast == g.tLast && LimitsOf(g') == LimitsOf(g)
  {
    EnteringExactly(n, p, p.dir);
    StepShape(n, p, d);
    if Reaches(n, p, d) {
      T.StepLimits(ShaperOf(n.edt, d), CfgOf(n, d), GlobalOf(n, d), Entering(n, p));
    } else {
      NotReached(n, p, d);
    }
  }

  lemma NotReached(n: Node, p: Arrived, d: M.Direction)
    requires !p.header.NotIp? && !Reaches(n, p, d)
    ensures p.dir == d ==> QosProgram.Step(n, p).1.verdict == Shot
  {
  }
}
