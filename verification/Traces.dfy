/** What whole packet traces guarantee: every run of `qos_global` over one direction, with the
    controller moving the limits while the packets pass. */
module Traces {

  import opened Words
  import opened TokenBucket
  import P = Pacer
  import opened Controller
  import opened GlobalRate

  /** One packet through `qos_global`: what the limiter sees, the clock when it is limited, the clock
      when an adjustment is considered, and the average the meter would then report. */
  datatype Packet = Packet(skb: Skb, now: u64, adjustNow: u64, avg: u64)

  datatype Outcome = Outcome(verdict: Verdict, stamp: u64)

  /** `qos_global`: limit, and on acceptance consider an adjustment. */
  function Step(shaper: Shaper, cfg: GlobalCfg, g: GlobalRate, p: Packet): (GlobalRate, Outcome) {
    var (g', v, stamp) := Limit(shaper, g, p.skb, p.now);
    (if v == Shot then g' else Adjust(cfg, g', p.adjustNow, p.avg), Outcome(v, stamp))
  }

  function RunPackets(shaper: Shaper, cfg: GlobalCfg, g: GlobalRate, ps: seq<Packet>): GlobalRate
    decreases ps
  {
    if ps == [] then g else RunPackets(shaper, cfg, Step(shaper, cfg, g, ps[0]).0, ps[1..])
  }

  predicate OfClass(p: Packet, c: ClassId) { p.skb.prio == c }

  function ClassBytes(shaper: Shaper, cfg: GlobalCfg, g: GlobalRate, ps: seq<Packet>, c: ClassId): nat
    decreases ps
  {
    if ps == [] then 0
    else
      var (g', o) := Step(shaper, cfg, g, ps[0]);
      (if OfClass(ps[0], c) && o.verdict == Ok then ps[0].skb.len else 0)
      + ClassBytes(shaper, cfg, g', ps[1..], c)
  }

  /** The outcomes of one class's packets, in order. */
  function ClassOutcomes(shaper: Shaper, cfg: GlobalCfg, g: GlobalRate, ps: seq<Packet>, c: ClassId): seq<Outcome>
    decreases ps
  {
    if ps == [] then []
    else
      var (g', o) := Step(shaper, cfg, g, ps[0]);
      (if OfClass(ps[0], c) then [o] else []) + ClassOutcomes(shaper, cfg, g', ps[1..], c)
  }

  ghost predicate Clocked(ps: seq<Packet>) {
    forall i, j :: 0 <= i < j < |ps| ==> ps[i].now <= ps[j].now
  }

  lemma {:induction false} RunSplit(shaper: Shaper, cfg: GlobalCfg, g: GlobalRate, ps: seq<Packet>, k: nat)
    requires k <= |ps|
    ensures RunPackets(shaper, cfg, g, ps) == RunPackets(shaper, cfg, RunPackets(shaper, cfg, g, ps[..k]), ps[k..])
    decreases ps
  {
    if k == 0 {
      assert ps[0..] == ps;
    } else {
      RunSplit(shaper, cfg, Step(shaper, cfg, g, ps[0]).0, ps[1..], k - 1);
      assert ps[..k][1..] == ps[1..][..k - 1] && ps[1..][k - 1..] == ps[k..];
    }
  }

  lemma FirstPacket(shaper: Shaper, cfg: GlobalCfg, g: GlobalRate, p: Packet, rest: seq<Packet>, c: ClassId)
    ensures var (g', o) := Step(shaper, cfg, g, p);
      && RunPackets(shaper, cfg, g, [p] + rest) == RunPackets(shaper, cfg, g', rest)
      && ClassBytes(shaper, cfg, g, [p] + rest, c)
         == (if OfClass(p, c) && o.verdict == Ok then p.skb.len else 0) + ClassBytes(shaper, cfg, g', rest, c)
  {
    assert ([p] + rest)[1..] == rest;
  }

  // ---- projection to one class ----

  /** The class's own packets with the limit in force when each arrives. */
  function Offers(shaper: Shaper, cfg: GlobalCfg, g: GlobalRate, ps: seq<Packet>, c: ClassId): seq<Offer>
    decreases ps
  {
    if ps == [] then []
    else
      (if OfClass(ps[0], c) then [Offer(ps[0].now, ps[0].skb.len, ClassOf(g, c).bps)] else [])
      + Offers(shaper, cfg, Step(shaper, cfg, g, ps[0]).0, ps[1..], c)
  }

  function Arrivals(shaper: Shaper, cfg: GlobalCfg, g: GlobalRate, ps: seq<Packet>, c: ClassId): seq<P.Arrival>
    decreases ps
  {
    if ps == [] then []
    else
      (if OfClass(ps[0], c) then [P.Arrival(ps[0].now, ps[0].skb.stamp, ps[0].skb.len, ClassOf(g, c).bps)] else [])
      + Arrivals(shaper, cfg, Step(shaper, cfg, g, ps[0]).0, ps[1..], c)
  }

  function BucketOf(g: GlobalRate, c: ClassId): Bucket { Bucket(ClassOf(g, c).slot, ClassOf(g, c).tLast) }

  /** A packet touches the bucket, or pacer, of its own class only. */
  lemma StepClass(shaper: Shaper, cfg: GlobalCfg, g: GlobalRate, p: Packet, c: ClassId)
    ensures var (g', o) := Step(shaper, cfg, g, p);
      if OfClass(p, c) then
        var (s, v, stamp) := LimitClass(shaper, ClassOf(g, c), p.skb, p.now);
        o == Outcome(v, stamp) && ClassOf(g', c).slot == s.slot && ClassOf(g', c).tLast == s.tLast
      else
        BucketOf(g', c) == BucketOf(g, c)
  {
  }

  function OutcomeVerdicts(os: seq<Outcome>): (r: seq<Verdict>)
    ensures |r| == |os| && forall i :: 0 <= i < |r| ==> r[i] == os[i].verdict
  {
    seq(|os|, i requires 0 <= i < |os| => os[i].verdict)
  }

  lemma OutcomeVerdictsConcat(a: seq<Outcome>, b: seq<Outcome>)
    ensures OutcomeVerdicts(a + b) == OutcomeVerdicts(a) + OutcomeVerdicts(b)
  {
  }

  /** Class independence: whatever the other classes do, a class's verdicts, bytes and final bucket are
      those of a lone bucket given the class's own packets at the limits in force. */
  lemma {:induction false} BucketProjection(cfg: GlobalCfg, g: GlobalRate, ps: seq<Packet>, c: ClassId)
    ensures var os := Offers(TokenBuckets, cfg, g, ps, c);
      && BucketOf(RunPackets(TokenBuckets, cfg, g, ps), c) == TokenBucket.Run(BucketOf(g, c), os)
      && OutcomeVerdicts(ClassOutcomes(TokenBuckets, cfg, g, ps, c)) == Verdicts(BucketOf(g, c), os)
      && ClassBytes(TokenBuckets, cfg, g, ps, c) == TokenBucket.AcceptedBytes(BucketOf(g, c), os)
    decreases ps
  {
    if ps != [] {
      var (g', o) := Step(TokenBuckets, cfg, g, ps[0]);
      StepClass(TokenBuckets, cfg, g, ps[0], c);
      BucketProjection(cfg, g', ps[1..], c);
      var rest := Offers(TokenBuckets, cfg, g', ps[1..], c);
      if OfClass(ps[0], c) {
        var first := Offer(ps[0].now, ps[0].skb.len, ClassOf(g, c).bps);
        assert Offers(TokenBuckets, cfg, g, ps, c) == [first] + rest && ([first] + rest)[1..] == rest;
        OutcomeVerdictsConcat([o], ClassOutcomes(TokenBuckets, cfg, g', ps[1..], c));
      } else {
        assert Offers(TokenBuckets, cfg, g, ps, c) == rest;
        assert ClassOutcomes(TokenBuckets, cfg, g, ps, c) == ClassOutcomes(TokenBuckets, cfg, g', ps[1..], c);
      }
    }
  }

  function PacedOutcomes(xs: seq<P.Paced>): (r: seq<Outcome>)
    ensures |r| == |xs| && forall i :: 0 <= i < |r| ==> r[i] == Outcome(xs[i].verdict, xs[i].stamp)
  {
    seq(|xs|, i requires 0 <= i < |xs| => Outcome(xs[i].verdict, xs[i].stamp))
  }

  /** The same for the pacers, stamps included. */
  lemma {:induction false} PacerProjection(cfg: GlobalCfg, g: GlobalRate, ps: seq<Packet>, c: ClassId)
    ensures var xs := Arrivals(Pacers, cfg, g, ps, c);
      && ClassOf(RunPackets(Pacers, cfg, g, ps), c).tLast == P.Run(ClassOf(g, c).tLast, xs)
      && ClassOutcomes(Pacers, cfg, g, ps, c) == PacedOutcomes(P.Outcomes(ClassOf(g, c).tLast, xs))
      && ClassBytes(Pacers, cfg, g, ps, c) == P.AcceptedBytes(ClassOf(g, c).tLast, xs)
    decreases ps
  {
    if ps != [] {
      var (g', o) := Step(Pacers, cfg, g, ps[0]);
      StepClass(Pacers, cfg, g, ps[0], c);
      PacerProjection(cfg, g', ps[1..], c);
      var rest := Arrivals(Pacers, cfg, g', ps[1..], c);
      if OfClass(ps[0], c) {
        var first := P.Arrival(ps[0].now, ps[0].skb.stamp, ps[0].skb.len, ClassOf(g, c).bps);
        assert Arrivals(Pacers, cfg, g, ps, c) == [first] + rest && ([first] + rest)[1..] == rest;
      } else {
        assert Arrivals(Pacers, cfg, g, ps, c) == rest;
        assert ClassOutcomes(Pacers, cfg, g, ps, c) == ClassOutcomes(Pacers, cfg, g', ps[1..], c);
      }
    }
  }

  /** A trace in which no adjustment changes a limit. */
  ghost predicate LimitsHeld(shaper: Shaper, cfg: GlobalCfg, g: GlobalRate, ps: seq<Packet>)
    decreases ps
  {
    ps == [] ||
    (LimitsOf(Step(shaper, cfg, g, ps[0]).0) == LimitsOf(g)
     && LimitsHeld(shaper, cfg, Step(shaper, cfg, g, ps[0]).0, ps[1..]))
  }

  /** The class's packets alone, at one limit: nothing of the other classes is left. */
  function Filtered(ps: seq<Packet>, c: ClassId, bps: u64): seq<Offer> {
    if ps == [] then []
    else (if OfClass(ps[0], c) then [Offer(ps[0].now, ps[0].skb.len, bps)] else []) + Filtered(ps[1..], c, bps)
  }

  function FilteredArrivals(ps: seq<Packet>, c: ClassId, bps: u64): seq<P.Arrival> {
    if ps == [] then []
    else (if OfClass(ps[0], c) then [P.Arrival(ps[0].now, ps[0].skb.stamp, ps[0].skb.len, bps)] else [])
         + FilteredArrivals(ps[1..], c, bps)
  }

  /** With the limits held, the projection does not depend on the other classes at all. */
  lemma {:induction false} HeldProjection(shaper: Shaper, cfg: GlobalCfg, g: GlobalRate, ps: seq<Packet>, c: ClassId)
    requires LimitsHeld(shaper, cfg, g, ps)
    ensures Offers(shaper, cfg, g, ps, c) == Filtered(ps, c, ClassOf(g, c).bps)
    ensures Arrivals(shaper, cfg, g, ps, c) == FilteredArrivals(ps, c, ClassOf(g, c).bps)
    decreases ps
  {
    if ps != [] {
      var g' := Step(shaper, cfg, g, ps[0]).0;
      assert LimitsOf(g') == LimitsOf(g);
      HeldProjection(shaper, cfg, g', ps[1..], c);
    }
  }

  /** Packets of no class are never limited: all pass as they are, and no class's bucket or pacer moves. */
  lemma {:induction false} NoClassUnlimited(shaper: Shaper, cfg: GlobalCfg, g: GlobalRate, ps: seq<Packet>, c: ClassId)
    requires forall i :: 0 <= i < |ps| ==> ps[i].skb.prio > 2
    ensures Outcomes(shaper, cfg, g, ps) == seq(|ps|, i requires 0 <= i < |ps| => Outcome(Ok, ps[i].skb.stamp))
    ensures BucketOf(RunPackets(shaper, cfg, g, ps), c) == BucketOf(g, c)
    decreases ps
  {
    if ps != [] {
      var (g', o) := Step(shaper, cfg, g, ps[0]);
      StepClass(shaper, cfg, g, ps[0], c);
      NoClassUnlimited(shaper, cfg, g', ps[1..], c);
      assert o == Outcome(Ok, ps[0].skb.stamp);
    }
  }

  function Outcomes(shaper: Shaper, cfg: GlobalCfg, g: GlobalRate, ps: seq<Packet>): (r: seq<Outcome>)
    ensures |r| == |ps|
    decreases ps
  {
    if ps == [] then []
    else [Step(shaper, cfg, g, ps[0]).1] + Outcomes(shaper, cfg, Step(shaper, cfg, g, ps[0]).0, ps[1..])
  }

  // ---- the controller inside a trace ----

  /** The averages of the adjustments that actually happen. */
  function Fired(shaper: Shaper, cfg: GlobalCfg, g: GlobalRate, ps: seq<Packet>): seq<u64>
    decreases ps
  {
    if ps == [] then []
    else
      var (g1, v, _) := Limit(shaper, g, ps[0].skb, ps[0].now);
      (if v == Ok && Due(g1, ps[0].adjustNow) then [ps[0].avg] else [])
      + Fired(shaper, cfg, Step(shaper, cfg, g, ps[0]).0, ps[1..])
  }

  lemma StepLimits(shaper: Shaper, cfg: GlobalCfg, g: GlobalRate, p: Packet)
    ensures var (g1, v, _) := Limit(shaper, g, p.skb, p.now);
      var g' := Step(shaper, cfg, g, p).0;
      && g1.tLast == g.tLast
      && if v == Ok && Due(g1, p.adjustNow)
         then LimitsOf(g') == Rebalance(cfg, LimitsOf(g), p.avg) && g'.tLast == p.adjustNow
         else LimitsOf(g') == LimitsOf(g) && g'.tLast == g.tLast
  {
  }

  /** A trace moves the limits as its adjustments do, one after the other, and in no other way. */
  lemma {:induction false} LimitsFollowAdjustments(shaper: Shaper, cfg: GlobalCfg, g: GlobalRate, ps: seq<Packet>)
    ensures LimitsOf(RunPackets(shaper, cfg, g, ps)) == RebalanceAll(cfg, LimitsOf(g), Fired(shaper, cfg, g, ps))
    decreases ps
  {
    if ps != [] {
      var g' := Step(shaper, cfg, g, ps[0]).0;
      StepLimits(shaper, cfg, g, ps[0]);
      LimitsFollowAdjustments(shaper, cfg, g', ps[1..]);
      var (g1, v, _) := Limit(shaper, g, ps[0].skb, ps[0].now);
      var rest := Fired(shaper, cfg, g', ps[1..]);
      if v == Ok && Due(g1, ps[0].adjustNow) {
        assert ([ps[0].avg] + rest)[1..] == rest;
      } else {
        assert Fired(shaper, cfg, g, ps) == rest;
      }
    }
  }

  /** The box of bounds is an invariant of every trace; from the zeroed map every limit ever reached
      is a whole number of megabytes under its ceiling. */
  lemma TraceKeepsBox(shaper: Shaper, cfg: GlobalCfg, g: GlobalRate, ps: seq<Packet>)
    requires WellFormed(cfg)
    ensures InBox(cfg, LimitsOf(g)) ==> InBox(cfg, LimitsOf(RunPackets(shaper, cfg, g, ps)))
    ensures LimitsOf(g) == ALL_ZERO ==> UnderCeilings(cfg, LimitsOf(RunPackets(shaper, cfg, g, ps)))
  {
    LimitsFollowAdjustments(shaper, cfg, g, ps);
    BoxKeptForever(cfg, LimitsOf(g), Fired(shaper, cfg, g, ps));
    UnderCeilingsFromZero(cfg, Fired(shaper, cfg, g, ps));
  }

  ghost predicate AdjustClocked(ps: seq<Packet>) {
    forall i, j :: 0 <= i < j < |ps| ==> ps[i].adjustNow <= ps[j].adjustNow
  }

  lemma {:induction false} FiredAfterLast(shaper: Shaper, cfg: GlobalCfg, g: GlobalRate, ps: seq<Packet>)
    requires AdjustClocked(ps) && ps != [] && g.tLast <= ps[0].adjustNow
    ensures g.tLast + |Fired(shaper, cfg, g, ps)| * NSEC_PER_SEC <= ps[|ps| - 1].adjustNow
    decreases ps
  {
    StepLimits(shaper, cfg, g, ps[0]);
    if |ps| > 1 {
      FiredAfterLast(shaper, cfg, Step(shaper, cfg, g, ps[0]).0, ps[1..]);
    }
  }

  /** Adjustments are at least a second apart: a window of T seconds holds at most T + 1. */
  lemma {:induction false} AdjustmentsSpaced(shaper: Shaper, cfg: GlobalCfg, g: GlobalRate, ps: seq<Packet>)
    requires AdjustClocked(ps) && ps != []
    ensures (|Fired(shaper, cfg, g, ps)| - 1) * NSEC_PER_SEC <= ps[|ps| - 1].adjustNow - ps[0].adjustNow
    decreases ps
  {
    var g' := Step(shaper, cfg, g, ps[0]).0;
    StepLimits(shaper, cfg, g, ps[0]);
    if |ps| > 1 {
      if g'.tLast == ps[0].adjustNow {
        FiredAfterLast(shaper, cfg, g', ps[1..]);
      } else {
        AdjustmentsSpaced(shaper, cfg, g', ps[1..]);
      }
    }
  }

  /** Sustained contention in a trace: enough adjustments, each seeing an average `d` MB/s or more above
      the hardware limit, leave exactly the floors. */
  lemma TraceContentionConverges(shaper: Shaper, cfg: GlobalCfg, g: GlobalRate, ps: seq<Packet>, d: nat)
    requires var fired := Fired(shaper, cfg, g, ps);
      d >= 1 && Contended(cfg, fired, d) && Excess(cfg, LimitsOf(g)) < |fired| * d
    ensures LimitsOf(RunPackets(shaper, cfg, g, ps)) == Floors(cfg)
  {
    LimitsFollowAdjustments(shaper, cfg, g, ps);
    ContentionConverges(cfg, LimitsOf(g), Fired(shaper, cfg, g, ps), d);
  }

  lemma TraceSlackConverges(shaper: Shaper, cfg: GlobalCfg, g: GlobalRate, ps: seq<Packet>, d: nat)
    requires var fired := Fired(shaper, cfg, g, ps);
      d >= 1 && Slack(cfg, fired, d) && Shortfall(cfg, LimitsOf(g)) < |fired| * d
    ensures LimitsOf(RunPackets(shaper, cfg, g, ps)) == Ceilings(cfg)
  {
    LimitsFollowAdjustments(shaper, cfg, g, ps);
    SlackConverges(cfg, LimitsOf(g), Fired(shaper, cfg, g, ps), d);
  }
}
