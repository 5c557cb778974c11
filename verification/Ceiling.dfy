/** "Under any circumstances, the bandwidth of L1 and L2 should not exceed their respective upper limits":
    what holds over every packet trace, with the controller moving the limits, once a class is under
    control. Module UpperLimit says exactly when that is. */
module Ceiling {

  import opened Words
  import opened TokenBucket
  import P = Pacer
  import opened Controller
  import opened GlobalRate
  import opened Traces

  /** The class has a limit of at least 1 MB, no higher than its upper limit, and at most a full bucket. */
  ghost predicate UnderControl(cfg: GlobalCfg, g: GlobalRate, c: ClassId) {
    RealLimit(ClassOf(g, c).bps, CeilingOf(cfg, c)) && ClassOf(g, c).slot <= Top(cfg, c)
  }

  lemma StepKeepsRealLimit(shaper: Shaper, cfg: GlobalCfg, g: GlobalRate, p: Packet, c: ClassId)
    requires WellFormed(cfg) && MEGABYTE <= FloorOf(cfg, c)
    requires RealLimit(ClassOf(g, c).bps, CeilingOf(cfg, c))
    ensures RealLimit(ClassOf(Step(shaper, cfg, g, p).0, c).bps, CeilingOf(cfg, c))
  {
    StepLimits(shaper, cfg, g, p);
    RealLimitsKept(cfg, LimitsOf(g), p.avg);
    var g' := Step(shaper, cfg, g, p).0;
    assert LimitsOf(g') == Limits(g'.l0.bps, g'.l1.bps, g'.l2.bps);
  }

  /** Every packet of the class meets a real limit, and the class's packets inherit the clock. */
  lemma {:induction false} OffersInForce(shaper: Shaper, cfg: GlobalCfg, g: GlobalRate, ps: seq<Packet>, c: ClassId)
    requires WellFormed(cfg) && MEGABYTE <= FloorOf(cfg, c)
    requires RealLimit(ClassOf(g, c).bps, CeilingOf(cfg, c))
    ensures LimitedBy(Offers(shaper, cfg, g, ps, c), Top(cfg, c))
    ensures RealLimit(ClassOf(RunPackets(shaper, cfg, g, ps), c).bps, CeilingOf(cfg, c))
    decreases ps
  {
    if ps != [] {
      StepKeepsRealLimit(shaper, cfg, g, ps[0], c);
      OffersInForce(shaper, cfg, Step(shaper, cfg, g, ps[0]).0, ps[1..], c);
    }
  }

  lemma {:induction false} OffersClocked(shaper: Shaper, cfg: GlobalCfg, g: GlobalRate, ps: seq<Packet>, c: ClassId)
    requires Clocked(ps)
    ensures var os := Offers(shaper, cfg, g, ps, c);
      Ordered(os) && forall k :: 0 <= k < |os| ==> ps[0].now <= os[k].now <= ps[|ps| - 1].now
    decreases ps
  {
    if ps != [] {
      OffersClocked(shaper, cfg, Step(shaper, cfg, g, ps[0]).0, ps[1..], c);
    }
  }

  /** A whole run from a controlled state: at most one full bucket plus the upper limit times the time. */
  lemma CeilingFromHere(cfg: GlobalCfg, g: GlobalRate, ps: seq<Packet>, c: ClassId)
    requires WellFormed(cfg) && MEGABYTE <= FloorOf(cfg, c)
    requires UnderControl(cfg, g, c) && Clocked(ps) && ps != []
    ensures NSEC_PER_SEC * ClassBytes(TokenBuckets, cfg, g, ps, c)
         <= NSEC_PER_SEC * Top(cfg, c) + Top(cfg, c) * (ps[|ps| - 1].now - ps[0].now)
    ensures UnderControl(cfg, RunPackets(TokenBuckets, cfg, g, ps), c)
  {
    OffersInForce(TokenBuckets, cfg, g, ps, c);
    OffersCeiling(cfg, g, ps, c, Top(cfg, c));
  }

  /** Any bound on the class's limits and tokens bounds what the class gets through. */
  lemma OffersCeiling(cfg: GlobalCfg, g: GlobalRate, ps: seq<Packet>, c: ClassId, top: u64)
    requires LimitedBy(Offers(TokenBuckets, cfg, g, ps, c), top) && ClassOf(g, c).slot <= top
    requires Clocked(ps) && ps != []
    ensures NSEC_PER_SEC * ClassBytes(TokenBuckets, cfg, g, ps, c)
         <= NSEC_PER_SEC * top + top * (ps[|ps| - 1].now - ps[0].now)
    ensures ClassOf(RunPackets(TokenBuckets, cfg, g, ps), c).slot <= top
  {
    var b, os := BucketOf(g, c), Offers(TokenBuckets, cfg, g, ps, c);
    var from, to := ps[0].now, ps[|ps| - 1].now;
    assert TokenBucket.Ordered(os) && from <= to && forall k :: 0 <= k < |os| ==> from <= os[k].now <= to by {
      OffersClocked(TokenBuckets, cfg, g, ps, c);
    }
    CeilingBetween(b, os, from, to, top);
    assert ClassBytes(TokenBuckets, cfg, g, ps, c) == TokenBucket.AcceptedBytes(b, os)
      && BucketOf(RunPackets(TokenBuckets, cfg, g, ps), c) == TokenBucket.Run(b, os) by {
      BucketProjection(cfg, g, ps, c);
    }
  }

  /** The same for a trace, possibly empty, that lies between two clock readings. */
  lemma CeilingBetweenReadings(cfg: GlobalCfg, g: GlobalRate, ps: seq<Packet>, c: ClassId, from: nat, to: nat)
    requires WellFormed(cfg) && MEGABYTE <= FloorOf(cfg, c) && UnderControl(cfg, g, c)
    requires Clocked(ps) && from <= to && forall k :: 0 <= k < |ps| ==> from <= ps[k].now <= to
    ensures NSEC_PER_SEC * ClassBytes(TokenBuckets, cfg, g, ps, c)
         <= NSEC_PER_SEC * Top(cfg, c) + Top(cfg, c) * (to - from)
    ensures UnderControl(cfg, RunPackets(TokenBuckets, cfg, g, ps), c)
  {
    if ps == [] {
      MulMono(Top(cfg, c), 0, to - from);
    } else {
      CeilingFromHere(cfg, g, ps, c);
      MulMono(Top(cfg, c), ps[|ps| - 1].now - ps[0].now, to - from);
    }
  }

  /** The upper limit, end to end in the token-bucket build: in every trace and every window between
      two packets of it, whatever the meter reports and however the controller moves the limit. */
  lemma WindowCeilingOfTrace(cfg: GlobalCfg, g: GlobalRate, ps: seq<Packet>, c: ClassId, i: nat, j: nat)
    requires WellFormed(cfg) && MEGABYTE <= FloorOf(cfg, c)
    requires UnderControl(cfg, g, c) && Clocked(ps) && i <= j < |ps|
    ensures var start := RunPackets(TokenBuckets, cfg, g, ps[..i]);
      NSEC_PER_SEC * ClassBytes(TokenBuckets, cfg, start, ps[i..j + 1], c)
      <= NSEC_PER_SEC * Top(cfg, c) + Top(cfg, c) * (ps[j].now - ps[i].now)
  {
    if i > 0 { CeilingFromHere(cfg, g, ps[..i], c); }
    CeilingFromHere(cfg, RunPackets(TokenBuckets, cfg, g, ps[..i]), ps[i..j + 1], c);
  }

  // ---- the pacer build ----

  lemma {:induction false} ArrivalsInForce(cfg: GlobalCfg, g: GlobalRate, ps: seq<Packet>, c: ClassId)
    requires WellFormed(cfg) && MEGABYTE <= FloorOf(cfg, c)
    requires RealLimit(ClassOf(g, c).bps, CeilingOf(cfg, c))
    ensures P.PacedBy(Arrivals(Pacers, cfg, g, ps, c), Top(cfg, c))
    decreases ps
  {
    if ps != [] {
      StepKeepsRealLimit(Pacers, cfg, g, ps[0], c);
      ArrivalsInForce(cfg, Step(Pacers, cfg, g, ps[0]).0, ps[1..], c);
    }
  }

  /** Nondecreasing clock in its first 292 years, and incoming stamps less than 2 s ahead of it. */
  ghost predicate StampedInTime(ps: seq<Packet>) {
    && Clocked(ps)
    && forall i :: 0 <= i < |ps| ==>
         ps[i].now < 0x8000_0000_0000_0000 && ps[i].skb.stamp < ps[i].now + T_HORIZON_DROP
  }

  lemma {:induction false} ArrivalsTimely(cfg: GlobalCfg, g: GlobalRate, ps: seq<Packet>, c: ClassId,
                                         from: nat, to: nat)
    requires StampedInTime(ps) && forall k :: 0 <= k < |ps| ==> from <= ps[k].now <= to
    ensures var xs := Arrivals(Pacers, cfg, g, ps, c);
      P.Timely(xs) && forall k :: 0 <= k < |xs| ==> from <= xs[k].now <= to
    decreases ps
  {
    if ps != [] {
      var g' := Step(Pacers, cfg, g, ps[0]).0;
      ArrivalsTimely(cfg, g', ps[1..], c, ps[0].now, to);
      var rest := Arrivals(Pacers, cfg, g', ps[1..], c);
      if OfClass(ps[0], c) {
        P.TimelyCons(P.Arrival(ps[0].now, ps[0].skb.stamp, ps[0].skb.len, ClassOf(g, c).bps), rest);
      } else {
        assert Arrivals(Pacers, cfg, g, ps, c) == rest;
      }
    }
  }

  lemma {:induction false} ArrivalsNoMore(cfg: GlobalCfg, g: GlobalRate, ps: seq<Packet>, c: ClassId)
    ensures |Arrivals(Pacers, cfg, g, ps, c)| <= |ps|
    decreases ps
  {
    if ps != [] { ArrivalsNoMore(cfg, Step(Pacers, cfg, g, ps[0]).0, ps[1..], c); }
  }

  /** A trace, possibly empty, of at most `n` packets between two clock readings, from a virtual clock near
      the first: any bound on the class's limits bounds what the class sends. */
  lemma ArrivalsCeiling(cfg: GlobalCfg, g: GlobalRate, since: nat, ps: seq<Packet>, c: ClassId,
                        to: nat, n: nat, top: u64)
    requires P.PacedBy(Arrivals(Pacers, cfg, g, ps, c), top) && StampedInTime(ps) && |ps| <= n
    requires since <= ClassOf(g, c).tLast < since + T_HORIZON_DROP && since <= to
    requires forall k :: 0 <= k < |ps| ==> since <= ps[k].now <= to
    ensures NSEC_PER_SEC * ClassBytes(Pacers, cfg, g, ps, c) <= top * P.PacedSpan(since, to, n)
  {
    var xs := Arrivals(Pacers, cfg, g, ps, c);
    ArrivalsTimely(cfg, g, ps, c, since, to);
    ArrivalsNoMore(cfg, g, ps, c);
    P.SentBetween(ClassOf(g, c).tLast, xs, since, to, n, top);
    PacerProjection(cfg, g, ps, c);
  }

  lemma PacedBetweenReadings(cfg: GlobalCfg, g: GlobalRate, since: nat, ps: seq<Packet>, c: ClassId, to: nat, n: nat)
    requires WellFormed(cfg) && MEGABYTE <= FloorOf(cfg, c) && RealLimit(ClassOf(g, c).bps, CeilingOf(cfg, c))
    requires since <= ClassOf(g, c).tLast < since + T_HORIZON_DROP && since <= to
    requires StampedInTime(ps) && |ps| <= n && forall k :: 0 <= k < |ps| ==> since <= ps[k].now <= to
    ensures NSEC_PER_SEC * ClassBytes(Pacers, cfg, g, ps, c) <= Top(cfg, c) * P.PacedSpan(since, to, n)
  {
    ArrivalsInForce(cfg, g, ps, c);
    ArrivalsCeiling(cfg, g, since, ps, c, to, n, Top(cfg, c));
  }

  /** The upper limit in the pacer build: once a packet of the class has been accepted, the class sends
      at most its upper limit times the clock distance plus the 2 s horizon, with one truncation a packet. */
  lemma PacedCeiling(cfg: GlobalCfg, g: GlobalRate, ps: seq<Packet>, c: ClassId)
    requires WellFormed(cfg) && MEGABYTE <= FloorOf(cfg, c)
    requires ps != [] && StampedInTime(ps)
    requires RealLimit(ClassOf(g, c).bps, CeilingOf(cfg, c)) && ClassOf(g, c).tLast < ps[0].now + T_HORIZON_DROP
    requires OfClass(ps[0], c) && Step(Pacers, cfg, g, ps[0]).1.verdict == Ok
    ensures NSEC_PER_SEC * ClassBytes(Pacers, cfg, Step(Pacers, cfg, g, ps[0]).0, ps[1..], c)
         <= Top(cfg, c) * P.PacedSpan(ps[0].now, ps[|ps| - 1].now, |ps| - 1)
  {
    AcceptedSetsClock(cfg, g, ps[0], c);
    StepKeepsRealLimit(Pacers, cfg, g, ps[0], c);
    var g' := Step(Pacers, cfg, g, ps[0]).0;
    PacedBetweenReadings(cfg, g', ps[0].now, ps[1..], c, ps[|ps| - 1].now, |ps| - 1);
  }

  lemma AcceptedSetsClock(cfg: GlobalCfg, g: GlobalRate, p: Packet, c: ClassId)
    requires ClassOf(g, c).tLast < p.now + T_HORIZON_DROP && p.now < 0x8000_0000_0000_0000
    requires p.skb.stamp < p.now + T_HORIZON_DROP
    requires OfClass(p, c) && Step(Pacers, cfg, g, p).1.verdict == Ok
    ensures p.now <= ClassOf(Step(Pacers, cfg, g, p).0, c).tLast < p.now + T_HORIZON_DROP
  {
    StepClass(Pacers, cfg, g, p, c);
    P.PaceTimely(ClassOf(g, c).tLast, P.Arrival(p.now, p.skb.stamp, p.skb.len, ClassOf(g, c).bps));
  }
}
