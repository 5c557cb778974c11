/** "In a contention scenario, the bandwidth of L1 and L2 should not be lower than their respective lower
    limits": a sender that keeps to the lower limit of its class loses no packet, however low the controller
    pushes the class and whatever the other classes send, in either build. */
module LowerLimit {

  import opened Words
  import opened TokenBucket
  import opened Controller
  import opened GlobalRate
  import opened Traces
  import opened Filling
  import opened UpperLimit
  import P = Pacer

  lemma BoxedLimit(cfg: GlobalCfg, g: GlobalRate, c: ClassId)
    requires InBox(cfg, LimitsOf(g))
    ensures Bottom(cfg, c) <= ClassOf(g, c).bps <= Top(cfg, c)
  {
  }

  lemma StepKeepsBox(shaper: Shaper, cfg: GlobalCfg, g: GlobalRate, p: Packet)
    requires WellFormed(cfg) && InBox(cfg, LimitsOf(g))
    ensures InBox(cfg, LimitsOf(Step(shaper, cfg, g, p).0))
  {
    StepLimits(shaper, cfg, g, p);
    BoxKept(cfg, LimitsOf(g), p.avg);
  }

  ghost predicate AllPass(r: seq<Outcome>) { forall k :: 0 <= k < |r| ==> r[k].verdict == Ok }

  /** From the zeroed map, either build: after a contended adjustment the limits are inside the bounds. */
  lemma BoxedOnceContended(shaper: Shaper, cfg: GlobalCfg, history: seq<Packet>)
    requires WellFormed(cfg) && SomeContended(cfg, FiredIn(shaper, cfg, history))
    ensures InBox(cfg, LimitsOf(After(shaper, cfg, history)))
  {
    LimitsFollowAdjustments(shaper, cfg, ZERO_RATE, history);
    FromZero(cfg, FiredIn(shaper, cfg, history));
  }

  // ---- the token-bucket build ----

  ghost predicate Between(os: seq<Offer>, low: u64, high: u64) {
    forall k :: 0 <= k < |os| ==> low <= os[k].bps <= high
  }

  /** Every packet of the class meets a limit between the class's lower and upper limit. */
  lemma {:induction false} OffersBetween(cfg: GlobalCfg, g: GlobalRate, ps: seq<Packet>, c: ClassId)
    requires WellFormed(cfg) && InBox(cfg, LimitsOf(g))
    ensures Between(Offers(TokenBuckets, cfg, g, ps, c), Bottom(cfg, c), Top(cfg, c))
    decreases ps
  {
    if ps != [] {
      StepKeepsBox(TokenBuckets, cfg, g, ps[0]);
      OffersBetween(cfg, Step(TokenBuckets, cfg, g, ps[0]).0, ps[1..], c);
      BoxedLimit(cfg, g, c);
    }
  }

  /** The same calls, whatever the limits in force. */
  ghost predicate SameCalls(os: seq<Offer>, fs: seq<Offer>) {
    |os| == |fs| && forall k :: 0 <= k < |os| ==> os[k].now == fs[k].now && os[k].len == fs[k].len
  }

  lemma {:induction false} OffersAreMine(cfg: GlobalCfg, g: GlobalRate, ps: seq<Packet>, c: ClassId, bps: u64)
    ensures SameCalls(Offers(TokenBuckets, cfg, g, ps, c), Filtered(ps, c, bps))
    decreases ps
  {
    if ps != [] { OffersAreMine(cfg, Step(TokenBuckets, cfg, g, ps[0]).0, ps[1..], c, bps); }
  }

  lemma {:induction false} SameConformance(backlog: nat, tLast: u64, os: seq<Offer>, fs: seq<Offer>, rate: u64)
    requires SameCalls(os, fs) && Conforms(backlog, tLast, fs, rate)
    ensures Conforms(backlog, tLast, os, rate)
    decreases os
  {
    if os != [] {
      var next := Drained(backlog, tLast, os[0].now, rate) + NSEC_PER_SEC * os[0].len;
      SameConformance(next, os[0].now, os[1..], fs[1..], rate);
    }
  }

  lemma {:induction false} SameGaps(tLast: u64, os: seq<Offer>, fs: seq<Offer>, top: u64)
    requires SameCalls(os, fs) && ShortGaps(tLast, fs, top)
    ensures ShortGaps(tLast, os, top)
    decreases os
  {
    if os != [] { SameGaps(os[0].now, os[1..], fs[1..], top); }
  }

  /** The class's own packets, taken alone, keep to its lower limit, starting from the backlog its stored tokens
      leave. */
  ghost predicate KeepsToFloor(cfg: GlobalCfg, g: GlobalRate, ps: seq<Packet>, c: ClassId) {
    var b, rate := BucketOf(g, c), Bottom(cfg, c);
    Conforms(NSEC_PER_SEC * Max(0, rate - b.tokens), b.tLast, Filtered(ps, c, 0), rate)
  }

  /** Every refill of the class's bucket is the one that is due: no credit is lost to a wrap. */
  ghost predicate CreditsFit(cfg: GlobalCfg, g: GlobalRate, ps: seq<Packet>, c: ClassId) {
    DueRefills(BucketOf(g, c), Offers(TokenBuckets, cfg, g, ps, c))
  }

  /** That is so while the class is never silent so long that its upper limit times the microseconds wraps. */
  lemma ShortGapsFit(cfg: GlobalCfg, g: GlobalRate, ps: seq<Packet>, c: ClassId)
    requires WellFormed(cfg) && MEGABYTE <= FloorOf(cfg, c) && InBox(cfg, LimitsOf(g))
    requires ClassOf(g, c).slot <= Top(cfg, c) < TWO64 - 18_446_744_073_710
    requires ShortGaps(ClassOf(g, c).tLast, Filtered(ps, c, 0), Top(cfg, c))
    ensures CreditsFit(cfg, g, ps, c)
  {
    var b, os := BucketOf(g, c), Offers(TokenBuckets, cfg, g, ps, c);
    assert LimitedBy(os, Top(cfg, c)) by {
      OffersBetween(cfg, g, ps, c);
      assert MEGABYTE <= Bottom(cfg, c);
    }
    assert ShortGaps(b.tLast, os, Top(cfg, c)) by {
      OffersAreMine(cfg, g, ps, c, 0);
      SameGaps(b.tLast, os, Filtered(ps, c, 0), Top(cfg, c));
    }
    ShortGapsRefill(b, os, Top(cfg, c));
  }

  /** The lower limit, from any state inside the bounds. */
  lemma FloorServed(cfg: GlobalCfg, g: GlobalRate, ps: seq<Packet>, c: ClassId)
    requires WellFormed(cfg) && MEGABYTE <= FloorOf(cfg, c) && InBox(cfg, LimitsOf(g))
    requires KeepsToFloor(cfg, g, ps, c) && CreditsFit(cfg, g, ps, c)
    ensures AllPass(ClassOutcomes(TokenBuckets, cfg, g, ps, c))
  {
    var b, os, r := BucketOf(g, c), Offers(TokenBuckets, cfg, g, ps, c), ClassOutcomes(TokenBuckets, cfg, g, ps, c);
    assert AllOk(Verdicts(b, os)) by { OffersServed(cfg, g, ps, c); }
    assert OutcomeVerdicts(r) == Verdicts(b, os) by { BucketProjection(cfg, g, ps, c); }
    assert forall k :: 0 <= k < |r| ==> OutcomeVerdicts(r)[k] == r[k].verdict;
  }

  ghost predicate AllOk(vs: seq<Verdict>) { forall i :: 0 <= i < |vs| ==> vs[i] == Ok }

  lemma OffersServed(cfg: GlobalCfg, g: GlobalRate, ps: seq<Packet>, c: ClassId)
    requires WellFormed(cfg) && MEGABYTE <= FloorOf(cfg, c) && InBox(cfg, LimitsOf(g))
    requires KeepsToFloor(cfg, g, ps, c) && CreditsFit(cfg, g, ps, c)
    ensures AllOk(Verdicts(BucketOf(g, c), Offers(TokenBuckets, cfg, g, ps, c)))
  {
    var b, os, rate := BucketOf(g, c), Offers(TokenBuckets, cfg, g, ps, c), Bottom(cfg, c);
    var backlog := NSEC_PER_SEC * Max(0, rate - b.tokens);
    assert Between(os, rate, Top(cfg, c)) by { OffersBetween(cfg, g, ps, c); }
    assert Conforms(backlog, b.tLast, os, rate) by {
      OffersAreMine(cfg, g, ps, c, 0);
      SameConformance(backlog, b.tLast, os, Filtered(ps, c, 0), rate);
    }
    ConformingNeverDropped(b, os, rate, backlog);
  }

  /** The lower limit, from the zeroed map: in force from the first contention on. */
  lemma FloorServedOnceContended(cfg: GlobalCfg, history: seq<Packet>, ps: seq<Packet>, c: ClassId)
    requires WellFormed(cfg) && MEGABYTE <= FloorOf(cfg, c)
    requires SomeContended(cfg, FiredIn(TokenBuckets, cfg, history))
    requires var g := After(TokenBuckets, cfg, history); KeepsToFloor(cfg, g, ps, c) && CreditsFit(cfg, g, ps, c)
    ensures AllPass(ClassOutcomes(TokenBuckets, cfg, After(TokenBuckets, cfg, history), ps, c))
  {
    BoxedOnceContended(TokenBuckets, cfg, history);
    FloorServed(cfg, After(TokenBuckets, cfg, history), ps, c);
  }

  // ---- the pacer build ----

  ghost predicate AtLeast(xs: seq<P.Arrival>, low: u64) { forall k :: 0 <= k < |xs| ==> low <= xs[k].bps }

  lemma {:induction false} ArrivalsAtLeast(cfg: GlobalCfg, g: GlobalRate, ps: seq<Packet>, c: ClassId)
    requires WellFormed(cfg) && InBox(cfg, LimitsOf(g))
    ensures AtLeast(Arrivals(Pacers, cfg, g, ps, c), Bottom(cfg, c))
    decreases ps
  {
    if ps != [] {
      StepKeepsBox(Pacers, cfg, g, ps[0]);
      ArrivalsAtLeast(cfg, Step(Pacers, cfg, g, ps[0]).0, ps[1..], c);
      BoxedLimit(cfg, g, c);
    }
  }

  ghost predicate SameArrivals(xs: seq<P.Arrival>, fs: seq<P.Arrival>) {
    |xs| == |fs| && forall k :: 0 <= k < |xs| ==> xs[k] == fs[k].(bps := xs[k].bps)
  }

  lemma {:induction false} ArrivalsAreMine(cfg: GlobalCfg, g: GlobalRate, ps: seq<Packet>, c: ClassId, bps: u64)
    ensures SameArrivals(Arrivals(Pacers, cfg, g, ps, c), FilteredArrivals(ps, c, bps))
    decreases ps
  {
    if ps != [] { ArrivalsAreMine(cfg, Step(Pacers, cfg, g, ps[0]).0, ps[1..], c, bps); }
  }

  lemma {:induction false} SamePacedConformance(clock: nat, xs: seq<P.Arrival>, fs: seq<P.Arrival>, rate: u64)
    requires SameArrivals(xs, fs) && P.Conforms(clock, fs, rate)
    ensures P.Conforms(clock, xs, rate)
    decreases xs
  {
    if xs != [] {
      SamePacedConformance(Max(P.Ready(xs[0]), clock + P.Delay(xs[0].len, rate)), xs[1..], fs[1..], rate);
    }
  }

  /** The class's own packets, taken alone, keep to its lower limit, starting from its virtual clock. */
  ghost predicate PacesToFloor(cfg: GlobalCfg, g: GlobalRate, ps: seq<Packet>, c: ClassId) {
    P.Conforms(ClassOf(g, c).tLast, FilteredArrivals(ps, c, 0), Bottom(cfg, c))
  }

  /** The lower limit where the class is paced, from any state inside the bounds, however packets are stamped. */
  lemma PacedFloorServed(cfg: GlobalCfg, g: GlobalRate, ps: seq<Packet>, c: ClassId)
    requires WellFormed(cfg) && MEGABYTE <= FloorOf(cfg, c) && InBox(cfg, LimitsOf(g))
    requires PacesToFloor(cfg, g, ps, c)
    ensures AllPass(ClassOutcomes(Pacers, cfg, g, ps, c))
  {
    var tLast, xs, rate := ClassOf(g, c).tLast, Arrivals(Pacers, cfg, g, ps, c), Bottom(cfg, c);
    assert AtLeast(xs, rate) by { ArrivalsAtLeast(cfg, g, ps, c); }
    assert P.Conforms(tLast, xs, rate) by {
      ArrivalsAreMine(cfg, g, ps, c, 0);
      SamePacedConformance(tLast, xs, FilteredArrivals(ps, c, 0), rate);
    }
    P.ConformingNeverDropped(tLast, xs, rate, tLast);
    PacerProjection(cfg, g, ps, c);
  }

  lemma PacedFloorServedOnceContended(cfg: GlobalCfg, history: seq<Packet>, ps: seq<Packet>, c: ClassId)
    requires WellFormed(cfg) && MEGABYTE <= FloorOf(cfg, c)
    requires SomeContended(cfg, FiredIn(Pacers, cfg, history)) && PacesToFloor(cfg, After(Pacers, cfg, history), ps, c)
    ensures AllPass(ClassOutcomes(Pacers, cfg, After(Pacers, cfg, history), ps, c))
  {
    BoxedOnceContended(Pacers, cfg, history);
    PacedFloorServed(cfg, After(Pacers, cfg, history), ps, c);
  }
}
