/** A change of configuration while packets pass: exactly when a class is under its new upper limit, from
    whatever state the old configuration left, and what it then gets through. */
module Reconfig {

  import opened Words
  import opened TokenBucket
  import opened Controller
  import opened GlobalRate
  import opened Traces
  import opened Filling
  import opened Ceiling

  predicate Under(cfg: GlobalCfg, lim: Limits, c: ClassId) { LimitOf(lim, c) <= Top(cfg, c) }

  predicate IsContended(cfg: GlobalCfg, avg: u64) { Mb(avg) > Mb(cfg.hwMin) }

  /** What stands before the class in an adjustment: the shortfall of the classes filled first, or the excess of
      those suppressed first. */
  function Missing(cfg: GlobalCfg, lim: Limits, c: ClassId): nat {
    var x, y := Max(0, Mb(cfg.hwMin) - Mb(lim.l0)), Max(0, Mb(cfg.l1Max) - Mb(lim.l1));
    if c == 0 then 0 else if c == 1 then x else x + y
  }

  function Standing(cfg: GlobalCfg, lim: Limits, c: ClassId): nat {
    var x, y := Max(0, Mb(lim.l2) - Mb(cfg.l2Min)), Max(0, Mb(lim.l1) - Mb(cfg.l1Min));
    if c == 2 then 0 else if c == 1 then x else x + y
  }

  function Overflow(cfg: GlobalCfg, avg: u64): nat { Max(0, Mb(avg) - Mb(cfg.hwMin)) }

  /** What an adjustment has left when the class's turn comes. */
  function LeftFor(cfg: GlobalCfg, lim: Limits, avg: u64, c: ClassId): nat {
    if IsContended(cfg, avg) then Max(0, Overflow(cfg, avg) - Standing(cfg, lim, c))
    else Max(0, Room(cfg, avg) - Missing(cfg, lim, c))
  }

  lemma OneClassSuppressed(cfg: GlobalCfg, lim: Limits, avg: u64, c: ClassId)
    requires IsContended(cfg, avg)
    ensures var left := LeftFor(cfg, lim, avg, c);
      LimitOf(Rebalance(cfg, lim, avg), c)
      == if left == 0 then LimitOf(lim, c) else Bytes(Max(Mb(FloorOf(cfg, c)), Mb(LimitOf(lim, c)) - left))
  {
    SuppressedLimits(cfg, lim, avg);
  }

  lemma OneClassRecovered(cfg: GlobalCfg, lim: Limits, avg: u64, c: ClassId)
    requires !IsContended(cfg, avg)
    ensures var left := LeftFor(cfg, lim, avg, c);
      LimitOf(Rebalance(cfg, lim, avg), c)
      == if left == 0 then LimitOf(lim, c) else Bytes(Min(Mb(CeilingOf(cfg, c)), Mb(LimitOf(lim, c)) + left))
  {
    RecoveredLimits(cfg, lim, avg);
  }

  /** One class in one adjustment. */
  lemma OneClass(cfg: GlobalCfg, lim: Limits, avg: u64, c: ClassId)
    ensures var left, cur := LeftFor(cfg, lim, avg, c), Mb(LimitOf(lim, c));
      LimitOf(Rebalance(cfg, lim, avg), c)
      == if left == 0 then LimitOf(lim, c)
         else if IsContended(cfg, avg) then Bytes(Max(Mb(FloorOf(cfg, c)), cur - left))
         else Bytes(Min(Mb(CeilingOf(cfg, c)), cur + left))
  {
    if IsContended(cfg, avg) { OneClassSuppressed(cfg, lim, avg, c); } else { OneClassRecovered(cfg, lim, avg, c); }
  }

  /** The adjustment reaches the class, and if it suppresses, by enough. */
  predicate BringsUnder(cfg: GlobalCfg, lim: Limits, avg: u64, c: ClassId) {
    var left := LeftFor(cfg, lim, avg, c);
    left > 0 && (IsContended(cfg, avg) ==> Mb(LimitOf(lim, c)) - left <= Mb(CeilingOf(cfg, c)))
  }

  lemma UnderStep(cfg: GlobalCfg, lim: Limits, avg: u64, c: ClassId)
    requires WellFormed(cfg)
    ensures Under(cfg, Rebalance(cfg, lim, avg), c) <==> Under(cfg, lim, c) || BringsUnder(cfg, lim, avg, c)
  {
    OneClass(cfg, lim, avg, c);
  }

  predicate SomeBringsUnder(cfg: GlobalCfg, lim: Limits, avgs: seq<u64>, c: ClassId)
    decreases avgs
  {
    avgs != []
    && (BringsUnder(cfg, lim, avgs[0], c) || SomeBringsUnder(cfg, Rebalance(cfg, lim, avgs[0]), avgs[1..], c))
  }

  /** A class is under its new upper limit exactly when it was already, or some adjustment since has brought it
      there; once under it stays. */
  lemma {:induction false} UnderExactly(cfg: GlobalCfg, lim: Limits, avgs: seq<u64>, c: ClassId)
    requires WellFormed(cfg)
    ensures Under(cfg, RebalanceAll(cfg, lim, avgs), c) <==> Under(cfg, lim, c) || SomeBringsUnder(cfg, lim, avgs, c)
    decreases avgs
  {
    if avgs != [] {
      UnderStep(cfg, lim, avgs[0], c);
      UnderExactly(cfg, Rebalance(cfg, lim, avgs[0]), avgs[1..], c);
    }
  }

  // ---- without looking at the limits in between ----

  lemma MissingStep(cfg: GlobalCfg, lim: Limits, avg: u64, c: ClassId)
    requires !IsContended(cfg, avg)
    ensures Missing(cfg, Rebalance(cfg, lim, avg), c) == Max(0, Missing(cfg, lim, c) - Room(cfg, avg))
  {
    RecoveredLimits(cfg, lim, avg);
  }

  /** While there is no contention: exactly when the room measured since reaches past the classes before it. For L0
      any room will do. */
  lemma {:induction false} RoomBringsUnder(cfg: GlobalCfg, lim: Limits, avgs: seq<u64>, c: ClassId)
    requires !SomeContended(cfg, avgs)
    ensures SomeBringsUnder(cfg, lim, avgs, c) <==> TotalRoom(cfg, avgs) > Missing(cfg, lim, c)
    decreases avgs
  {
    if avgs != [] {
      assert !IsContended(cfg, avgs[0]);
      forall k | 0 <= k < |avgs| - 1 ensures avgs[1..][k] == avgs[k + 1] {}
      MissingStep(cfg, lim, avgs[0], c);
      RoomBringsUnder(cfg, Rebalance(cfg, lim, avgs[0]), avgs[1..], c);
    }
  }

  function TotalOverflow(cfg: GlobalCfg, avgs: seq<u64>): nat {
    if avgs == [] then 0 else Overflow(cfg, avgs[0]) + TotalOverflow(cfg, avgs[1..])
  }

  lemma StandingStep(cfg: GlobalCfg, lim: Limits, avg: u64, c: ClassId)
    requires IsContended(cfg, avg)
    ensures Standing(cfg, Rebalance(cfg, lim, avg), c) == Max(0, Standing(cfg, lim, c) - Overflow(cfg, avg))
  {
    SuppressedLimits(cfg, lim, avg);
  }

  /** Under lasting contention: exactly when the overflow measured since, less what stood above the floors of the
      classes suppressed first, makes up the difference to the new upper limit. */
  lemma {:induction false} OverflowBringsUnder(cfg: GlobalCfg, lim: Limits, avgs: seq<u64>, c: ClassId)
    requires WellFormed(cfg) && Contended(cfg, avgs, 1)
    ensures var s := TotalOverflow(cfg, avgs) - Standing(cfg, lim, c);
      SomeBringsUnder(cfg, lim, avgs, c) <==> s > 0 && Mb(LimitOf(lim, c)) - s <= Mb(CeilingOf(cfg, c))
    decreases avgs
  {
    if avgs != [] {
      var next := Rebalance(cfg, lim, avgs[0]);
      assert IsContended(cfg, avgs[0]);
      forall k | 0 <= k < |avgs| - 1 ensures avgs[1..][k] == avgs[k + 1] {}
      StandingStep(cfg, lim, avgs[0], c);
      OneClass(cfg, lim, avgs[0], c);
      OverflowBringsUnder(cfg, next, avgs[1..], c);
    }
  }

  // ---- in traces ----

  /** After a trace under the new configuration, from any state the old one left, in either build. */
  lemma UnderAfterChange(shaper: Shaper, cfg: GlobalCfg, g: GlobalRate, ps: seq<Packet>, c: ClassId)
    requires WellFormed(cfg)
    ensures Under(cfg, LimitsOf(RunPackets(shaper, cfg, g, ps)), c)
        <==> Under(cfg, LimitsOf(g), c) || SomeBringsUnder(cfg, LimitsOf(g), Fired(shaper, cfg, g, ps), c)
  {
    LimitsFollowAdjustments(shaper, cfg, g, ps);
    UnderExactly(cfg, LimitsOf(g), Fired(shaper, cfg, g, ps), c);
  }

  /** Once under, with a real limit: the new upper limit times the time, and one bucket, as full as the old
      configuration left it if that is more. */
  lemma CeilingAfterChange(cfg: GlobalCfg, g: GlobalRate, ps: seq<Packet>, c: ClassId)
    requires WellFormed(cfg) && MEGABYTE <= FloorOf(cfg, c) && RealLimit(ClassOf(g, c).bps, CeilingOf(cfg, c))
    requires Clocked(ps) && ps != []
    ensures NSEC_PER_SEC * ClassBytes(TokenBuckets, cfg, g, ps, c)
         <= NSEC_PER_SEC * Max(ClassOf(g, c).slot, Top(cfg, c)) + Top(cfg, c) * (ps[|ps| - 1].now - ps[0].now)
  {
    OffersInForce(TokenBuckets, cfg, g, ps, c);
    OffersFrom(cfg, g, ps, c, ps[0].now, ps[|ps| - 1].now, Top(cfg, c));
  }

  lemma OffersFrom(cfg: GlobalCfg, g: GlobalRate, ps: seq<Packet>, c: ClassId, from: nat, to: nat, top: u64)
    requires LimitedBy(Offers(TokenBuckets, cfg, g, ps, c), top) && Clocked(ps)
    requires ps != [] && from == ps[0].now && to == ps[|ps| - 1].now
    ensures NSEC_PER_SEC * ClassBytes(TokenBuckets, cfg, g, ps, c)
         <= NSEC_PER_SEC * Max(ClassOf(g, c).slot, top) + top * (to - from)
  {
    OffersBytes(cfg, g, ps, c, from, to, top);
    assert ClassBytes(TokenBuckets, cfg, g, ps, c)
      == TokenBucket.AcceptedBytes(BucketOf(g, c), Offers(TokenBuckets, cfg, g, ps, c)) by {
      BucketProjection(cfg, g, ps, c);
    }
  }

  lemma OffersBytes(cfg: GlobalCfg, g: GlobalRate, ps: seq<Packet>, c: ClassId, from: nat, to: nat, top: u64)
    requires LimitedBy(Offers(TokenBuckets, cfg, g, ps, c), top) && Clocked(ps)
    requires ps != [] && from == ps[0].now && to == ps[|ps| - 1].now
    ensures NSEC_PER_SEC * TokenBucket.AcceptedBytes(BucketOf(g, c), Offers(TokenBuckets, cfg, g, ps, c))
         <= NSEC_PER_SEC * Max(ClassOf(g, c).slot, top) + top * (to - from)
  {
    var os := Offers(TokenBuckets, cfg, g, ps, c);
    assert from <= to;
    assert Ordered(os) && forall k :: 0 <= k < |os| ==> from <= os[k].now <= to by {
      OffersClocked(TokenBuckets, cfg, g, ps, c);
    }
    BucketBetween(BucketOf(g, c), os, from, to, top);
  }

  lemma BucketBetween(b: Bucket, os: seq<Offer>, from: nat, to: nat, top: u64)
    requires Ordered(os) && LimitedBy(os, top) && from <= to
    requires forall k :: 0 <= k < |os| ==> from <= os[k].now <= to
    ensures NSEC_PER_SEC * TokenBucket.AcceptedBytes(b, os) <= NSEC_PER_SEC * Max(b.tokens, top) + top * (to - from)
  {
    if os == [] {
      MulMono(top, 0, to - from);
    } else {
      WindowCeilingFrom(b, os, top);
      MulMono(top, os[|os| - 1].now - os[0].now, to - from);
    }
  }
}
