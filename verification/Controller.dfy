/** The feedback controller of bpf/qos_tc.c (`adjust_rate`) as a value: what one adjustment does to
    the three limits, and what sequences of adjustments keep and reach. Module GlobalRate proves the
    branching code against `Rebalance`. */
module Controller {

  import opened Words
  import opened Greedy

  /** Whole megabytes per second: what is left of a rate after dividing by MEGABYTE. */
  type Megabytes = x: int | 0 <= x <= 18_446_744_073_709

  /** struct global_rate_cfg. */
  datatype GlobalCfg = GlobalCfg(
    interval: u64, hwMin: u64, hwMax: u64, l0Min: u64, l0Max: u64,
    l1Min: u64, l1Max: u64, l2Min: u64, l2Max: u64)

  /** The three limits in force, in bytes per second. */
  datatype Limits = Limits(l0: u64, l1: u64, l2: u64)

  function Mb(bps: u64): (r: Megabytes)
    ensures r * MEGABYTE <= bps < (r + 1) * MEGABYTE
  {
    bps / MEGABYTE
  }

  function Bytes(m: Megabytes): u64 { m * MEGABYTE }

  /** Suppression goes L2, L1, L0, each down to its minimum. */
  function DrainOrder(cfg: GlobalCfg, lim: Limits): (r: seq<Level>)
    ensures |r| == 3
  {
    [Level(Mb(lim.l2), Mb(cfg.l2Min)), Level(Mb(lim.l1), Mb(cfg.l1Min)), Level(Mb(lim.l0), Mb(cfg.l0Min))]
  }

  /** Recovery goes L0, L1, L2; L0 may grow to the whole hardware limit. */
  function FillOrder(cfg: GlobalCfg, lim: Limits): (r: seq<Level>)
    ensures |r| == 3
  {
    [Level(Mb(lim.l0), Mb(cfg.hwMin)), Level(Mb(lim.l1), Mb(cfg.l1Max)), Level(Mb(lim.l2), Mb(cfg.l2Max))]
  }

  lemma DrainThree(x: Level, y: Level, z: Level, a: nat)
    ensures var a1 := Max(0, a - Above(x));
      var a2 := Max(0, a1 - Above(y));
      Drain([x, y, z], a) == [Max(x.bound, x.cur - a), Max(y.bound, y.cur - a1), Max(z.bound, z.cur - a2)]
  {
    var a1 := Max(0, a - Above(x));
    assert [x, y, z][1..] == [y, z] && [y, z][1..] == [z] && [z][1..] == [];
    assert Drain([y, z], a1) == [Max(y.bound, y.cur - a1)] + Drain([z], Max(0, a1 - Above(y)));
  }

  lemma FillThree(x: Level, y: Level, z: Level, a: nat)
    ensures var a1 := Max(0, a - Below(x));
      var a2 := Max(0, a1 - Below(y));
      Fill([x, y, z], a) == [Min(x.bound, x.cur + a), Min(y.bound, y.cur + a1), Min(z.bound, z.cur + a2)]
  {
    var a1 := Max(0, a - Below(x));
    assert [x, y, z][1..] == [y, z] && [y, z][1..] == [z] && [z][1..] == [];
    assert Fill([y, z], a1) == [Min(y.bound, y.cur + a1)] + Fill([z], Max(0, a1 - Below(y)));
  }

  /** A limit is rewritten, in whole megabytes, only while something is left to move. */
  function Settle(bps: u64, left: nat, target: Megabytes): u64 { if left == 0 then bps else Bytes(target) }

  /** One adjustment, given the measured average in bytes per second. */
  function Rebalance(cfg: GlobalCfg, lim: Limits, avg: u64): Limits {
    if Mb(avg) > Mb(cfg.hwMin) then
      var a, ls := Mb(avg) - Mb(cfg.hwMin), DrainOrder(cfg, lim);
      var a1 := Max(0, a - Above(ls[0]));
      var a2 := Max(0, a1 - Above(ls[1]));
      DrainThree(ls[0], ls[1], ls[2], a);
      var r := Drain(ls, a);
      Limits(Settle(lim.l0, a2, r[2]), Settle(lim.l1, a1, r[1]), Settle(lim.l2, a, r[0]))
    else
      var a, ls := Mb(cfg.hwMin) - Mb(avg), FillOrder(cfg, lim);
      var a1 := Max(0, a - Below(ls[0]));
      var a2 := Max(0, a1 - Below(ls[1]));
      FillThree(ls[0], ls[1], ls[2], a);
      var r := Fill(ls, a);
      Limits(Settle(lim.l0, a, r[0]), Settle(lim.l1, a1, r[1]), Settle(lim.l2, a2, r[2]))
  }

  /** A sequence of adjustments, one measured average each. */
  function RebalanceAll(cfg: GlobalCfg, lim: Limits, avgs: seq<u64>): Limits
    decreases avgs
  {
    if avgs == [] then lim else RebalanceAll(cfg, Rebalance(cfg, lim, avgs[0]), avgs[1..])
  }

  // ---- the box of bounds ----

  ghost predicate Whole(bps: u64) { Bytes(Mb(bps)) == bps }

  ghost predicate WholeLimits(lim: Limits) { Whole(lim.l0) && Whole(lim.l1) && Whole(lim.l2) }

  /** Every floor is at most its ceiling once both are cut to whole megabytes. */
  ghost predicate WellFormed(cfg: GlobalCfg) {
    Mb(cfg.l0Min) <= Mb(cfg.hwMin) && Mb(cfg.l1Min) <= Mb(cfg.l1Max) && Mb(cfg.l2Min) <= Mb(cfg.l2Max)
  }

  ghost predicate UnderCeilings(cfg: GlobalCfg, lim: Limits) {
    WholeLimits(lim)
    && Mb(lim.l0) <= Mb(cfg.hwMin) && Mb(lim.l1) <= Mb(cfg.l1Max) && Mb(lim.l2) <= Mb(cfg.l2Max)
  }

  ghost predicate InBox(cfg: GlobalCfg, lim: Limits) {
    UnderCeilings(cfg, lim)
    && Mb(cfg.l0Min) <= Mb(lim.l0) && Mb(cfg.l1Min) <= Mb(lim.l1) && Mb(cfg.l2Min) <= Mb(lim.l2)
  }

  function Floors(cfg: GlobalCfg): Limits {
    Limits(Bytes(Mb(cfg.l0Min)), Bytes(Mb(cfg.l1Min)), Bytes(Mb(cfg.l2Min)))
  }

  function Ceilings(cfg: GlobalCfg): Limits {
    Limits(Bytes(Mb(cfg.hwMin)), Bytes(Mb(cfg.l1Max)), Bytes(Mb(cfg.l2Max)))
  }

  const ALL_ZERO: Limits := Limits(0, 0, 0)

  /** An adjustment as plain arithmetic on each limit, for the lemmas below. */
  lemma SuppressedLimits(cfg: GlobalCfg, lim: Limits, avg: u64)
    requires Mb(avg) > Mb(cfg.hwMin)
    ensures var a := Mb(avg) - Mb(cfg.hwMin);
      var a1 := Max(0, a - Max(0, Mb(lim.l2) - Mb(cfg.l2Min)));
      var a2 := Max(0, a1 - Max(0, Mb(lim.l1) - Mb(cfg.l1Min)));
      Rebalance(cfg, lim, avg)
      == Limits(if a2 == 0 then lim.l0 else Bytes(Max(Mb(cfg.l0Min), Mb(lim.l0) - a2)),
                if a1 == 0 then lim.l1 else Bytes(Max(Mb(cfg.l1Min), Mb(lim.l1) - a1)),
                Bytes(Max(Mb(cfg.l2Min), Mb(lim.l2) - a)))
  {
    var ls := DrainOrder(cfg, lim);
    DrainThree(ls[0], ls[1], ls[2], Mb(avg) - Mb(cfg.hwMin));
  }

  lemma RecoveredLimits(cfg: GlobalCfg, lim: Limits, avg: u64)
    requires Mb(avg) <= Mb(cfg.hwMin)
    ensures var a := Mb(cfg.hwMin) - Mb(avg);
      var a1 := Max(0, a - Max(0, Mb(cfg.hwMin) - Mb(lim.l0)));
      var a2 := Max(0, a1 - Max(0, Mb(cfg.l1Max) - Mb(lim.l1)));
      Rebalance(cfg, lim, avg)
      == Limits(if a == 0 then lim.l0 else Bytes(Min(Mb(cfg.hwMin), Mb(lim.l0) + a)),
                if a1 == 0 then lim.l1 else Bytes(Min(Mb(cfg.l1Max), Mb(lim.l1) + a1)),
                if a2 == 0 then lim.l2 else Bytes(Min(Mb(cfg.l2Max), Mb(lim.l2) + a2)))
  {
    var ls := FillOrder(cfg, lim);
    FillThree(ls[0], ls[1], ls[2], Mb(cfg.hwMin) - Mb(avg));
  }

  /** The box is kept by every adjustment, whatever the meter reports. */
  lemma BoxKept(cfg: GlobalCfg, lim: Limits, avg: u64)
    requires WellFormed(cfg)
    ensures InBox(cfg, lim) ==> InBox(cfg, Rebalance(cfg, lim, avg))
    ensures UnderCeilings(cfg, lim) ==> UnderCeilings(cfg, Rebalance(cfg, lim, avg))
  {
    if UnderCeilings(cfg, lim) {
      if Mb(avg) > Mb(cfg.hwMin) { BoxKeptBySuppression(cfg, lim, avg); } else { BoxKeptByRecovery(cfg, lim, avg); }
    }
  }

  lemma BoxKeptBySuppression(cfg: GlobalCfg, lim: Limits, avg: u64)
    requires WellFormed(cfg) && UnderCeilings(cfg, lim) && Mb(avg) > Mb(cfg.hwMin)
    ensures UnderCeilings(cfg, Rebalance(cfg, lim, avg))
    ensures InBox(cfg, lim) ==> InBox(cfg, Rebalance(cfg, lim, avg))
  {
    SuppressedLimits(cfg, lim, avg);
  }

  lemma BoxKeptByRecovery(cfg: GlobalCfg, lim: Limits, avg: u64)
    requires WellFormed(cfg) && UnderCeilings(cfg, lim) && Mb(avg) <= Mb(cfg.hwMin)
    ensures UnderCeilings(cfg, Rebalance(cfg, lim, avg))
    ensures InBox(cfg, lim) ==> InBox(cfg, Rebalance(cfg, lim, avg))
  {
    RecoveredLimits(cfg, lim, avg);
  }

  /** No sequence of averages drives a limit out of the box. */
  lemma {:induction false} BoxKeptForever(cfg: GlobalCfg, lim: Limits, avgs: seq<u64>)
    requires WellFormed(cfg)
    ensures InBox(cfg, lim) ==> InBox(cfg, RebalanceAll(cfg, lim, avgs))
    ensures UnderCeilings(cfg, lim) ==> UnderCeilings(cfg, RebalanceAll(cfg, lim, avgs))
    decreases avgs
  {
    if avgs != [] {
      BoxKept(cfg, lim, avgs[0]);
      BoxKeptForever(cfg, Rebalance(cfg, lim, avgs[0]), avgs[1..]);
    }
  }

  /** From the all-zero start every limit ever reached lies on the 1 MB grid and under its ceiling. */
  lemma UnderCeilingsFromZero(cfg: GlobalCfg, avgs: seq<u64>)
    requires WellFormed(cfg)
    ensures UnderCeilings(cfg, RebalanceAll(cfg, ALL_ZERO, avgs))
  {
    BoxKeptForever(cfg, ALL_ZERO, avgs);
  }

  /** A class whose floor is at least 1 MB never becomes unlimited and never passes its ceiling, even
      from a limit off the 1 MB grid. */
  ghost predicate RealLimit(bps: u64, ceiling: u64) { MEGABYTE <= bps <= Bytes(Mb(ceiling)) }

  lemma RealLimitsKept(cfg: GlobalCfg, lim: Limits, avg: u64)
    requires WellFormed(cfg)
    ensures var r := Rebalance(cfg, lim, avg);
      && (MEGABYTE <= cfg.l0Min && RealLimit(lim.l0, cfg.hwMin) ==> RealLimit(r.l0, cfg.hwMin))
      && (MEGABYTE <= cfg.l1Min && RealLimit(lim.l1, cfg.l1Max) ==> RealLimit(r.l1, cfg.l1Max))
      && (MEGABYTE <= cfg.l2Min && RealLimit(lim.l2, cfg.l2Max) ==> RealLimit(r.l2, cfg.l2Max))
  {
    if Mb(avg) > Mb(cfg.hwMin) { SuppressedLimits(cfg, lim, avg); } else { RecoveredLimits(cfg, lim, avg); }
  }

  // ---- the strict order ----

  function DrainResult(next: Limits): seq<int> { [Mb(next.l2), Mb(next.l1), Mb(next.l0)] }

  function FillResult(next: Limits): seq<int> { [Mb(next.l0), Mb(next.l1), Mb(next.l2)] }

  /** Inside the box an adjustment is fixed by what it is for. Under contention the limits drop by
      exactly min(overflow, what stands above the floors), L2 before L1 before L0, a class only once
      every lower one is on its floor; with room they grow by exactly min(room, what is missing), L0
      before L1 before L2. No other outcome fits, and the code's outcome does. */
  lemma RebalanceIsTheStrictOne(cfg: GlobalCfg, lim: Limits, avg: u64, next: Limits)
    requires InBox(cfg, lim) && WholeLimits(next)
    ensures next == Rebalance(cfg, lim, avg) <==>
      if Mb(avg) > Mb(cfg.hwMin) then
        var ls := DrainOrder(cfg, lim);
        && Suppresses(ls, DrainResult(next))
        && Total(Currents(ls)) - Total(DrainResult(next)) == Min(Mb(avg) - Mb(cfg.hwMin), TotalAbove(ls))
      else
        var ls := FillOrder(cfg, lim);
        && Recovers(ls, FillResult(next))
        && Total(FillResult(next)) - Total(Currents(ls)) == Min(Mb(cfg.hwMin) - Mb(avg), TotalBelow(ls))
  {
    if Mb(avg) > Mb(cfg.hwMin) {
      SuppressionIsStrict(cfg, lim, avg, next);
    } else {
      RecoveryIsStrict(cfg, lim, avg, next);
    }
  }

  lemma SuppressionIsStrict(cfg: GlobalCfg, lim: Limits, avg: u64, next: Limits)
    requires InBox(cfg, lim) && WholeLimits(next) && Mb(avg) > Mb(cfg.hwMin)
    ensures var ls := DrainOrder(cfg, lim);
      next == Rebalance(cfg, lim, avg) <==>
      && Suppresses(ls, DrainResult(next))
      && Total(Currents(ls)) - Total(DrainResult(next)) == Min(Mb(avg) - Mb(cfg.hwMin), TotalAbove(ls))
  {
    var ls, a := DrainOrder(cfg, lim), Mb(avg) - Mb(cfg.hwMin);
    SuppressionResult(cfg, lim, avg);
    SameLimits(next, Rebalance(cfg, lim, avg));
    SuppressionIsDrain(ls, a, DrainResult(next));
  }

  lemma SuppressionResult(cfg: GlobalCfg, lim: Limits, avg: u64)
    requires InBox(cfg, lim) && Mb(avg) > Mb(cfg.hwMin)
    ensures WholeLimits(Rebalance(cfg, lim, avg))
    ensures DrainResult(Rebalance(cfg, lim, avg)) == Drain(DrainOrder(cfg, lim), Mb(avg) - Mb(cfg.hwMin))
  {
    var ls := DrainOrder(cfg, lim);
    SuppressedLimits(cfg, lim, avg);
    DrainThree(ls[0], ls[1], ls[2], Mb(avg) - Mb(cfg.hwMin));
  }

  lemma RecoveryIsStrict(cfg: GlobalCfg, lim: Limits, avg: u64, next: Limits)
    requires InBox(cfg, lim) && WholeLimits(next) && Mb(avg) <= Mb(cfg.hwMin)
    ensures var ls := FillOrder(cfg, lim);
      next == Rebalance(cfg, lim, avg) <==>
      && Recovers(ls, FillResult(next))
      && Total(FillResult(next)) - Total(Currents(ls)) == Min(Mb(cfg.hwMin) - Mb(avg), TotalBelow(ls))
  {
    var ls, a := FillOrder(cfg, lim), Mb(cfg.hwMin) - Mb(avg);
    RecoveryResult(cfg, lim, avg);
    SameLimits(next, Rebalance(cfg, lim, avg));
    RecoveryIsFill(ls, a, FillResult(next));
  }

  lemma RecoveryResult(cfg: GlobalCfg, lim: Limits, avg: u64)
    requires InBox(cfg, lim) && Mb(avg) <= Mb(cfg.hwMin)
    ensures WholeLimits(Rebalance(cfg, lim, avg))
    ensures FillResult(Rebalance(cfg, lim, avg)) == Fill(FillOrder(cfg, lim), Mb(cfg.hwMin) - Mb(avg))
  {
    var ls := FillOrder(cfg, lim);
    RecoveredLimits(cfg, lim, avg);
    FillThree(ls[0], ls[1], ls[2], Mb(cfg.hwMin) - Mb(avg));
  }

  lemma SameLimits(x: Limits, y: Limits)
    requires WholeLimits(x) && WholeLimits(y)
    ensures x == y <==> DrainResult(x) == DrainResult(y)
    ensures x == y <==> FillResult(x) == FillResult(y)
  {
    assert DrainResult(x) == DrainResult(y) ==>
      Mb(x.l2) == DrainResult(y)[0] && Mb(x.l1) == DrainResult(y)[1] && Mb(x.l0) == DrainResult(y)[2];
    assert FillResult(x) == FillResult(y) ==>
      Mb(x.l0) == FillResult(y)[0] && Mb(x.l1) == FillResult(y)[1] && Mb(x.l2) == FillResult(y)[2];
  }

  // ---- convergence ----

  /** What stands above the floors, and below the ceilings, in whole megabytes. */
  function Excess(cfg: GlobalCfg, lim: Limits): nat { TotalAbove(DrainOrder(cfg, lim)) }

  function Shortfall(cfg: GlobalCfg, lim: Limits): nat { TotalBelow(FillOrder(cfg, lim)) }

  lemma TotalsOfThree(x: Level, y: Level, z: Level)
    ensures TotalAbove([x, y, z]) == Above(x) + Above(y) + Above(z)
    ensures TotalBelow([x, y, z]) == Below(x) + Below(y) + Below(z)
  {
    assert [x, y, z][1..] == [y, z] && [y, z][1..] == [z] && [z][1..] == [];
    assert TotalAbove([y, z]) == Above(y) + TotalAbove([z]);
    assert TotalBelow([y, z]) == Below(y) + TotalBelow([z]);
  }

  /** One adjustment under contention works off exactly the overflow, from any state; once less than
      the overflow is left, the limits are the floors to the byte. */
  lemma SuppressionProgress(cfg: GlobalCfg, lim: Limits, avg: u64)
    requires Mb(avg) > Mb(cfg.hwMin)
    ensures var a, r := Mb(avg) - Mb(cfg.hwMin), Rebalance(cfg, lim, avg);
      && Excess(cfg, r) == Max(0, Excess(cfg, lim) - a)
      && (Excess(cfg, lim) < a ==> r == Floors(cfg))
  {
    var r := Rebalance(cfg, lim, avg);
    SuppressedLimits(cfg, lim, avg);
    var x, y := DrainOrder(cfg, lim), DrainOrder(cfg, r);
    TotalsOfThree(x[0], x[1], x[2]);
    TotalsOfThree(y[0], y[1], y[2]);
  }

  lemma RecoveryProgress(cfg: GlobalCfg, lim: Limits, avg: u64)
    requires Mb(avg) < Mb(cfg.hwMin)
    ensures var a, r := Mb(cfg.hwMin) - Mb(avg), Rebalance(cfg, lim, avg);
      && Shortfall(cfg, r) == Max(0, Shortfall(cfg, lim) - a)
      && (Shortfall(cfg, lim) < a ==> r == Ceilings(cfg))
  {
    var r := Rebalance(cfg, lim, avg);
    RecoveredLimits(cfg, lim, avg);
    var x, y := FillOrder(cfg, lim), FillOrder(cfg, r);
    TotalsOfThree(x[0], x[1], x[2]);
    TotalsOfThree(y[0], y[1], y[2]);
  }

  /** Every average lies at least `d` MB/s above, or below, the hardware limit. */
  ghost predicate Contended(cfg: GlobalCfg, avgs: seq<u64>, d: nat) {
    forall k :: 0 <= k < |avgs| ==> Mb(avgs[k]) >= Mb(cfg.hwMin) + d
  }

  ghost predicate Slack(cfg: GlobalCfg, avgs: seq<u64>, d: nat) {
    forall k :: 0 <= k < |avgs| ==> Mb(avgs[k]) + d <= Mb(cfg.hwMin)
  }

  /** Sustained contention: with P MB above the floors, floor(P/d) + 1 adjustments reach exactly the
      floors, from any state, and every later one leaves them there. */
  lemma {:induction false} ContentionConverges(cfg: GlobalCfg, lim: Limits, avgs: seq<u64>, d: nat)
    requires d >= 1 && Contended(cfg, avgs, d) && Excess(cfg, lim) < |avgs| * d
    ensures RebalanceAll(cfg, lim, avgs) == Floors(cfg)
    decreases avgs
  {
    var next, rest := Rebalance(cfg, lim, avgs[0]), avgs[1..];
    SuppressionProgress(cfg, lim, avgs[0]);
    OneMore(|rest|, d);
    if rest != [] {
      MulMono(d, 1, |rest|);
      ContentionConverges(cfg, next, rest, d);
    }
  }

  /** Sustained slack: with Q MB missing below the ceilings, floor(Q/d) + 1 adjustments reach exactly
      the ceilings, from any state, the all-zero start included. */
  lemma {:induction false} SlackConverges(cfg: GlobalCfg, lim: Limits, avgs: seq<u64>, d: nat)
    requires d >= 1 && Slack(cfg, avgs, d) && Shortfall(cfg, lim) < |avgs| * d
    ensures RebalanceAll(cfg, lim, avgs) == Ceilings(cfg)
    decreases avgs
  {
    var next, rest := Rebalance(cfg, lim, avgs[0]), avgs[1..];
    RecoveryProgress(cfg, lim, avgs[0]);
    OneMore(|rest|, d);
    if rest != [] {
      MulMono(d, 1, |rest|);
      SlackConverges(cfg, next, rest, d);
    }
  }

  /** The bound is met exactly: when every overflow is `d`, the excess after n adjustments is
      max(0, P - n*d), so the floors are not reached while P exceeds n*d. */
  lemma {:induction false} ContentionPace(cfg: GlobalCfg, lim: Limits, avgs: seq<u64>, d: nat)
    requires d >= 1 && forall k :: 0 <= k < |avgs| ==> Mb(avgs[k]) == Mb(cfg.hwMin) + d
    ensures Excess(cfg, RebalanceAll(cfg, lim, avgs)) == Max(0, Excess(cfg, lim) - |avgs| * d)
    decreases avgs
  {
    if avgs != [] {
      SuppressionProgress(cfg, lim, avgs[0]);
      ContentionPace(cfg, Rebalance(cfg, lim, avgs[0]), avgs[1..], d);
      OneMore(|avgs| - 1, d);
    }
  }
}
