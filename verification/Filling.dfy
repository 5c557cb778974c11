/** What the three limits are after any adjustments from the zeroed map: the room measured so far fills L0,
    then L1, then L2, and until its turn comes a class has no limit. */
module Filling {

  import opened Words
  import opened Controller
  import opened GlobalRate

  /** Megabytes per second an adjustment hands out. */
  function Room(cfg: GlobalCfg, avg: u64): nat { Max(0, Mb(cfg.hwMin) - Mb(avg)) }

  function TotalRoom(cfg: GlobalCfg, avgs: seq<u64>): nat {
    if avgs == [] then 0 else Room(cfg, avgs[0]) + TotalRoom(cfg, avgs[1..])
  }

  ghost predicate SomeContended(cfg: GlobalCfg, avgs: seq<u64>) {
    exists k :: 0 <= k < |avgs| && Mb(avgs[k]) > Mb(cfg.hwMin)
  }

  /** What must be filled before the class gets its first megabyte. */
  function Before(cfg: GlobalCfg, c: ClassId): nat {
    if c == 0 then 0 else if c == 1 then Mb(cfg.hwMin) else Mb(cfg.hwMin) + Mb(cfg.l1Max)
  }

  /** The class's turn has come: contention has been measured once, or the room measured in all reaches
      past the classes before it. */
  ghost predicate Reached(cfg: GlobalCfg, avgs: seq<u64>, c: ClassId) {
    SomeContended(cfg, avgs) || TotalRoom(cfg, avgs) > Before(cfg, c)
  }

  /** The limits when `s` megabytes have been handed out and none taken back. */
  function FilledTo(cfg: GlobalCfg, s: nat): Limits {
    var hw, m1, m2 := Mb(cfg.hwMin), Mb(cfg.l1Max), Mb(cfg.l2Max);
    Limits(Bytes(Min(hw, s)), Bytes(Min(m1, Max(0, s - hw))), Bytes(Min(m2, Max(0, s - hw - m1))))
  }

  lemma FilledStep(cfg: GlobalCfg, s: nat, avg: u64)
    requires Mb(avg) <= Mb(cfg.hwMin)
    ensures Rebalance(cfg, FilledTo(cfg, s), avg) == FilledTo(cfg, s + Room(cfg, avg))
  {
    RecoveredLimits(cfg, FilledTo(cfg, s), avg);
  }

  /** The first contention puts every limit between floor and ceiling, wherever the filling stood. */
  lemma FirstContention(cfg: GlobalCfg, s: nat, avg: u64)
    requires WellFormed(cfg) && Mb(avg) > Mb(cfg.hwMin)
    ensures InBox(cfg, Rebalance(cfg, FilledTo(cfg, s), avg))
  {
    SuppressedLimits(cfg, FilledTo(cfg, s), avg);
  }

  lemma {:induction false} FilledRun(cfg: GlobalCfg, s: nat, avgs: seq<u64>)
    requires !SomeContended(cfg, avgs)
    ensures RebalanceAll(cfg, FilledTo(cfg, s), avgs) == FilledTo(cfg, s + TotalRoom(cfg, avgs))
    decreases avgs
  {
    if avgs != [] {
      assert !(Mb(avgs[0]) > Mb(cfg.hwMin));
      forall k | 0 <= k < |avgs| - 1 ensures avgs[1..][k] == avgs[k + 1] {}
      FilledStep(cfg, s, avgs[0]);
      FilledRun(cfg, s + Room(cfg, avgs[0]), avgs[1..]);
    }
  }

  lemma {:induction false} ContendedRun(cfg: GlobalCfg, s: nat, avgs: seq<u64>)
    requires WellFormed(cfg) && SomeContended(cfg, avgs)
    ensures InBox(cfg, RebalanceAll(cfg, FilledTo(cfg, s), avgs))
    decreases avgs
  {
    var next := Rebalance(cfg, FilledTo(cfg, s), avgs[0]);
    if Mb(avgs[0]) > Mb(cfg.hwMin) {
      FirstContention(cfg, s, avgs[0]);
      BoxKeptForever(cfg, next, avgs[1..]);
    } else {
      var k :| 0 <= k < |avgs| && Mb(avgs[k]) > Mb(cfg.hwMin);
      assert avgs[1..][k - 1] == avgs[k];
      FilledStep(cfg, s, avgs[0]);
      ContendedRun(cfg, s + Room(cfg, avgs[0]), avgs[1..]);
    }
  }

  /** From the zeroed map, any adjustments: without contention the limits are the filling by the room
      measured in all; from the first contention on they lie between the floors and the ceilings. */
  lemma FromZero(cfg: GlobalCfg, avgs: seq<u64>)
    requires WellFormed(cfg)
    ensures var r := RebalanceAll(cfg, ALL_ZERO, avgs);
      if SomeContended(cfg, avgs) then InBox(cfg, r) else r == FilledTo(cfg, TotalRoom(cfg, avgs))
  {
    assert FilledTo(cfg, 0) == ALL_ZERO;
    if SomeContended(cfg, avgs) { ContendedRun(cfg, 0, avgs); } else { FilledRun(cfg, 0, avgs); }
  }

  /** From the zeroed map a class whose floor is at least 1 MB has a real limit exactly once its turn has
      come; until then its limit is zero, which the limiter takes for none. */
  lemma RealFromZeroExactly(cfg: GlobalCfg, avgs: seq<u64>, c: ClassId)
    requires WellFormed(cfg) && MEGABYTE <= FloorOf(cfg, c)
    ensures var r := LimitOf(RebalanceAll(cfg, ALL_ZERO, avgs), c);
      if Reached(cfg, avgs, c) then RealLimit(r, CeilingOf(cfg, c)) else r == 0
  {
    FromZero(cfg, avgs);
    if SomeContended(cfg, avgs) {
      BoxedIsReal(cfg, RebalanceAll(cfg, ALL_ZERO, avgs), c);
    } else {
      FilledIsReal(cfg, TotalRoom(cfg, avgs), c);
    }
  }

  lemma BoxedIsReal(cfg: GlobalCfg, lim: Limits, c: ClassId)
    requires InBox(cfg, lim) && MEGABYTE <= FloorOf(cfg, c)
    ensures RealLimit(LimitOf(lim, c), CeilingOf(cfg, c))
  {
  }

  lemma FilledIsReal(cfg: GlobalCfg, s: nat, c: ClassId)
    requires MEGABYTE <= CeilingOf(cfg, c)
    ensures var r := LimitOf(FilledTo(cfg, s), c);
      if s > Before(cfg, c) then RealLimit(r, CeilingOf(cfg, c)) else r == 0
  {
  }
}
