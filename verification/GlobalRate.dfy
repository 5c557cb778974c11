/** The per-direction rate machine of bpf/qos_tc.c: struct global_rate_info with the code that updates
    it in place (`global_tb_rate_limit`, `global_edt`, `adjust_rate`), and the value one packet turns
    it into. Module Traces states what whole packet traces guarantee. */
module GlobalRate {

  import opened Words
  import opened TokenBucket
  import opened Pacer
  import opened Controller
  import opened Meter

  /** One class of struct global_rate_info. */
  datatype ClassState = ClassState(bps: u64, tLast: u64, slot: u64)

  datatype GlobalRate = GlobalRate(tLast: u64, l0: ClassState, l1: ClassState, l2: ClassState)

  const ZERO_RATE: GlobalRate :=
    GlobalRate(0, ClassState(0, 0, 0), ClassState(0, 0, 0), ClassState(0, 0, 0))

  /** What the limiter reads and writes of a packet. */
  datatype Skb = Skb(prio: u32, len: u32, stamp: u64)

  /** Which limiter the build puts behind a direction. */
  datatype Shaper = TokenBuckets | Pacers

  const PRIO_ONLINE: u32 := 0
  const PRIO_OFFLINE_L1: u32 := 1
  const PRIO_OFFLINE_L2: u32 := 2

  function LimitsOf(g: GlobalRate): Limits { Limits(g.l0.bps, g.l1.bps, g.l2.bps) }

  function WithLimits(g: GlobalRate, lim: Limits): GlobalRate {
    g.(l0 := g.l0.(bps := lim.l0), l1 := g.l1.(bps := lim.l1), l2 := g.l2.(bps := lim.l2))
  }

  type ClassId = c: u32 | c <= 2

  function ClassOf(g: GlobalRate, c: ClassId): ClassState { if c == 0 then g.l0 else if c == 1 then g.l1 else g.l2 }

  function WithClass(g: GlobalRate, c: ClassId, s: ClassState): GlobalRate {
    if c == 0 then g.(l0 := s) else if c == 1 then g.(l1 := s) else g.(l2 := s)
  }

  function FloorOf(cfg: GlobalCfg, c: ClassId): u64 {
    if c == 0 then cfg.l0Min else if c == 1 then cfg.l1Min else cfg.l2Min
  }

  function CeilingOf(cfg: GlobalCfg, c: ClassId): u64 {
    if c == 0 then cfg.hwMin else if c == 1 then cfg.l1Max else cfg.l2Max
  }

  /** The upper and the lower limit of a class as the controller applies them: whole megabytes. */
  function Top(cfg: GlobalCfg, c: ClassId): u64 { Bytes(Mb(CeilingOf(cfg, c))) }

  function Bottom(cfg: GlobalCfg, c: ClassId): u64 { Bytes(Mb(FloorOf(cfg, c))) }

  function LimitOf(lim: Limits, c: ClassId): u64 { if c == 0 then lim.l0 else if c == 1 then lim.l1 else lim.l2 }

  /** One class facing one packet. */
  function LimitClass(shaper: Shaper, s: ClassState, skb: Skb, now: u64): (ClassState, Verdict, u64) {
    match shaper
    case TokenBuckets =>
      var (b, v) := Admit(Bucket(s.slot, s.tLast), Offer(now, skb.len, s.bps));
      (s.(slot := b.tokens, tLast := b.tLast), v, skb.stamp)
    case Pacers =>
      var p := Pace(s.tLast, Arrival(now, skb.stamp, skb.len, s.bps));
      (s.(tLast := p.tLast), p.verdict, p.stamp)
  }

  /** The three-way switch. A packet of no class passes. */
  function Limit(shaper: Shaper, g: GlobalRate, skb: Skb, now: u64): (GlobalRate, Verdict, u64) {
    if skb.prio > 2 then (g, Ok, skb.stamp)
    else
      var (s, v, stamp) := LimitClass(shaper, ClassOf(g, skb.prio), skb, now);
      (WithClass(g, skb.prio, s), v, stamp)
  }

  predicate Due(g: GlobalRate, now: u64) { Sub64(now, g.tLast) >= NSEC_PER_SEC }

  function Adjust(cfg: GlobalCfg, g: GlobalRate, now: u64, avg: u64): GlobalRate {
    if Due(g, now) then WithLimits(g.(tLast := now), Rebalance(cfg, LimitsOf(g), avg)) else g
  }

  class GlobalRateInfo {
    var tLast: u64
    var tL0Last: u64
    var l0Bps: u64
    var l0Slot: u64
    var tL1Last: u64
    var l1Bps: u64
    var l1Slot: u64
    var tL2Last: u64
    var l2Bps: u64
    var l2Slot: u64

    ghost function State(): GlobalRate reads this {
      GlobalRate(tLast, ClassState(l0Bps, tL0Last, l0Slot), ClassState(l1Bps, tL1Last, l1Slot),
                 ClassState(l2Bps, tL2Last, l2Slot))
    }

    /** Entries of an array map start out zeroed. */
    constructor ()
      ensures State() == ZERO_RATE
    {
      tLast, tL0Last, l0Bps, l0Slot := 0, 0, 0, 0;
      tL1Last, l1Bps, l1Slot := 0, 0, 0;
      tL2Last, l2Bps, l2Slot := 0, 0, 0;
    }

    method GlobalTbRateLimit(priority: u32, wireLen: u32, now: u64) returns (verdict: Verdict)
      modifies this
      ensures var r := Limit(TokenBuckets, old(State()), Skb(priority, wireLen, 0), now);
        State() == r.0 && verdict == r.1
    {
      if priority == PRIO_ONLINE {
        verdict, l0Slot, tL0Last := Accept(wireLen, l0Slot, tL0Last, l0Bps, now);
      } else if priority == PRIO_OFFLINE_L1 {
        verdict, l1Slot, tL1Last := Accept(wireLen, l1Slot, tL1Last, l1Bps, now);
      } else if priority == PRIO_OFFLINE_L2 {
        verdict, l2Slot, tL2Last := Accept(wireLen, l2Slot, tL2Last, l2Bps, now);
      } else {
        verdict := Ok;
      }
    }

    method GlobalEdt(priority: u32, wireLen: u32, stamp: u64, now: u64) returns (verdict: Verdict, stamp': u64)
      modifies this
      ensures (State(), verdict, stamp') == Limit(Pacers, old(State()), Skb(priority, wireLen, stamp), now)
    {
      if priority == PRIO_ONLINE {
        tL0Last, stamp', verdict := PaceOne(tL0Last, wireLen, l0Bps, stamp, now);
      } else if priority == PRIO_OFFLINE_L1 {
        tL1Last, stamp', verdict := PaceOne(tL1Last, wireLen, l1Bps, stamp, now);
      } else if priority == PRIO_OFFLINE_L2 {
        tL2Last, stamp', verdict := PaceOne(tL2Last, wireLen, l2Bps, stamp, now);
      } else {
        stamp', verdict := stamp, Ok;
      }
    }

    /** The branching code against the greedy walk: `now` is the reading that decides whether an
        adjustment is due, `avgNow` the one the meter takes. */
    method AdjustRate(cfg: GlobalCfg, meter: NetStatMap, d: Direction, now: u64, avgNow: u64)
      requires meter.Valid()
      modifies this
      ensures State() == Adjust(cfg, old(State()), now, Average(meter.Contents(), d, avgNow))
    {
      if Sub64(now, tLast) < NSEC_PER_SEC {
        return;
      }
      tLast := now;
      var avg := meter.GetAverageRate(d, avgNow);
      if avg / MEGABYTE > cfg.hwMin / MEGABYTE {
        Suppress(cfg, avg);
      } else {
        Recover(cfg, avg);
      }
    }

    ghost function InForce(): Limits reads this { Limits(l0Bps, l1Bps, l2Bps) }

    /** The contention half of `adjust_rate`. */
    method Suppress(cfg: GlobalCfg, avg: u64)
      requires Mb(avg) > Mb(cfg.hwMin)
      modifies this`l0Bps, this`l1Bps, this`l2Bps
      ensures InForce() == Rebalance(cfg, old(InForce()), avg)
    {
      SuppressedLimits(cfg, InForce(), avg);
      var overflow: Megabytes := avg / MEGABYTE - cfg.hwMin / MEGABYTE;
      var l0Min, l1Min, l2Min := Mb(cfg.l0Min), Mb(cfg.l1Min), Mb(cfg.l2Min);
      var l0Cur, l1Cur, l2Cur := Mb(l0Bps), Mb(l1Bps), Mb(l2Bps);
      if l2Cur > l2Min {
        if overflow >= l2Cur - l2Min {
          overflow := overflow - (l2Cur - l2Min);
          l2Bps := l2Min * MEGABYTE;
        } else {
          l2Bps := (l2Cur - overflow) * MEGABYTE;
          overflow := 0;
        }
      } else {
        l2Bps := l2Min * MEGABYTE;
      }
      if overflow > 0 {
        if l1Cur > l1Min {
          if overflow >= l1Cur - l1Min {
            overflow := overflow - (l1Cur - l1Min);
            l1Bps := l1Min * MEGABYTE;
          } else {
            l1Bps := (l1Cur - overflow) * MEGABYTE;
            overflow := 0;
          }
        } else {
          l1Bps := l1Min * MEGABYTE;
        }
      }
      if overflow > 0 {
        if l0Cur > l0Min {
          if overflow >= l0Cur - l0Min {
            l0Bps := l0Min * MEGABYTE;
          } else {
            l0Bps := (l0Cur - overflow) * MEGABYTE;
          }
        } else {
          l0Bps := l0Min * MEGABYTE;
        }
      }
    }

    /** The recovery half of `adjust_rate`. */
    method Recover(cfg: GlobalCfg, avg: u64)
      requires Mb(avg) <= Mb(cfg.hwMin)
      modifies this`l0Bps, this`l1Bps, this`l2Bps
      ensures InForce() == Rebalance(cfg, old(InForce()), avg)
    {
      RecoveredLimits(cfg, InForce(), avg);
      var overflow: Megabytes := cfg.hwMin / MEGABYTE - avg / MEGABYTE;
      var hwMax, l1Max, l2Max := Mb(cfg.hwMin), Mb(cfg.l1Max), Mb(cfg.l2Max);
      var l0Cur, l1Cur, l2Cur := Mb(l0Bps), Mb(l1Bps), Mb(l2Bps);
      if overflow > 0 {
        if hwMax > l0Cur {
          if overflow >= hwMax - l0Cur {
            overflow := overflow - (hwMax - l0Cur);
            l0Bps := hwMax * MEGABYTE;
          } else {
            l0Bps := (l0Cur + overflow) * MEGABYTE;
            overflow := 0;
          }
        } else {
          l0Bps := hwMax * MEGABYTE;
        }
        if overflow > 0 {
          if l1Max > l1Cur {
            if overflow >= l1Max - l1Cur {
              overflow := overflow - (l1Max - l1Cur);
              l1Bps := l1Max * MEGABYTE;
            } else {
              l1Bps := (l1Cur + overflow) * MEGABYTE;
              overflow := 0;
            }
          } else {
            l1Bps := l1Max * MEGABYTE;
          }
        }
        if overflow > 0 {
          if l2Max > l2Cur {
            if overflow >= l2Max - l2Cur {
              l2Bps := l2Max * MEGABYTE;
            } else {
              l2Bps := (l2Cur + overflow) * MEGABYTE;
            }
          } else {
            l2Bps := l2Max * MEGABYTE;
          }
        }
      }
    }
  }
}
