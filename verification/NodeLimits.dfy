/** The upper and the lower limit of a class for the whole program from its freshly loaded maps, with the
    averages its own meter reports: when they hold, and concrete packets for which the upper one does not. */
module NodeLimits {

  import opened Words
  import opened Options
  import opened TokenBucket
  import opened Controller
  import opened Meter
  import opened AddressKeys
  import opened GlobalRate
  import opened QosProgram
  import opened Filling
  import opened Ceiling
  import opened UpperLimit
  import opened LowerLimit
  import opened EndToEnd
  import opened GlobalConfigs
  import P = Pacer
  import T = Traces

  lemma {:induction false} RunKeepsTables(n: Node, ps: seq<Arrived>)
    ensures var n' := RunNode(n, ps);
      n'.edt == n.edt && n'.pods == n.pods && n'.ingressCfg == n.ingressCfg && n'.egressCfg == n.egressCfg
    decreases ps
  {
    if ps != [] {
      StepKeepsTables(n, ps[0]);
      RunKeepsTables(QosProgram.Step(n, ps[0]).0, ps[1..]);
    }
  }

  // ---- when the limits hold ----

  /** A direction of a freshly loaded node after a history: the class limits are those of the packets that
      reached it, with the averages the meter reported for them. */
  lemma HostAfter(n: Node, history: seq<Arrived>, d: Direction)
    requires GlobalOf(n, d) == ZERO_RATE
    ensures var n' := RunNode(n, history);
      && CfgOf(n', d) == CfgOf(n, d) && n'.edt == n.edt
      && GlobalOf(n', d) == After(ShaperOf(n.edt, d), CfgOf(n, d), Reaching(n, history, d))
  {
    RunKeepsTables(n, history);
    GlobalProjection(n, history, d, 0);
  }

  /** By the meter's own averages the class's turn has come, or contention has been seen. */
  ghost predicate NodeReached(n: Node, history: seq<Arrived>, d: Direction, c: ClassId) {
    Reached(CfgOf(n, d), FiredIn(ShaperOf(n.edt, d), CfgOf(n, d), Reaching(n, history, d)), c)
  }

  ghost predicate NodeContended(n: Node, history: seq<Arrived>, d: Direction) {
    SomeContended(CfgOf(n, d), FiredIn(ShaperOf(n.edt, d), CfgOf(n, d), Reaching(n, history, d)))
  }

  /** The upper limit for the whole program, from the freshly loaded maps: once the class's turn has come by
      the meter's own averages, it holds over every later stretch of packets. */
  lemma NodeCeilingOnceReached(n: Node, history: seq<Arrived>, ps: seq<Arrived>, d: Direction, c: ClassId)
    requires WellFormed(CfgOf(n, d)) && MEGABYTE <= FloorOf(CfgOf(n, d), c)
    requires GlobalOf(n, d) == ZERO_RATE && ShaperOf(n.edt, d) == TokenBuckets && NodeReached(n, history, d, c)
    requires NodeClocked(ps) && ps != []
    ensures var top := Top(CfgOf(n, d), c);
      NSEC_PER_SEC * PassedBytes(RunNode(n, history), ps, d, c)
      <= NSEC_PER_SEC * top + top * (ps[|ps| - 1].clocks.limit - ps[0].clocks.limit)
  {
    var cfg, trace := CfgOf(n, d), Reaching(n, history, d);
    HostAfter(n, history, d);
    assert UnderControl(cfg, After(TokenBuckets, cfg, trace), c) by {
      RealAfterExactly(TokenBuckets, cfg, trace, c);
      TokensUnderTop(cfg, ZERO_RATE, trace, c);
    }
    NodeCeiling(RunNode(n, history), ps, d, c);
  }

  /** A packet of the class that passes the whole program in one direction. */
  ghost predicate PassesAs(n: Node, p: Arrived, d: Direction, c: ClassId) {
    Reaches(n, p, d) && Cgroup(n, p).2.prio == c && QosProgram.Step(n, p).1.verdict == Ok
  }

  /** Once a paced class has a real limit and one of its packets has passed, its virtual clock is near. */
  lemma PassedSetsClock(n: Node, history: seq<Arrived>, p: Arrived, d: Direction, c: ClassId)
    requires WellFormed(CfgOf(n, d)) && MEGABYTE <= FloorOf(CfgOf(n, d), c)
    requires GlobalOf(n, d) == ZERO_RATE && ShaperOf(n.edt, d) == Pacers && NodeReached(n, history, d, c)
    requires NodeStamped(history + [p]) && PassesAs(RunNode(n, history), p, d, c)
    ensures var n' := QosProgram.Step(RunNode(n, history), p).0;
      PacedFrom(n', p.clocks.limit, d, c) && n'.edt == n.edt && CfgOf(n', d) == CfgOf(n, d)
  {
    var cfg, trace, n1 := CfgOf(n, d), Reaching(n, history, d), RunNode(n, history);
    HostAfter(n, history, d);
    StepKeepsTables(n1, p);
    StepShape(n1, p, d);
    HistoryNear(n, history, p, d);
    EnteringStamp(n1, p);
    RealAfterExactly(Pacers, cfg, trace, c);
    ClassClockNear(cfg, ZERO_RATE, trace, c, p.clocks.limit);
    AcceptedSetsClock(cfg, GlobalOf(n1, d), Entering(n1, p), c);
    StepKeepsRealLimit(Pacers, cfg, GlobalOf(n1, d), Entering(n1, p), c);
  }

  lemma HistoryNear(n: Node, history: seq<Arrived>, p: Arrived, d: Direction)
    requires NodeStamped(history + [p])
    ensures p.clocks.pod <= p.clocks.limit < HALF && p.stamp < p.clocks.pod + T_HORIZON_DROP
    ensures StampedInTime(Reaching(n, history, d)) && NoLaterThan(Reaching(n, history, d), p.clocks.limit)
  {
    var all := history + [p];
    assert all[|history|] == p;
    assert forall i :: 0 <= i < |history| ==> history[i] == all[i];
    ReachingStamped(n, history, d);
    ReachingClocked(n, history, d);
  }

  /** The same where the direction is paced, from the first packet of the class that passes on. */
  lemma NodePacedCeilingOnceReached(n: Node, history: seq<Arrived>, p: Arrived, ps: seq<Arrived>,
                                    d: Direction, c: ClassId)
    requires WellFormed(CfgOf(n, d)) && MEGABYTE <= FloorOf(CfgOf(n, d), c)
    requires GlobalOf(n, d) == ZERO_RATE && ShaperOf(n.edt, d) == Pacers && NodeReached(n, history, d, c)
    requires PassesAs(RunNode(n, history), p, d, c)
    requires NodeStamped(history + [p]) && NodeStamped([p] + ps) && ps != []
    ensures NSEC_PER_SEC * PassedBytes(QosProgram.Step(RunNode(n, history), p).0, ps, d, c)
         <= Top(CfgOf(n, d), c) * P.PacedSpan(p.clocks.limit, ps[|ps| - 1].clocks.limit, |ps|)
  {
    var n' := QosProgram.Step(RunNode(n, history), p).0;
    assert PacedFrom(n', p.clocks.limit, d, c) && ShaperOf(n'.edt, d) == Pacers && CfgOf(n', d) == CfgOf(n, d) by {
      PassedSetsClock(n, history, p, d, c);
    }
    StampedRest(p, ps);
    NodePacedCeiling(n', p.clocks.limit, ps, d, c);
  }

  lemma StampedRest(p: Arrived, ps: seq<Arrived>)
    requires NodeStamped([p] + ps) && ps != []
    ensures NodeStamped(ps) && p.clocks.limit <= ps[0].clocks.limit && p.clocks.pod <= ps[0].clocks.pod
  {
    var all := [p] + ps;
    assert all[0] == p && forall i :: 0 <= i < |ps| ==> ps[i] == all[i + 1];
  }

  /** Bytes of a class that reach the host limiter. */
  function OfferedBytes(trace: seq<T.Packet>, c: ClassId): nat {
    if trace == [] then 0 else (if T.OfClass(trace[0], c) then trace[0].skb.len else 0) + OfferedBytes(trace[1..], c)
  }

  lemma {:induction false} AllPassAllBytes(shaper: Shaper, cfg: GlobalCfg, g: GlobalRate,
                                          trace: seq<T.Packet>, c: ClassId)
    requires AllPass(T.ClassOutcomes(shaper, cfg, g, trace, c))
    ensures T.ClassBytes(shaper, cfg, g, trace, c) == OfferedBytes(trace, c)
    decreases trace
  {
    if trace != [] {
      var (g', o) := T.Step(shaper, cfg, g, trace[0]);
      var r := T.ClassOutcomes(shaper, cfg, g, trace, c);
      var rest := T.ClassOutcomes(shaper, cfg, g', trace[1..], c);
      if T.OfClass(trace[0], c) {
        assert r[0] == o && r[1..] == rest;
      } else {
        assert r == rest;
      }
      AllPassAllBytes(shaper, cfg, g', trace[1..], c);
    }
  }

  /** The class's packets that reach the host keep to its lower limit, in the terms of the direction's build. */
  ghost predicate NodeKeepsToFloor(n: Node, ps: seq<Arrived>, d: Direction, c: ClassId) {
    var cfg, g, mine := CfgOf(n, d), GlobalOf(n, d), Reaching(n, ps, d);
    match ShaperOf(n.edt, d)
    case TokenBuckets => KeepsToFloor(cfg, g, mine, c) && CreditsFit(cfg, g, mine, c)
    case Pacers => PacesToFloor(cfg, g, mine, c)
  }

  /** The lower limit for the whole program, from the freshly loaded maps and in either build: once contention has
      been measured, a class that keeps to its floor gets through every byte its pods' own limits let past. */
  lemma NodeFloorOnceContended(n: Node, history: seq<Arrived>, ps: seq<Arrived>, d: Direction, c: ClassId)
    requires WellFormed(CfgOf(n, d)) && MEGABYTE <= FloorOf(CfgOf(n, d), c)
    requires GlobalOf(n, d) == ZERO_RATE && NodeContended(n, history, d)
    requires NodeKeepsToFloor(RunNode(n, history), ps, d, c)
    ensures PassedBytes(RunNode(n, history), ps, d, c) == OfferedBytes(Reaching(RunNode(n, history), ps, d), c)
  {
    var cfg, n', trace := CfgOf(n, d), RunNode(n, history), Reaching(n, history, d);
    var shaper, mine := ShaperOf(n.edt, d), Reaching(n', ps, d);
    HostAfter(n, history, d);
    if shaper == TokenBuckets {
      FloorServedOnceContended(cfg, trace, mine, c);
    } else {
      PacedFloorServedOnceContended(cfg, trace, mine, c);
    }
    AllPassAllBytes(shaper, cfg, After(shaper, cfg, trace), mine, c);
    GlobalProjection(n', ps, d, c);
  }

  // ---- when the upper limit fails: concrete packets from the freshly loaded maps ----

  function FreshNode(edt: bool, ingressCfg: GlobalCfg, egressCfg: GlobalCfg): Node {
    Node(edt, ingressCfg, egressCfg, map[], map[], ZeroStats(), ZERO_RATE, ZERO_RATE)
  }

  /** A packet of the host itself, with its priority already set; every clock reading it causes is the same. */
  function Host(d: Direction, prio: u32, len: u32, t: u64): Arrived {
    Arrived(d, Ip4([0, 0, 0, 0], [0, 0, 0, 0]), len, prio, None, 0, Clocks(t, t, t, t, t))
  }

  /** Packets of one length, all at one instant. */
  function Crowd(d: Direction, prio: u32, len: u32, k: nat, t: u64): (r: seq<Arrived>)
    ensures |r| == k && forall i :: 0 <= i < k ==> r[i] == Host(d, prio, len, t)
    decreases k
  {
    if k == 0 then [] else [Host(d, prio, len, t)] + Crowd(d, prio, len, k - 1, t)
  }

  /** With no pod known, a packet of the host is counted and meets the host limiter. */
  lemma HostStep(n: Node, d: Direction, prio: u32, len: u32, t: u64)
    requires n.pods == map[]
    ensures var m := Count(n.meter, d, len, t).0;
      var (g, o) := T.Step(ShaperOf(n.edt, d), CfgOf(n, d), GlobalOf(n, d),
                           T.Packet(Skb(prio, len, 0), t, t, Average(m, d, t)));
      QosProgram.Step(n, Host(d, prio, len, t)) == (WithRate(n.(meter := m), d, g), o)
      && Cgroup(n, Host(d, prio, len, t)).2.prio == prio
  {
  }

  /** The class has no limit, and no adjustment is due. */
  ghost predicate Open(n: Node, d: Direction, c: ClassId, t: u64) {
    n.pods == map[] && GlobalOf(n, d).tLast == t && Unlimited(ShaperOf(n.edt, d), GlobalOf(n, d), c, t)
  }

  lemma OpenStays(n: Node, d: Direction, c: ClassId, len: u32, t: u64)
    requires Open(n, d, c, t)
    ensures var (n', o) := QosProgram.Step(n, Host(d, c, len, t));
      o.verdict == Ok && Open(n', d, c, t) && Cgroup(n, Host(d, c, len, t)).2.prio == c
  {
    HostStep(n, d, c, len, t);
    ZeroLimitPasses(ShaperOf(n.edt, d), GlobalOf(n, d), c, len, t);
  }

  lemma ZeroLimitPasses(shaper: Shaper, g: GlobalRate, c: ClassId, len: u32, t: u64)
    requires Unlimited(shaper, g, c, t)
    ensures var (g', v, _) := Limit(shaper, g, Skb(c, len, 0), t);
      v == Ok && g'.tLast == g.tLast && LimitsOf(g') == LimitsOf(g) && Unlimited(shaper, g', c, t)
  {
  }

  /** While no adjustment is due, a class without a limit gets everything through. */
  lemma {:induction false} CrowdPasses(n: Node, d: Direction, c: ClassId, len: u32, k: nat, t: u64)
    requires Open(n, d, c, t)
    ensures PassedBytes(n, Crowd(d, c, len, k, t), d, c) == k * len
    decreases k
  {
    if k > 0 {
      var ps := Crowd(d, c, len, k, t);
      assert ps[0] == Host(d, c, len, t) && ps[1..] == Crowd(d, c, len, k - 1, t);
      OpenStays(n, d, c, len, t);
      CrowdPasses(QosProgram.Step(n, ps[0]).0, d, c, len, k - 1, t);
      OneMore(k - 1, len);
    }
  }

  // ---- the meter of an idle direction ----

  /** No bytes recorded but those of the open window. */
  ghost predicate Idle(s: Stats, d: Direction) { forall k :: 0 <= k < 20 && k != Base(d) ==> s[k].val == 0 }

  lemma {:induction false} IdleSum(s: Stats, d: Direction, now: u64, n: nat)
    requires Idle(s, d) && n <= 9
    ensures RecentSum(s, d, now, n) == if n == 0 then 0 else Recent(s[Base(d)], now)
  {
    if n > 0 { IdleSum(s, d, now, n - 1); }
  }

  /** A packet after more than 300 ms of silence: the window closes at rate zero. */
  lemma LateCount(s: Stats, d: Direction, len: u32, t: u64)
    requires Idle(s, d) && s[Base(d)].index <= 8 && s[Base(d)].ts + STALE < t
    ensures var s' := Count(s, d, len, t).0;
      Idle(s', d) && s'[Base(d)] == NetStat(Cursor(s[Base(d)].index) + 1, t, 0)
  {
  }

  lemma LateAverage(s: Stats, d: Direction, len: u32, t: u64)
    requires Idle(s, d) && s[Base(d)].index <= 8 && s[Base(d)].ts + STALE < t
    ensures Average(Count(s, d, len, t).0, d, t) == 0
  {
    LateCount(s, d, len, t);
    IdleSum(Count(s, d, len, t).0, d, t, 9);
  }

  /** One second after the last adjustment, an empty packet of no class finds the meter at zero and lets the
      controller hand out the whole hardware limit. */
  lemma BeatStep(n: Node, d: Direction, t: u64)
    requires n.pods == map[]
    requires Idle(n.meter, d) && n.meter[Base(d)].index <= 8 && n.meter[Base(d)].ts + STALE < t
    requires GlobalOf(n, d).tLast + NSEC_PER_SEC <= t
    ensures var n', g := QosProgram.Step(n, Host(d, 3, 0, t)).0, GlobalOf(n, d);
      && n'.pods == map[] && n'.edt == n.edt && CfgOf(n', d) == CfgOf(n, d)
      && Idle(n'.meter, d) && n'.meter[Base(d)] == NetStat(Cursor(n.meter[Base(d)].index) + 1, t, 0)
      && GlobalOf(n', d) == WithLimits(g.(tLast := t), Rebalance(CfgOf(n, d), LimitsOf(g), 0))
  {
    HostStep(n, d, 3, 0, t);
    LateCount(n.meter, d, 0, t);
    LateAverage(n.meter, d, 0, t);
  }

  // ---- the fresh start ----

  /** From the freshly loaded maps L1 and L2 have no limit, in either build and whatever the configuration: any
      number of packets of any length passes at the first instant. The first adjustment gives all the room to L0. */
  lemma FreshStartUnlimited(edt: bool, ingressCfg: GlobalCfg, egressCfg: GlobalCfg, d: Direction, c: ClassId,
                            len: u32, k: nat)
    requires c > 0
    ensures PassedBytes(FreshNode(edt, ingressCfg, egressCfg), Crowd(d, c, len, k, NSEC_PER_SEC), d, c) == k * len
  {
    if k > 0 {
      var n, p := FreshNode(edt, ingressCfg, egressCfg), Host(d, c, len, NSEC_PER_SEC);
      var ps := Crowd(d, c, len, k, NSEC_PER_SEC);
      assert ps[0] == p && ps[1..] == Crowd(d, c, len, k - 1, NSEC_PER_SEC);
      FirstOfCrowd(n, d, c, len);
      CrowdPasses(QosProgram.Step(n, p).0, d, c, len, k - 1, NSEC_PER_SEC);
      OneMore(k - 1, len);
    }
  }

  lemma FirstOfCrowd(n: Node, d: Direction, c: ClassId, len: u32)
    requires n.pods == map[] && n.meter == ZeroStats() && GlobalOf(n, d) == ZERO_RATE && c > 0
    ensures var (n', o) := QosProgram.Step(n, Host(d, c, len, NSEC_PER_SEC));
      o.verdict == Ok && Open(n', d, c, NSEC_PER_SEC) && Cgroup(n, Host(d, c, len, NSEC_PER_SEC)).2.prio == c
  {
    HostStep(n, d, c, len, NSEC_PER_SEC);
    LateAverage(n.meter, d, len, NSEC_PER_SEC);
    FirstPacket(ShaperOf(n.edt, d), CfgOf(n, d), c, len);
  }

  lemma FirstPacket(shaper: Shaper, cfg: GlobalCfg, c: ClassId, len: u32)
    requires c > 0
    ensures var (g, o) := T.Step(shaper, cfg, ZERO_RATE, T.Packet(Skb(c, len, 0), NSEC_PER_SEC, NSEC_PER_SEC, 0));
      o.verdict == Ok && g.tLast == NSEC_PER_SEC && Unlimited(shaper, g, c, NSEC_PER_SEC)
  {
    ZeroLimitPasses(shaper, ZERO_RATE, c, len, NSEC_PER_SEC);
    assert FilledTo(cfg, 0) == ALL_ZERO;
    FilledStep(cfg, 0, 0);
  }

  // ---- a floor below 1 MB ----

  /** Three seconds of silence, but for a packet each; then a burst of packets of no class, and one more
      packet: the meter counts the burst as its pending bytes and the controller suppresses every class. */
  function WarmFrom(d: Direction, i: nat): (r: seq<Arrived>)
    requires i <= 3
    ensures |r| == 3 - i && forall k :: 0 <= k < |r| ==> r[k] == Host(d, 3, 0, (i + k + 1) * NSEC_PER_SEC)
    decreases 3 - i
  {
    if i == 3 then [] else [Host(d, 3, 0, (i + 1) * NSEC_PER_SEC)] + WarmFrom(d, i + 1)
  }

  function Warm(d: Direction): seq<Arrived> { WarmFrom(d, 0) }

  const BURST: u64 := 3_950_000_000
  const SECOND4: u64 := 4_000_000_000

  function BurstBytes(cfg: GlobalCfg): nat { 9 * ((3 * Mb(cfg.hwMin) + 1) * MEGABYTE) }

  function Push(cfg: GlobalCfg, d: Direction): seq<Arrived> {
    Crowd(d, 3, 1, BurstBytes(cfg) + 1, BURST) + [Host(d, 3, 0, SECOND4)]
  }

  lemma {:induction false} RunNodeSplit(n: Node, a: seq<Arrived>, b: seq<Arrived>)
    ensures RunNode(n, a + b) == RunNode(RunNode(n, a), b)
    decreases a
  {
    if a == [] {
      assert a + b == b;
    } else {
      assert (a + b)[1..] == a[1..] + b && (a + b)[0] == a[0];
      RunNodeSplit(QosProgram.Step(n, a[0]).0, a[1..], b);
    }
  }

  function Handed(i: nat, m: nat): nat {
    if i == 0 then 0 else if i == 1 then m else if i == 2 then m + m else m + m + m
  }

  /** After `i` seconds: an idle meter, the hardware limit handed out `i` times, empty buckets. */
  ghost predicate WarmedTo(n: Node, d: Direction, i: nat)
    requires i <= 3
  {
    WarmMeter(n, d, i) && GlobalOf(n, d) == WarmRate(CfgOf(n, d), i)
  }

  ghost predicate WarmMeter(n: Node, d: Direction, i: nat)
    requires i <= 3
  {
    && n.pods == map[] && Idle(n.meter, d)
    && n.meter[Base(d)] == NetStat(if i == 0 then 0 else i + 1, i * NSEC_PER_SEC, 0)
  }

  function WarmRate(cfg: GlobalCfg, i: nat): GlobalRate
    requires i <= 3
  {
    WithLimits(ZERO_RATE.(tLast := i * NSEC_PER_SEC), FilledTo(cfg, Handed(i, Mb(cfg.hwMin))))
  }

  lemma WarmRateStep(cfg: GlobalCfg, i: nat)
    requires i <= 2
    ensures var g := WarmRate(cfg, i);
      WithLimits(g.(tLast := (i + 1) * NSEC_PER_SEC), Rebalance(cfg, LimitsOf(g), 0)) == WarmRate(cfg, i + 1)
  {
    FilledStep(cfg, Handed(i, Mb(cfg.hwMin)), 0);
  }

  lemma WarmMeterStep(n: Node, d: Direction, i: nat)
    requires i <= 2 && WarmMeter(n, d, i) && GlobalOf(n, d).tLast == i * NSEC_PER_SEC
    ensures var t, g := (i + 1) * NSEC_PER_SEC, GlobalOf(n, d);
      var n' := QosProgram.Step(n, Host(d, 3, 0, t)).0;
      && WarmMeter(n', d, i + 1) && CfgOf(n', d) == CfgOf(n, d) && n'.edt == n.edt
      && GlobalOf(n', d) == WithLimits(g.(tLast := t), Rebalance(CfgOf(n, d), LimitsOf(g), 0))
  {
    BeatStep(n, d, (i + 1) * NSEC_PER_SEC);
  }

  lemma WarmStep(n: Node, d: Direction, i: nat)
    requires i <= 2 && WarmedTo(n, d, i)
    ensures var n' := QosProgram.Step(n, Host(d, 3, 0, (i + 1) * NSEC_PER_SEC)).0;
      WarmedTo(n', d, i + 1) && CfgOf(n', d) == CfgOf(n, d) && n'.edt == n.edt
  {
    WarmMeterStep(n, d, i);
    WarmRateStep(CfgOf(n, d), i);
  }

  lemma FreshIsWarm(n: Node, d: Direction)
    requires n.pods == map[] && n.meter == ZeroStats() && GlobalOf(n, d) == ZERO_RATE
    ensures WarmedTo(n, d, 0)
  {
    assert FilledTo(CfgOf(n, d), 0) == ALL_ZERO;
  }

  lemma {:induction false} WarmRun(n: Node, d: Direction, i: nat)
    requires i <= 3 && WarmedTo(n, d, i)
    ensures var n' := RunNode(n, WarmFrom(d, i));
      WarmedTo(n', d, 3) && CfgOf(n', d) == CfgOf(n, d) && n'.edt == n.edt
    decreases 3 - i
  {
    if i < 3 {
      var p := Host(d, 3, 0, (i + 1) * NSEC_PER_SEC);
      var n1 := QosProgram.Step(n, p).0;
      WarmStep(n, d, i);
      WarmRun(n1, d, i + 1);
      assert RunNode(n, WarmFrom(d, i)) == RunNode(n1, WarmFrom(d, i + 1)) by {
        assert WarmFrom(d, i)[1..] == WarmFrom(d, i + 1) && WarmFrom(d, i)[0] == p;
      }
    }
  }

  lemma FilledUp(cfg: GlobalCfg)
    requires Sound(cfg)
    ensures LimitsOf(WarmRate(cfg, 3)) == Ceilings(cfg)
  {
  }

  /** The first packet of the burst closes the silent window. */
  lemma BurstOpens(n: Node, d: Direction)
    requires WarmedTo(n, d, 3)
    ensures var n' := QosProgram.Step(n, Host(d, 3, 1, BURST)).0;
      && n'.pods == map[] && n'.edt == n.edt && CfgOf(n', d) == CfgOf(n, d) && GlobalOf(n', d) == GlobalOf(n, d)
      && Idle(n'.meter, d) && n'.meter[Base(d)] == NetStat(5, BURST, 0)
  {
    HostStep(n, d, 3, 1, BURST);
    LateCount(n.meter, d, 1, BURST);
  }

  /** The rest of it only adds to the pending bytes. */
  lemma {:induction false} BurstPends(n: Node, d: Direction, k: nat, v: u64)
    requires n.pods == map[] && Idle(n.meter, d) && n.meter[Base(d)] == NetStat(5, BURST, v) && v + k < TWO64
    requires GlobalOf(n, d).tLast == 3_000_000_000
    ensures var n' := RunNode(n, Crowd(d, 3, 1, k, BURST));
      && n'.pods == map[] && n'.edt == n.edt && CfgOf(n', d) == CfgOf(n, d) && GlobalOf(n', d) == GlobalOf(n, d)
      && Idle(n'.meter, d) && n'.meter[Base(d)] == NetStat(5, BURST, v + k)
    decreases k
  {
    if k > 0 {
      var ps := Crowd(d, 3, 1, k, BURST);
      assert ps[0] == Host(d, 3, 1, BURST) && ps[1..] == Crowd(d, 3, 1, k - 1, BURST);
      HostStep(n, d, 3, 1, BURST);
      BurstPends(QosProgram.Step(n, ps[0]).0, d, k - 1, v + 1);
    }
  }

  /** Every class suppressed to its floor, at the fourth second. */
  function PushedRate(cfg: GlobalCfg): GlobalRate { WithLimits(ZERO_RATE.(tLast := SECOND4), Floors(cfg)) }

  /** The next adjustment takes the pending bytes for traffic, and suppresses. */
  lemma PushSuppresses(n: Node, d: Direction)
    requires var cfg := CfgOf(n, d);
      && Sound(cfg) && BurstBytes(cfg) < TWO64
      && n.meter[Base(d)] == NetStat(5, BURST, BurstBytes(cfg)) && GlobalOf(n, d) == WarmRate(cfg, 3)
    requires n.pods == map[] && Idle(n.meter, d)
    ensures var n' := QosProgram.Step(n, Host(d, 3, 0, SECOND4)).0;
      && n'.pods == map[] && n'.edt == n.edt && CfgOf(n', d) == CfgOf(n, d)
      && GlobalOf(n', d) == PushedRate(CfgOf(n, d))
  {
    var cfg, m := CfgOf(n, d), Count(n.meter, d, 0, SECOND4).0;
    HostStep(n, d, 3, 0, SECOND4);
    assert Idle(m, d) && m[Base(d)] == n.meter[Base(d)];
    IdleSum(m, d, SECOND4, 9);
    var avg := Average(m, d, SECOND4);
    assert avg == (3 * Mb(cfg.hwMin) + 1) * MEGABYTE;
    FilledUp(cfg);
    CeilingsSuppressed(cfg, avg);
  }

  lemma CeilingsSuppressed(cfg: GlobalCfg, avg: u64)
    requires Sound(cfg) && avg == (3 * Mb(cfg.hwMin) + 1) * MEGABYTE
    ensures Rebalance(cfg, Ceilings(cfg), avg) == Floors(cfg)
  {
    var x := DrainOrder(cfg, Ceilings(cfg));
    TotalsOfThree(x[0], x[1], x[2]);
    SuppressionProgress(cfg, Ceilings(cfg), avg);
  }

  lemma PushNode(n: Node, d: Direction)
    requires var cfg := CfgOf(n, d); Sound(cfg) && BurstBytes(cfg) < TWO64 && WarmedTo(n, d, 3)
    ensures var n' := RunNode(n, Push(CfgOf(n, d), d));
      && n'.pods == map[] && n'.edt == n.edt && CfgOf(n', d) == CfgOf(n, d)
      && GlobalOf(n', d) == PushedRate(CfgOf(n, d))
  {
    var cfg := CfgOf(n, d);
    var k := BurstBytes(cfg);
    var burst, last := Crowd(d, 3, 1, k + 1, BURST), Host(d, 3, 0, SECOND4);
    var n1 := QosProgram.Step(n, Host(d, 3, 1, BURST)).0;
    var n2 := RunNode(n1, Crowd(d, 3, 1, k, BURST));
    BurstOpens(n, d);
    BurstPends(n1, d, k, 0);
    PushSuppresses(n2, d);
    RunNodeSplit(n, burst, [last]);
    assert burst[0] == Host(d, 3, 1, BURST) && burst[1..] == Crowd(d, 3, 1, k, BURST);
    assert RunNode(n, burst) == n2;
    assert [last][1..] == [] && RunNode(n2, [last]) == RunNode(QosProgram.Step(n2, last).0, []);
  }

  lemma WarmedIsControlled(n: Node, d: Direction, c: ClassId)
    requires Sound(CfgOf(n, d)) && WarmedTo(n, d, 3) && MEGABYTE <= CeilingOf(CfgOf(n, d), c)
    ensures UnderControl(CfgOf(n, d), GlobalOf(n, d), c)
  {
    FilledUp(CfgOf(n, d));
  }

  lemma PushedIsOpen(n: Node, d: Direction, c: ClassId)
    requires n.pods == map[] && GlobalOf(n, d) == PushedRate(CfgOf(n, d)) && FloorOf(CfgOf(n, d), c) < MEGABYTE
    ensures Open(n, d, c, SECOND4)
  {
  }

  lemma PushClocked(cfg: GlobalCfg, d: Direction, c: ClassId, len: u32, k: nat)
    ensures NodeClocked(Warm(d) + Push(cfg, d) + Crowd(d, c, len, k, SECOND4))
  {
  }

  /** A floor below 1 MB, from the freshly loaded maps, in either build and with what the meter reports: a class
      that has had its full upper limit is suppressed to zero, and then any number of packets of any length
      passes at one instant. */
  lemma SuppressedToNone(edt: bool, ingressCfg: GlobalCfg, egressCfg: GlobalCfg, d: Direction, c: ClassId,
                         len: u32, k: nat)
    requires var cfg := if d == Ingress then ingressCfg else egressCfg;
      Sound(cfg) && cfg.hwMin < 600_000_000_000_000_000 && FloorOf(cfg, c) < MEGABYTE <= CeilingOf(cfg, c)
    ensures var n := FreshNode(edt, ingressCfg, egressCfg);
      var cfg := CfgOf(n, d);
      && NodeClocked(Warm(d) + Push(cfg, d) + Crowd(d, c, len, k, SECOND4))
      && UnderControl(cfg, GlobalOf(RunNode(n, Warm(d)), d), c)
      && PassedBytes(RunNode(n, Warm(d) + Push(cfg, d)), Crowd(d, c, len, k, SECOND4), d, c) == k * len
  {
    var n := FreshNode(edt, ingressCfg, egressCfg);
    var cfg, warm := CfgOf(n, d), RunNode(n, Warm(d));
    FreshIsWarm(n, d);
    WarmRun(n, d, 0);
    WarmedIsControlled(warm, d, c);
    PushNode(warm, d);
    RunNodeSplit(n, Warm(d), Push(cfg, d));
    var pushed := RunNode(n, Warm(d) + Push(cfg, d));
    PushedIsOpen(pushed, d, c);
    CrowdPasses(pushed, d, c, len, k, SECOND4);
    PushClocked(cfg, d, c, len, k);
  }
}
