/** Exactly when the upper limit of a class is respected, in either build, from the only state the program
    starts in: the zeroed map. */
module UpperLimit {

  import opened Words
  import opened TokenBucket
  import opened Controller
  import opened GlobalRate
  import opened Traces
  import opened Filling
  import opened Ceiling
  import P = Pacer

  /** The state after a history of packets from the zeroed map, and the averages it has adjusted by. */
  function After(shaper: Shaper, cfg: GlobalCfg, history: seq<Packet>): GlobalRate {
    RunPackets(shaper, cfg, ZERO_RATE, history)
  }

  function FiredIn(shaper: Shaper, cfg: GlobalCfg, history: seq<Packet>): seq<u64> {
    Fired(shaper, cfg, ZERO_RATE, history)
  }

  /** Half of the clock's range, 292 years. */
  const HALF: u64 := 0x8000_0000_0000_0000

  ghost predicate Early(ps: seq<Packet>, end: u64) {
    forall k :: 0 <= k < |ps| ==> ps[k].now < end && ps[k].adjustNow < end
  }

  /** In either build a class whose floor is at least 1 MB has a real limit exactly once its turn has come. */
  lemma RealAfterExactly(shaper: Shaper, cfg: GlobalCfg, history: seq<Packet>, c: ClassId)
    requires WellFormed(cfg) && MEGABYTE <= FloorOf(cfg, c)
    ensures var r := ClassOf(After(shaper, cfg, history), c).bps;
      if Reached(cfg, FiredIn(shaper, cfg, history), c) then RealLimit(r, CeilingOf(cfg, c)) else r == 0
  {
    LimitsFollowAdjustments(shaper, cfg, ZERO_RATE, history);
    RealFromZeroExactly(cfg, FiredIn(shaper, cfg, history), c);
    LimitOfClass(After(shaper, cfg, history), c);
  }

  lemma LimitOfClass(g: GlobalRate, c: ClassId)
    ensures LimitOf(LimitsOf(g), c) == ClassOf(g, c).bps
  {
  }

  lemma AfterMore(shaper: Shaper, cfg: GlobalCfg, history: seq<Packet>, lead: seq<Packet>)
    ensures After(shaper, cfg, history + lead) == RunPackets(shaper, cfg, After(shaper, cfg, history), lead)
  {
    RunSplit(shaper, cfg, ZERO_RATE, history + lead, |history|);
    assert (history + lead)[..|history|] == history && (history + lead)[|history|..] == lead;
  }

  lemma RealLimitStays(shaper: Shaper, cfg: GlobalCfg, history: seq<Packet>, lead: seq<Packet>, c: ClassId)
    requires WellFormed(cfg) && MEGABYTE <= FloorOf(cfg, c)
    requires RealLimit(ClassOf(After(shaper, cfg, history), c).bps, CeilingOf(cfg, c))
    ensures RealLimit(ClassOf(After(shaper, cfg, history + lead), c).bps, CeilingOf(cfg, c))
  {
    AfterMore(shaper, cfg, history, lead);
    OffersInForce(shaper, cfg, After(shaper, cfg, history), lead, c);
  }

  // ---- the token-bucket build ----

  /** The class gets at most one full bucket plus its upper limit times the time. */
  ghost predicate WithinCeiling(cfg: GlobalCfg, g: GlobalRate, window: seq<Packet>, c: ClassId)
    requires window != []
  {
    NSEC_PER_SEC * ClassBytes(TokenBuckets, cfg, g, window, c)
    <= NSEC_PER_SEC * Top(cfg, c) + Top(cfg, c) * (window[|window| - 1].now - window[0].now)
  }

  /** From the end of the history on, the upper limit holds in every window of every continuation. */
  ghost predicate HeldAfter(cfg: GlobalCfg, history: seq<Packet>, c: ClassId) {
    forall lead: seq<Packet>, window: seq<Packet> ::
      window != [] && Clocked(history + lead + window) ==>
        WithinCeiling(cfg, After(TokenBuckets, cfg, history + lead), window, c)
  }

  /** The upper limit of a class is respected from some moment on exactly when its floor is at least 1 MB and
      its turn has come by then. A class not reached yet has the limit zero, which is none; one with a
      smaller floor can be suppressed to zero at any time. */
  lemma RespectedExactly(cfg: GlobalCfg, history: seq<Packet>, c: ClassId)
    requires WellFormed(cfg) && cfg.hwMin < 2_000_000_000_000_000_000
    requires Clocked(history) && Early(history, HALF)
    ensures HeldAfter(cfg, history, c) <==>
      MEGABYTE <= FloorOf(cfg, c) && Reached(cfg, FiredIn(TokenBuckets, cfg, history), c)
  {
    if FloorOf(cfg, c) < MEGABYTE {
      SuppressedThenFlooded(cfg, history, c);
    } else {
      RealAfterExactly(TokenBuckets, cfg, history, c);
      if Reached(cfg, FiredIn(TokenBuckets, cfg, history), c) {
        HeldOnceReached(cfg, history, c);
      } else {
        assert history + [] == history;
        Overrun(cfg, history, [], c, HALF);
      }
    }
  }

  /** From the zeroed map on, stored tokens never pass the upper limit. */
  lemma {:induction false} TokensUnderTop(cfg: GlobalCfg, g: GlobalRate, ps: seq<Packet>, c: ClassId)
    requires WellFormed(cfg) && UnderCeilings(cfg, LimitsOf(g)) && ClassOf(g, c).slot <= Top(cfg, c)
    ensures ClassOf(RunPackets(TokenBuckets, cfg, g, ps), c).slot <= Top(cfg, c)
    decreases ps
  {
    if ps != [] {
      StepClass(TokenBuckets, cfg, g, ps[0], c);
      StepLimits(TokenBuckets, cfg, g, ps[0]);
      BoxKept(cfg, LimitsOf(g), ps[0].avg);
      assert ClassOf(g, c).bps <= Top(cfg, c);
      if MEGABYTE <= ClassOf(g, c).bps {
        AdmitCapped(BucketOf(g, c), Offer(ps[0].now, ps[0].skb.len, ClassOf(g, c).bps), Top(cfg, c));
      }
      TokensUnderTop(cfg, Step(TokenBuckets, cfg, g, ps[0]).0, ps[1..], c);
    }
  }

  lemma HeldOnceReached(cfg: GlobalCfg, history: seq<Packet>, c: ClassId)
    requires WellFormed(cfg) && MEGABYTE <= FloorOf(cfg, c)
    requires RealLimit(ClassOf(After(TokenBuckets, cfg, history), c).bps, CeilingOf(cfg, c))
    ensures HeldAfter(cfg, history, c)
  {
    forall lead: seq<Packet>, window: seq<Packet> | window != [] && Clocked(history + lead + window)
      ensures WithinCeiling(cfg, After(TokenBuckets, cfg, history + lead), window, c)
    {
      RealLimitStays(TokenBuckets, cfg, history, lead, c);
      TokensUnderTop(cfg, ZERO_RATE, history + lead, c);
      ClockedTail(history + lead, window);
      CeilingFromHere(cfg, After(TokenBuckets, cfg, history + lead), window, c);
    }
  }

  lemma ClockedTail(a: seq<Packet>, b: seq<Packet>)
    requires Clocked(a + b)
    ensures Clocked(b)
    ensures b != [] ==> NoLaterThan(a, b[0].now)
  {
    assert forall i :: 0 <= i < |b| ==> b[i] == (a + b)[|a| + i];
    assert forall i :: 0 <= i < |a| ==> a[i] == (a + b)[i];
  }

  // ---- a class without a limit ----

  /** Packets of one class, all at one instant, while the meter shows the hardware limit. */
  function Flood(cfg: GlobalCfg, c: ClassId, len: u32, n: nat, t: u64): (r: seq<Packet>)
    ensures |r| == n
    ensures forall i :: 0 <= i < n ==> r[i] == Packet(Skb(c, len, 0), t, t, cfg.hwMin)
    decreases n
  {
    if n == 0 then [] else [Packet(Skb(c, len, 0), t, t, cfg.hwMin)] + Flood(cfg, c, len, n - 1, t)
  }

  lemma NothingToMove(cfg: GlobalCfg, lim: Limits)
    ensures Rebalance(cfg, lim, cfg.hwMin) == lim
  {
    RecoveredLimits(cfg, lim, cfg.hwMin);
  }

  /** No limit is zero, and in the pacer build a virtual clock less than 2 s ahead. */
  ghost predicate Unlimited(shaper: Shaper, g: GlobalRate, c: ClassId, t: u64) {
    ClassOf(g, c).bps == 0 && (shaper == Pacers ==> ClassOf(g, c).tLast < t + T_HORIZON_DROP)
  }

  lemma FloodStep(shaper: Shaper, cfg: GlobalCfg, g: GlobalRate, c: ClassId, len: u32, t: u64)
    requires Unlimited(shaper, g, c, t)
    ensures var (g', o) := Step(shaper, cfg, g, Packet(Skb(c, len, 0), t, t, cfg.hwMin));
      o.verdict == Ok && Unlimited(shaper, g', c, t)
  {
    var p := Packet(Skb(c, len, 0), t, t, cfg.hwMin);
    StepLimits(shaper, cfg, g, p);
    StepClass(shaper, cfg, g, p, c);
    NothingToMove(cfg, LimitsOf(g));
    LimitOfClass(g, c);
    LimitOfClass(Step(shaper, cfg, g, p).0, c);
    assert P.Delay(len, 0) == 0;
  }

  lemma {:induction false} FloodPasses(shaper: Shaper, cfg: GlobalCfg, g: GlobalRate, c: ClassId,
                                      len: u32, n: nat, t: u64)
    requires Unlimited(shaper, g, c, t)
    ensures ClassBytes(shaper, cfg, g, Flood(cfg, c, len, n, t), c) == n * len
    decreases n
  {
    if n > 0 {
      var p := Packet(Skb(c, len, 0), t, t, cfg.hwMin);
      assert Flood(cfg, c, len, n, t)[0] == p && Flood(cfg, c, len, n, t)[1..] == Flood(cfg, c, len, n - 1, t);
      FloodStep(shaper, cfg, g, c, len, t);
      FloodPasses(shaper, cfg, Step(shaper, cfg, g, p).0, c, len, n - 1, t);
      OneMore(n - 1, len);
    }
  }

  ghost predicate NoLaterThan(ps: seq<Packet>, t: u64) { forall k :: 0 <= k < |ps| ==> ps[k].now <= t }

  lemma ClockedJoin(a: seq<Packet>, b: seq<Packet>, t: u64)
    requires Clocked(a) && NoLaterThan(a, t) && Clocked(b) && forall k :: 0 <= k < |b| ==> t <= b[k].now
    ensures Clocked(a + b)
  {
  }

  /** Without a limit a class sends more than its full bucket in no time. */
  lemma FloodOverruns(cfg: GlobalCfg, g: GlobalRate, c: ClassId, t: u64)
    requires ClassOf(g, c).bps == 0
    ensures !WithinCeiling(cfg, g, Flood(cfg, c, 1, Top(cfg, c) + 1, t), c)
  {
    FloodPasses(TokenBuckets, cfg, g, c, 1, Top(cfg, c) + 1, t);
  }

  lemma Overrun(cfg: GlobalCfg, history: seq<Packet>, lead: seq<Packet>, c: ClassId, t: u64)
    requires Clocked(history + lead) && NoLaterThan(history + lead, t)
    requires ClassOf(After(TokenBuckets, cfg, history + lead), c).bps == 0
    ensures !HeldAfter(cfg, history, c)
  {
    var window := Flood(cfg, c, 1, Top(cfg, c) + 1, t);
    assert !WithinCeiling(cfg, After(TokenBuckets, cfg, history + lead), window, c) by {
      FloodOverruns(cfg, After(TokenBuckets, cfg, history + lead), c, t);
    }
    assert Clocked(history + lead + window) by { ClockedJoin(history + lead, window, t); }
  }

  // ---- taking a limit away ----

  /** The highest average the meter can report, and packets of no class that meet it, one a second. */
  const PEAK: u64 := MAX64 / 9

  const BEATS: nat := 2000

  function Beats(t: u64, n: nat): (r: seq<Packet>)
    requires t + n * NSEC_PER_SEC < TWO64
    ensures |r| == n
    ensures forall i :: 0 <= i < n ==> r[i].now == r[i].adjustNow == t + i * NSEC_PER_SEC && r[i].avg == PEAK
    ensures forall i :: 0 <= i < n ==> r[i].skb == Skb(3, 0, 0)
    decreases n
  {
    if n == 0 then [] else [Packet(Skb(3, 0, 0), t, t, PEAK)] + Beats(t + NSEC_PER_SEC, n - 1)
  }

  lemma BeatsSplit(t: u64, n: nat)
    requires n > 0 && t + n * NSEC_PER_SEC < TWO64
    ensures Beats(t, n)[0] == Packet(Skb(3, 0, 0), t, t, PEAK) && Beats(t, n)[1..] == Beats(t + NSEC_PER_SEC, n - 1)
  {
  }

  /** A due adjustment fires on a packet of no class. */
  lemma BeatFires(shaper: Shaper, cfg: GlobalCfg, g: GlobalRate, ps: seq<Packet>)
    requires ps != [] && ps[0].skb.prio == 3 && ps[0].now == ps[0].adjustNow && g.tLast + NSEC_PER_SEC <= ps[0].now
    ensures var g' := Step(shaper, cfg, g, ps[0]).0;
      g'.tLast == ps[0].now && Fired(shaper, cfg, g, ps) == [ps[0].avg] + Fired(shaper, cfg, g', ps[1..])
  {
    StepLimits(shaper, cfg, g, ps[0]);
  }

  ghost predicate AllPeak(avgs: seq<u64>, n: nat) { |avgs| == n && forall k :: 0 <= k < n ==> avgs[k] == PEAK }

  lemma AllPeakCons(avgs: seq<u64>, n: nat)
    requires AllPeak(avgs, n)
    ensures AllPeak([PEAK] + avgs, n + 1)
  {
  }

  lemma {:induction false} BeatsFire(shaper: Shaper, cfg: GlobalCfg, g: GlobalRate, t: u64, n: nat)
    requires g.tLast + NSEC_PER_SEC <= t && t + n * NSEC_PER_SEC < TWO64
    ensures AllPeak(Fired(shaper, cfg, g, Beats(t, n)), n)
    decreases n
  {
    if n > 0 {
      var ps, p := Beats(t, n), Packet(Skb(3, 0, 0), t, t, PEAK);
      var g' := Step(shaper, cfg, g, p).0;
      BeatsSplit(t, n);
      BeatFires(shaper, cfg, g, ps);
      BeatsFire(shaper, cfg, g', t + NSEC_PER_SEC, n - 1);
      AllPeakCons(Fired(shaper, cfg, g', Beats(t + NSEC_PER_SEC, n - 1)), n - 1);
    }
  }

  lemma {:induction false} LastAdjustmentEarly(shaper: Shaper, cfg: GlobalCfg, g: GlobalRate, ps: seq<Packet>, end: u64)
    requires Early(ps, end) && g.tLast < end
    ensures RunPackets(shaper, cfg, g, ps).tLast < end
    decreases ps
  {
    if ps != [] {
      StepLimits(shaper, cfg, g, ps[0]);
      LastAdjustmentEarly(shaper, cfg, Step(shaper, cfg, g, ps[0]).0, ps[1..], end);
    }
  }

  /** From any state, that many seconds of peak contention end on the floors. */
  lemma BeatsReachFloors(shaper: Shaper, cfg: GlobalCfg, g: GlobalRate, t: u64)
    requires cfg.hwMin < 2_000_000_000_000_000_000
    requires g.tLast + NSEC_PER_SEC <= t && t + BEATS * NSEC_PER_SEC < TWO64
    ensures LimitsOf(RunPackets(shaper, cfg, g, Beats(t, BEATS))) == Floors(cfg)
  {
    var d := 49_638_230_412;
    var x := DrainOrder(cfg, LimitsOf(g));
    TotalsOfThree(x[0], x[1], x[2]);
    BeatsFire(shaper, cfg, g, t, BEATS);
    TraceContentionConverges(shaper, cfg, g, Beats(t, BEATS), d);
  }

  lemma SuppressedAfter(shaper: Shaper, cfg: GlobalCfg, history: seq<Packet>, c: ClassId, end: u64)
    requires cfg.hwMin < 2_000_000_000_000_000_000 && FloorOf(cfg, c) < MEGABYTE
    requires 0 < end <= HALF && Early(history, end)
    ensures ClassOf(After(shaper, cfg, history + Beats(end + NSEC_PER_SEC, BEATS)), c).bps == 0
  {
    var lead := Beats(end + NSEC_PER_SEC, BEATS);
    LastAdjustmentEarly(shaper, cfg, ZERO_RATE, history, end);
    BeatsReachFloors(shaper, cfg, After(shaper, cfg, history), end + NSEC_PER_SEC);
    AfterMore(shaper, cfg, history, lead);
    FloorIsNone(cfg, After(shaper, cfg, history + lead), c);
  }

  lemma FloorIsNone(cfg: GlobalCfg, g: GlobalRate, c: ClassId)
    requires LimitsOf(g) == Floors(cfg) && FloorOf(cfg, c) < MEGABYTE
    ensures ClassOf(g, c).bps == 0
  {
  }

  lemma BeatsClocked(history: seq<Packet>, end: u64)
    requires Clocked(history) && end <= HALF && Early(history, end)
    ensures var all := history + Beats(end + NSEC_PER_SEC, BEATS);
      Clocked(all) && NoLaterThan(all, end + (BEATS + 1) * NSEC_PER_SEC)
  {
    ClockedJoin(history, Beats(end + NSEC_PER_SEC, BEATS), end);
  }

  /** A floor below 1 MB: after any history, contention takes the class's limit away. */
  lemma SuppressedThenFlooded(cfg: GlobalCfg, history: seq<Packet>, c: ClassId)
    requires cfg.hwMin < 2_000_000_000_000_000_000 && FloorOf(cfg, c) < MEGABYTE
    requires Clocked(history) && Early(history, HALF)
    ensures !HeldAfter(cfg, history, c)
  {
    SuppressedAfter(TokenBuckets, cfg, history, c, HALF);
    BeatsClocked(history, HALF);
    Overrun(cfg, history, Beats(HALF + NSEC_PER_SEC, BEATS), c, HALF + (BEATS + 1) * NSEC_PER_SEC);
  }

  // ---- the pacer build ----

  /** After an accepted packet of the class, the class sends at most its upper limit times the clock distance and
      the horizon, with one truncation a packet. */
  ghost predicate WithinPacedCeiling(cfg: GlobalCfg, g: GlobalRate, window: seq<Packet>, c: ClassId)
    requires window != []
  {
    var (g', o) := Step(Pacers, cfg, g, window[0]);
    OfClass(window[0], c) && o.verdict == Ok ==>
      NSEC_PER_SEC * ClassBytes(Pacers, cfg, g', window[1..], c)
      <= Top(cfg, c) * P.PacedSpan(window[0].now, window[|window| - 1].now, |window| - 1)
  }

  ghost predicate HeldAfterPaced(cfg: GlobalCfg, history: seq<Packet>, c: ClassId) {
    forall lead: seq<Packet>, window: seq<Packet> ::
      window != [] && StampedInTime(history + lead + window) ==>
        WithinPacedCeiling(cfg, After(Pacers, cfg, history + lead), window, c)
  }

  /** A limit at which the truncation of one packet, a nanosecond, outweighs the longest packet. */
  const COARSE: u64 := 4_294_967_295 * NSEC_PER_SEC

  /** The same condition decides in the pacer build, for every upper limit the nanosecond clock can resolve; above
      that the bound says nothing. */
  lemma PacedRespectedExactly(cfg: GlobalCfg, history: seq<Packet>, c: ClassId)
    requires WellFormed(cfg) && cfg.hwMin < 2_000_000_000_000_000_000
    requires StampedInTime(history) && Early(history, HALF / 2)
    ensures HeldAfterPaced(cfg, history, c) <==>
      (MEGABYTE <= FloorOf(cfg, c) && Reached(cfg, FiredIn(Pacers, cfg, history), c)) || Top(cfg, c) >= COARSE
  {
    if Top(cfg, c) >= COARSE {
      HeldWhenCoarse(cfg, history, c);
    } else if FloorOf(cfg, c) < MEGABYTE {
      SuppressedThenPaced(cfg, history, c);
    } else {
      RealAfterExactly(Pacers, cfg, history, c);
      if Reached(cfg, FiredIn(Pacers, cfg, history), c) {
        HeldOncePacedReached(cfg, history, c);
      } else {
        assert history + [] == history;
        PacedOverrun(cfg, history, [], c, HALF / 2);
      }
    }
  }

  /** The class's virtual clock stays less than 2 s past any reading no packet of the trace is later than. */
  lemma {:induction false} ClassClockNear(cfg: GlobalCfg, g: GlobalRate, ps: seq<Packet>, c: ClassId, t: u64)
    requires StampedInTime(ps) && NoLaterThan(ps, t) && ClassOf(g, c).tLast < t + T_HORIZON_DROP
    ensures ClassOf(RunPackets(Pacers, cfg, g, ps), c).tLast < t + T_HORIZON_DROP
    decreases ps
  {
    if ps != [] {
      var a := P.Arrival(ps[0].now, ps[0].skb.stamp, ps[0].skb.len, ClassOf(g, c).bps);
      StepClass(Pacers, cfg, g, ps[0], c);
      P.PaceShape(ClassOf(g, c).tLast, a);
      if P.Pace(ClassOf(g, c).tLast, a).verdict == Ok { P.AcceptedClock(ClassOf(g, c).tLast, a); }
      ClassClockNear(cfg, Step(Pacers, cfg, g, ps[0]).0, ps[1..], c, t);
    }
  }

  lemma StampedTail(a: seq<Packet>, b: seq<Packet>)
    requires StampedInTime(a + b)
    ensures StampedInTime(a) && StampedInTime(b) && (b != [] ==> NoLaterThan(a, b[0].now))
  {
    ClockedTail(a, b);
    assert forall i :: 0 <= i < |b| ==> b[i] == (a + b)[|a| + i];
    assert forall i :: 0 <= i < |a| ==> a[i] == (a + b)[i];
  }

  lemma HeldOncePacedReached(cfg: GlobalCfg, history: seq<Packet>, c: ClassId)
    requires WellFormed(cfg) && MEGABYTE <= FloorOf(cfg, c)
    requires RealLimit(ClassOf(After(Pacers, cfg, history), c).bps, CeilingOf(cfg, c))
    ensures HeldAfterPaced(cfg, history, c)
  {
    forall lead: seq<Packet>, window: seq<Packet> | window != [] && StampedInTime(history + lead + window)
      ensures WithinPacedCeiling(cfg, After(Pacers, cfg, history + lead), window, c)
    {
      var g := After(Pacers, cfg, history + lead);
      StampedTail(history + lead, window);
      RealLimitStays(Pacers, cfg, history, lead, c);
      ClassClockNear(cfg, ZERO_RATE, history + lead, c, window[0].now);
      if OfClass(window[0], c) && Step(Pacers, cfg, g, window[0]).1.verdict == Ok { PacedCeiling(cfg, g, window, c); }
    }
  }

  lemma {:induction false} BytesOfClass(cfg: GlobalCfg, g: GlobalRate, ps: seq<Packet>, c: ClassId)
    ensures ClassBytes(Pacers, cfg, g, ps, c) <= |ps| * 4_294_967_295
    decreases ps
  {
    if ps != [] { BytesOfClass(cfg, Step(Pacers, cfg, g, ps[0]).0, ps[1..], c); }
  }

  lemma CoarseCovers(top: nat, n: nat, bytes: nat, span: nat)
    requires top >= COARSE && bytes <= n * 4_294_967_295 && n <= span
    ensures NSEC_PER_SEC * bytes <= top * span
  {
    MulMono(n, COARSE, top);
    MulMono(top, n, span);
  }

  lemma CoarseWindow(cfg: GlobalCfg, g: GlobalRate, window: seq<Packet>, c: ClassId)
    requires Top(cfg, c) >= COARSE && window != [] && Clocked(window)
    ensures WithinPacedCeiling(cfg, g, window, c)
  {
    var g', n := Step(Pacers, cfg, g, window[0]).0, |window| - 1;
    BytesOfClass(cfg, g', window[1..], c);
    assert window[0].now <= window[n].now;
    var span := P.PacedSpan(window[0].now, window[n].now, n);
    CoarseCovers(Top(cfg, c), n, ClassBytes(Pacers, cfg, g', window[1..], c), span);
  }

  lemma HeldWhenCoarse(cfg: GlobalCfg, history: seq<Packet>, c: ClassId)
    requires Top(cfg, c) >= COARSE
    ensures HeldAfterPaced(cfg, history, c)
  {
    forall lead: seq<Packet>, window: seq<Packet> | window != [] && StampedInTime(history + lead + window)
      ensures WithinPacedCeiling(cfg, After(Pacers, cfg, history + lead), window, c)
    {
      StampedTail(history + lead, window);
      CoarseWindow(cfg, After(Pacers, cfg, history + lead), window, c);
    }
  }

  /** Without a limit a class sends any number of the longest packets at one instant. */
  lemma FloodOutweighs(cfg: GlobalCfg, g: GlobalRate, c: ClassId, n: nat, t: u64)
    requires Unlimited(Pacers, g, c, t) && Top(cfg, c) < COARSE && n == Top(cfg, c) * T_HORIZON_DROP + 1
    ensures !WithinPacedCeiling(cfg, g, Flood(cfg, c, 4_294_967_295, n + 1, t), c)
  {
    var window := Flood(cfg, c, 4_294_967_295, n + 1, t);
    FloodStep(Pacers, cfg, g, c, 4_294_967_295, t);
    assert window[1..] == Flood(cfg, c, 4_294_967_295, n, t);
    FloodPasses(Pacers, cfg, Step(Pacers, cfg, g, window[0]).0, c, 4_294_967_295, n, t);
    ManyOutweigh(Top(cfg, c), n);
  }

  lemma FloodStamped(cfg: GlobalCfg, ps: seq<Packet>, c: ClassId, n: nat, t: u64)
    requires StampedInTime(ps) && NoLaterThan(ps, t) && t < HALF
    ensures StampedInTime(ps + Flood(cfg, c, 4_294_967_295, n, t))
  {
    ClockedJoin(ps, Flood(cfg, c, 4_294_967_295, n, t), t);
  }

  lemma PacedOverrun(cfg: GlobalCfg, history: seq<Packet>, lead: seq<Packet>, c: ClassId, t: u64)
    requires Top(cfg, c) < COARSE && t < HALF
    requires StampedInTime(history + lead) && NoLaterThan(history + lead, t)
    requires ClassOf(After(Pacers, cfg, history + lead), c).bps == 0
    ensures !HeldAfterPaced(cfg, history, c)
  {
    var n := Top(cfg, c) * T_HORIZON_DROP + 1;
    var window := Flood(cfg, c, 4_294_967_295, n + 1, t);
    assert !WithinPacedCeiling(cfg, After(Pacers, cfg, history + lead), window, c) by {
      ClassClockNear(cfg, ZERO_RATE, history + lead, c, t);
      FloodOutweighs(cfg, After(Pacers, cfg, history + lead), c, n, t);
    }
    assert StampedInTime(history + lead + window) by { FloodStamped(cfg, history + lead, c, n + 1, t); }
  }

  lemma ManyOutweigh(top: nat, n: nat)
    requires top < COARSE && n == top * T_HORIZON_DROP + 1
    ensures NSEC_PER_SEC * (n * 4_294_967_295) > top * (T_HORIZON_DROP + n)
  {
    MulMono(n, top + 1, COARSE);
    MulDist(top, T_HORIZON_DROP, n);
    assert n * (top + 1) == top * n + n;
  }

  lemma SuppressedThenPaced(cfg: GlobalCfg, history: seq<Packet>, c: ClassId)
    requires cfg.hwMin < 2_000_000_000_000_000_000 && FloorOf(cfg, c) < MEGABYTE && Top(cfg, c) < COARSE
    requires StampedInTime(history) && Early(history, HALF / 2)
    ensures !HeldAfterPaced(cfg, history, c)
  {
    var lead := Beats(HALF / 2 + NSEC_PER_SEC, BEATS);
    SuppressedAfter(Pacers, cfg, history, c, HALF / 2);
    BeatsStamped(history);
    PacedOverrun(cfg, history, lead, c, HALF / 2 + (BEATS + 1) * NSEC_PER_SEC);
  }

  lemma BeatsStamped(history: seq<Packet>)
    requires StampedInTime(history) && Early(history, HALF / 2)
    ensures var all := history + Beats(HALF / 2 + NSEC_PER_SEC, BEATS);
      StampedInTime(all) && NoLaterThan(all, HALF / 2 + (BEATS + 1) * NSEC_PER_SEC)
  {
    BeatsClocked(history, HALF / 2);
  }
}
