/** The earliest-departure-time pacer of bpf/qos_tc.c (`edt`, `global_edt`): each flow or class
    keeps one virtual clock, and a packet either gets a departure time or is dropped because that
    time lies 2 s or more ahead. */
module Pacer {

  import opened Words
  import opened Options
  import opened TokenBucket

  /** One packet as the pacer sees it: the clock, the stamp the packet already carries, its length
      and the limit in force. */
  datatype Arrival = Arrival(now: u64, stamp: u64, len: u32, bps: u64)

  datatype Paced = Paced(tLast: u64, stamp: u64, verdict: Verdict)

  /** The time the packet itself takes at the limit; a zero limit costs nothing. */
  function Delay(len: u32, bps: u64): u64 { Div64(Mul64(len, NSEC_PER_SEC), bps) }

  /** A packet is ready once it has arrived and its stamp has come. */
  function Ready(a: Arrival): u64 { Max(a.stamp, a.now) }

  function Pace(tLast: u64, a: Arrival): Paced {
    var t := Ready(a);
    var tNext := Add64(tLast, Delay(a.len, a.bps));
    if tNext <= t then Paced(t, a.stamp, Ok)
    else if Sub64(tNext, a.now) >= T_HORIZON_DROP then Paced(tLast, a.stamp, Shot)
    else Paced(tNext, tNext, Ok)
  }

  /** The body both `edt` and each branch of `global_edt` run, once past the zero test. */
  method PaceOne(tLast: u64, wireLen: u32, bps: u64, stamp: u64, now: u64)
    returns (tLast': u64, stamp': u64, verdict: Verdict)
    ensures Paced(tLast', stamp', verdict) == Pace(tLast, Arrival(now, stamp, wireLen, bps))
  {
    tLast', stamp' := tLast, stamp;
    var t := stamp;
    if t < now {
      t := now;
    }
    var delay := Div64(Mul64(wireLen, NSEC_PER_SEC), bps);
    var tNext := Add64(tLast, delay);
    if tNext <= t {
      tLast' := t;
      return tLast', stamp', Ok;
    }
    assert tNext >= now;
    if tNext - now >= T_HORIZON_DROP {
      return tLast', stamp', Shot;
    }
    tLast' := tNext;
    stamp' := tNext;
    verdict := Ok;
  }

  // ---- runs ----

  function Run(tLast: u64, xs: seq<Arrival>): u64
    decreases xs
  {
    if xs == [] then tLast else Run(Pace(tLast, xs[0]).tLast, xs[1..])
  }

  function Outcomes(tLast: u64, xs: seq<Arrival>): (r: seq<Paced>)
    ensures |r| == |xs|
    decreases xs
  {
    if xs == [] then [] else [Pace(tLast, xs[0])] + Outcomes(Pace(tLast, xs[0]).tLast, xs[1..])
  }

  /** Sum of the own delays of the accepted packets. */
  function AcceptedDelay(tLast: u64, xs: seq<Arrival>): nat
    decreases xs
  {
    if xs == [] then 0
    else
      var p := Pace(tLast, xs[0]);
      (if p.verdict == Ok then Delay(xs[0].len, xs[0].bps) else 0) + AcceptedDelay(p.tLast, xs[1..])
  }

  function AcceptedBytes(tLast: u64, xs: seq<Arrival>): nat
    decreases xs
  {
    if xs == [] then 0
    else
      var p := Pace(tLast, xs[0]);
      (if p.verdict == Ok then xs[0].len else 0) + AcceptedBytes(p.tLast, xs[1..])
  }

  function AcceptedCount(tLast: u64, xs: seq<Arrival>): nat
    decreases xs
  {
    if xs == [] then 0
    else
      var p := Pace(tLast, xs[0]);
      (if p.verdict == Ok then 1 else 0) + AcceptedCount(p.tLast, xs[1..])
  }

  /** The last accepted packet of a run, if any was accepted. */
  function LastAccepted(tLast: u64, xs: seq<Arrival>): Option<Arrival>
    decreases xs
  {
    if xs == [] then None
    else
      var p := Pace(tLast, xs[0]);
      var later := LastAccepted(p.tLast, xs[1..]);
      if later.Some? then later else if p.verdict == Ok then Some(xs[0]) else None
  }

  /** A nondecreasing clock in its first 292 years, and stamps less than 2 s ahead of it. */
  ghost predicate Timely(xs: seq<Arrival>) {
    && (forall i, j :: 0 <= i < j < |xs| ==> xs[i].now <= xs[j].now)
    && (forall i :: 0 <= i < |xs| ==> xs[i].now < 0x8000_0000_0000_0000)
    && (forall i :: 0 <= i < |xs| ==> xs[i].stamp < xs[i].now + T_HORIZON_DROP)
  }

  lemma TimelyCons(x: Arrival, xs: seq<Arrival>)
    requires Timely(xs) && forall k :: 0 <= k < |xs| ==> x.now <= xs[k].now
    requires x.now < 0x8000_0000_0000_0000 && x.stamp < x.now + T_HORIZON_DROP
    ensures Timely([x] + xs)
  {
  }

  /** No sum of virtual clock and own delay reaches 2^64. */
  ghost predicate NoWrap(tLast: u64, xs: seq<Arrival>)
    decreases xs
  {
    xs == [] ||
    (tLast + Delay(xs[0].len, xs[0].bps) < TWO64 && NoWrap(Pace(tLast, xs[0]).tLast, xs[1..]))
  }

  /** Every packet meets a nonzero limit of at most `top`. */
  ghost predicate PacedBy(xs: seq<Arrival>, top: u64) {
    forall i :: 0 <= i < |xs| ==> 0 < xs[i].bps <= top
  }

  // ---- one packet ----

  /** `len * 10^9` never overflows for a 32-bit length, so the delay is the true one, rounded down. */
  lemma DelayFacts(len: u32, bps: u64)
    ensures Mul64(len, NSEC_PER_SEC) == len * NSEC_PER_SEC
    ensures Delay(len, bps) < 5_000_000_000_000_000_000
    ensures bps > 0 ==> Delay(len, bps) * bps <= len * NSEC_PER_SEC < (Delay(len, bps) + 1) * bps
  {
    if bps > 0 {
      Div64Facts(len * NSEC_PER_SEC, bps);
      MulMono(Delay(len, bps), 1, bps);
    }
  }

  /** Where the code subtracts, the difference does not wrap; a drop changes nothing; and an
      accepted packet leaves at the time the virtual clock then shows, never before the clock. */
  lemma PaceShape(tLast: u64, a: Arrival)
    ensures var p := Pace(tLast, a);
      var tNext := Add64(tLast, Delay(a.len, a.bps));
      && (tNext > Max(a.stamp, a.now) ==> Sub64(tNext, a.now) == tNext - a.now)
      && (p.verdict == Shot ==> p.tLast == tLast && p.stamp == a.stamp)
      && (p.verdict == Ok ==> p.tLast == Max(p.stamp, a.now))
      && (p.verdict == Shot <==> tNext > Max(a.stamp, a.now) && tNext >= a.now + T_HORIZON_DROP)
  {
  }

  /** An accepted packet is held for its own delay after the one before it exactly when the sum of
      clock and delay stays inside 64 bits. */
  lemma SpacedExactlyWhenNoWrap(tLast: u64, a: Arrival)
    requires Pace(tLast, a).verdict == Ok
    ensures Pace(tLast, a).tLast >= tLast + Delay(a.len, a.bps) <==> tLast + Delay(a.len, a.bps) < TWO64
  {
  }

  /** A virtual clock at the end of its range wraps: a packet is then sent in the past of the one before. */
  lemma WrapBreaksSpacing()
    ensures var p := Pace(MAX64, Arrival(5, 5, 1, NSEC_PER_SEC)); p.verdict == Ok && p.tLast < MAX64
  {
    var a := Arrival(5, 5, 1, NSEC_PER_SEC);
    DelayFacts(1, NSEC_PER_SEC);
    assert Add64(MAX64, 1) == 0;
  }

  /** A packet passes exactly when it is ready no earlier than the virtual clock and its own delay allow, or
      that time lies less than 2 s ahead. */
  lemma PassesExactly(tLast: u64, a: Arrival)
    requires tLast + Delay(a.len, a.bps) < TWO64
    ensures Pace(tLast, a).verdict == Ok <==>
      tLast + Delay(a.len, a.bps) <= Ready(a) || tLast + Delay(a.len, a.bps) < a.now + T_HORIZON_DROP
    ensures Pace(tLast, a).verdict == Ok ==>
      && Pace(tLast, a).tLast == Max(Ready(a), tLast + Delay(a.len, a.bps))
      && Pace(tLast, a).stamp
         == if tLast + Delay(a.len, a.bps) <= Ready(a) then a.stamp else tLast + Delay(a.len, a.bps)
  {
  }

  /** A packet that arrives stamped an hour ahead is accepted and takes the virtual clock with it: every
      unstamped packet of the flow is then dropped, until the clock comes within 2 s of that hour. */
  lemma FarStampStarves(tLast: u64, now: u64, bps: u64, next: Arrival)
    requires tLast <= now < 0x8000_0000_0000_0000 && bps >= NSEC_PER_SEC
    requires next.stamp <= next.now
    ensures var stamp := now + 3600 * NSEC_PER_SEC;
      var p := Pace(tLast, Arrival(now, stamp, 1500, bps));
      && p.verdict == Ok && p.tLast == stamp
      && (next.now + T_HORIZON_DROP <= stamp ==> Pace(p.tLast, next).verdict == Shot)
  {
    DelayFacts(1500, bps);
    DelayFacts(next.len, next.bps);
    DelaySmall(1500, bps);
  }

  lemma DelaySmall(len: u32, bps: u64)
    requires bps >= NSEC_PER_SEC
    ensures Delay(len, bps) <= len
  {
    DelayFacts(len, bps);
    MulMono(Delay(len, bps), NSEC_PER_SEC, bps);
  }

  lemma PaceTimely(tLast: u64, a: Arrival)
    requires tLast < a.now + T_HORIZON_DROP && a.now < 0x8000_0000_0000_0000
    requires a.stamp < a.now + T_HORIZON_DROP
    ensures var p := Pace(tLast, a);
      && p.tLast < a.now + T_HORIZON_DROP
      && (p.verdict == Ok ==> p.tLast >= a.now)
      && tLast + Delay(a.len, a.bps) < TWO64
  {
    DelayFacts(a.len, a.bps);
    assert Add64(tLast, Delay(a.len, a.bps)) == tLast + Delay(a.len, a.bps);
  }

  // ---- whole runs ----

  /** Departures never come closer than the accepted packets' own delays, however the packets are stamped. */
  lemma {:induction false} RunSpacing(tLast: u64, xs: seq<Arrival>)
    requires NoWrap(tLast, xs)
    ensures tLast + AcceptedDelay(tLast, xs) <= Run(tLast, xs)
    decreases xs
  {
    if xs != [] {
      PaceShape(tLast, xs[0]);
      RunSpacing(Pace(tLast, xs[0]).tLast, xs[1..]);
    }
  }

  /** Clocks, stamps and the starting point in their first 292 years, and 2 s more, never make a sum wrap. */
  lemma {:induction false} EarlyMeansNoWrap(tLast: u64, xs: seq<Arrival>)
    requires tLast < 0x8000_0000_0000_0000 + T_HORIZON_DROP
    requires forall i :: 0 <= i < |xs| ==>
      xs[i].now < 0x8000_0000_0000_0000 && xs[i].stamp < 0x8000_0000_0000_0000 + T_HORIZON_DROP
    ensures NoWrap(tLast, xs)
    decreases xs
  {
    if xs != [] {
      DelayFacts(xs[0].len, xs[0].bps);
      PaceShape(tLast, xs[0]);
      EarlyMeansNoWrap(Pace(tLast, xs[0]).tLast, xs[1..]);
    }
  }

  /** With stamps less than 2 s ahead of the clock, so is the virtual clock. */
  lemma {:induction false} ClockStaysNear(tLast: u64, xs: seq<Arrival>)
    requires Timely(xs) && xs != [] && tLast < xs[0].now + T_HORIZON_DROP
    ensures Run(tLast, xs) < xs[|xs| - 1].now + T_HORIZON_DROP
    ensures NoWrap(tLast, xs)
    decreases xs
  {
    PaceTimely(tLast, xs[0]);
    if |xs| > 1 {
      ClockStaysNear(Pace(tLast, xs[0]).tLast, xs[1..]);
    }
  }

  lemma {:induction false} DelaysCoverBytes(tLast: u64, xs: seq<Arrival>, top: u64)
    requires PacedBy(xs, top)
    ensures NSEC_PER_SEC * AcceptedBytes(tLast, xs)
         <= top * (AcceptedDelay(tLast, xs) + AcceptedCount(tLast, xs))
    decreases xs
  {
    if xs != [] {
      var x, p := xs[0], Pace(tLast, xs[0]);
      DelaysCoverBytes(p.tLast, xs[1..], top);
      var d := Delay(x.len, x.bps);
      DelayFacts(x.len, x.bps);
      MulMono(d + 1, x.bps, top);
      CoverOneMore(top, d, x.len, AcceptedBytes(p.tLast, xs[1..]),
                   AcceptedDelay(p.tLast, xs[1..]) + AcceptedCount(p.tLast, xs[1..]));
    }
  }

  lemma CoverOneMore(top: nat, d: nat, len: nat, bytes: nat, rest: nat)
    requires NSEC_PER_SEC * len <= (d + 1) * top && NSEC_PER_SEC * bytes <= top * rest
    ensures NSEC_PER_SEC * (len + bytes) <= top * (d + 1 + rest)
  {
    MulDist(top, d + 1, rest);
  }

  /** The envelope between two departures: after an accepted packet `i`, what leaves up to `j` is spaced by
      its own delays and fits in `top` bytes a second of virtual time plus one truncation a packet. */
  lemma Envelope(tLast: u64, xs: seq<Arrival>, i: nat, j: nat, top: u64)
    requires i < j < |xs| && NoWrap(tLast, xs) && PacedBy(xs, top)
    ensures var from, to := Outcomes(tLast, xs)[i].tLast, Outcomes(tLast, xs)[j].tLast;
      var window := xs[i + 1..j + 1];
      && from + AcceptedDelay(from, window) <= to
      && NSEC_PER_SEC * AcceptedBytes(from, window) <= top * (to - from + AcceptedCount(from, window))
  {
    var from, to := Outcomes(tLast, xs)[i].tLast, Outcomes(tLast, xs)[j].tLast;
    var window := xs[i + 1..j + 1];
    var n := AcceptedCount(from, window);
    assert from + AcceptedDelay(from, window) <= to by {
      WindowRun(tLast, xs, i, j);
      WindowNoWrap(tLast, xs, i, j);
      RunSpacing(from, window);
    }
    DelaysCoverBytes(from, window, top);
    MulMono(top, AcceptedDelay(from, window) + n, to - from + n);
  }

  /** The same in real time, when stamps are less than 2 s ahead: the clock distance plus the horizon. */
  lemma EnvelopeByClock(tLast: u64, xs: seq<Arrival>, i: nat, j: nat, top: u64)
    requires i < j < |xs| && Timely(xs) && tLast < xs[0].now + T_HORIZON_DROP && PacedBy(xs, top)
    requires Outcomes(tLast, xs)[i].verdict == Ok
    ensures var from, window := Outcomes(tLast, xs)[i].tLast, xs[i + 1..j + 1];
      NSEC_PER_SEC * AcceptedBytes(from, window)
      <= top * (xs[j].now - xs[i].now + T_HORIZON_DROP + AcceptedCount(from, window))
  {
    var from, to := Outcomes(tLast, xs)[i].tLast, Outcomes(tLast, xs)[j].tLast;
    var n := AcceptedCount(from, xs[i + 1..j + 1]);
    ClockStaysNear(tLast, xs);
    Envelope(tLast, xs, i, j, top);
    DepartureBounds(tLast, xs, i);
    DepartureBounds(tLast, xs, j);
    MulMono(top, to - from + n, xs[j].now - xs[i].now + T_HORIZON_DROP + n);
  }

  lemma {:induction false} NoWrapPrefix(tLast: u64, xs: seq<Arrival>, k: nat)
    requires k <= |xs| && NoWrap(tLast, xs)
    ensures NoWrap(tLast, xs[..k])
    decreases k
  {
    if k > 0 {
      var rest, ys := xs[1..], xs[..k];
      NoWrapPrefix(Pace(tLast, xs[0]).tLast, rest, k - 1);
      assert ys[1..] == rest[..k - 1] && ys[0] == xs[0];
    }
  }

  lemma {:induction false} NoWrapSuffix(tLast: u64, xs: seq<Arrival>, k: nat)
    requires k <= |xs| && NoWrap(tLast, xs)
    ensures NoWrap(Run(tLast, xs[..k]), xs[k..])
    decreases k
  {
    if k == 0 {
      assert xs[0..] == xs;
    } else {
      var rest, ys := xs[1..], xs[..k];
      NoWrapSuffix(Pace(tLast, xs[0]).tLast, rest, k - 1);
      assert ys[1..] == rest[..k - 1] && ys[0] == xs[0] && rest[k - 1..] == xs[k..];
    }
  }

  lemma WindowNoWrap(tLast: u64, xs: seq<Arrival>, i: nat, j: nat)
    requires i < j < |xs| && NoWrap(tLast, xs)
    ensures NoWrap(Outcomes(tLast, xs)[i].tLast, xs[i + 1..j + 1])
  {
    NoWrapPrefix(tLast, xs, j + 1);
    NoWrapSuffix(tLast, xs[..j + 1], i + 1);
    OutcomeIsRun(tLast, xs, i);
    assert xs[..j + 1][..i + 1] == xs[..i + 1] && xs[..j + 1][i + 1..] == xs[i + 1..j + 1];
  }

  lemma WindowRun(tLast: u64, xs: seq<Arrival>, i: nat, j: nat)
    requires i < j < |xs|
    ensures Outcomes(tLast, xs)[j].tLast == Run(Outcomes(tLast, xs)[i].tLast, xs[i + 1..j + 1])
  {
    OutcomeIsRun(tLast, xs, i);
    OutcomeIsRun(tLast, xs, j);
    RunSplit(tLast, xs[..j + 1], i + 1);
    assert xs[..j + 1][..i + 1] == xs[..i + 1] && xs[..j + 1][i + 1..] == xs[i + 1..j + 1];
  }

  /** An accepted packet leaves between the clock reading that admitted it and 2 s later. */
  lemma DepartureBounds(tLast: u64, xs: seq<Arrival>, i: nat)
    requires i < |xs| && Timely(xs) && tLast < xs[0].now + T_HORIZON_DROP
    ensures Outcomes(tLast, xs)[i].tLast < xs[i].now + T_HORIZON_DROP
    ensures Outcomes(tLast, xs)[i].verdict == Ok ==> Outcomes(tLast, xs)[i].tLast >= xs[i].now
  {
    OutcomeStep(tLast, xs, i);
    if i > 0 { ClockStaysNear(tLast, xs[..i]); }
    PaceTimely(Run(tLast, xs[..i]), xs[i]);
  }

  lemma {:induction false} CountBounded(tLast: u64, xs: seq<Arrival>)
    ensures AcceptedCount(tLast, xs) <= |xs|
    decreases xs
  {
    if xs != [] { CountBounded(Pace(tLast, xs[0]).tLast, xs[1..]); }
  }

  /** The time over which `n` paced packets between two clock readings are spread: the clock distance, the
      horizon, and a nanosecond of truncation each. */
  function PacedSpan(from: nat, to: nat, n: nat): int { to - from + T_HORIZON_DROP + n }

  /** What a flow sends between two clock readings, from a virtual clock near the first: `top` bytes a
      second of the distance plus the 2 s horizon, and one truncation a packet. */
  lemma SentBetween(tLast: u64, xs: seq<Arrival>, from: nat, to: nat, n: nat, top: u64)
    requires Timely(xs) && PacedBy(xs, top) && from <= tLast < from + T_HORIZON_DROP
    requires from <= to && |xs| <= n && forall k :: 0 <= k < |xs| ==> from <= xs[k].now <= to
    ensures NSEC_PER_SEC * AcceptedBytes(tLast, xs) <= top * PacedSpan(from, to, n)
  {
    CountBounded(tLast, xs);
    if xs != [] {
      ClockStaysNear(tLast, xs);
      RunSpacing(tLast, xs);
    }
    DelaysCoverBytes(tLast, xs, top);
    MulMono(top, AcceptedDelay(tLast, xs) + AcceptedCount(tLast, xs), PacedSpan(from, to, n));
  }

  lemma {:induction false} RunSplit(tLast: u64, xs: seq<Arrival>, k: nat)
    requires k <= |xs|
    ensures Run(tLast, xs) == Run(Run(tLast, xs[..k]), xs[k..])
    decreases xs
  {
    if k == 0 {
      assert xs[0..] == xs;
    } else {
      RunSplit(Pace(tLast, xs[0]).tLast, xs[1..], k - 1);
      assert xs[..k][1..] == xs[1..][..k - 1] && xs[1..][k - 1..] == xs[k..];
    }
  }

  lemma {:induction false} OutcomeStep(tLast: u64, xs: seq<Arrival>, i: nat)
    requires i < |xs|
    ensures Outcomes(tLast, xs)[i] == Pace(Run(tLast, xs[..i]), xs[i])
    decreases xs
  {
    if i > 0 {
      OutcomeStep(Pace(tLast, xs[0]).tLast, xs[1..], i - 1);
      assert xs[..i][1..] == xs[1..][..i - 1];
    }
  }

  /** The virtual clock after packet `i` is the one packet `i` left behind. */
  lemma OutcomeIsRun(tLast: u64, xs: seq<Arrival>, i: nat)
    requires i < |xs|
    ensures Outcomes(tLast, xs)[i].tLast == Run(tLast, xs[..i + 1])
  {
    OutcomeStep(tLast, xs, i);
    RunSplit(tLast, xs[..i + 1], i);
    assert xs[..i + 1][..i] == xs[..i] && xs[..i + 1][i..] == [xs[i]];
    assert Run(Run(tLast, xs[..i]), [xs[i]]) == Pace(Run(tLast, xs[..i]), xs[i]).tLast;
  }

  /** Own delays of a run in which nothing is dropped. */
  function DelaySum(xs: seq<Arrival>): nat {
    if xs == [] then 0 else Delay(xs[0].len, xs[0].bps) + DelaySum(xs[1..])
  }

  ghost predicate NoneDropped(tLast: u64, xs: seq<Arrival>) {
    forall i :: 0 <= i < |xs| ==> Outcomes(tLast, xs)[i].verdict == Ok
  }

  /** No packet is held longer than needed: in a run without drops the last departure is the earliest that
      respects every packet's readiness and all own delays after it. It is never earlier than any of these
      bounds, and it meets one of them. */
  lemma {:induction false} DeparturesAreEarliest(tLast: u64, xs: seq<Arrival>)
    requires NoWrap(tLast, xs) && NoneDropped(tLast, xs)
    ensures var last := Run(tLast, xs);
      && tLast + DelaySum(xs) <= last
      && (forall i :: 0 <= i < |xs| ==> Ready(xs[i]) + DelaySum(xs[i + 1..]) <= last)
      && (last == tLast + DelaySum(xs) || exists i :: 0 <= i < |xs| && last == Ready(xs[i]) + DelaySum(xs[i + 1..]))
    decreases xs
  {
    if xs != [] {
      var t1, rest := Pace(tLast, xs[0]).tLast, xs[1..];
      assert Outcomes(tLast, xs)[0].verdict == Ok;
      assert forall i :: 0 <= i < |rest| ==> Outcomes(t1, rest)[i] == Outcomes(tLast, xs)[i + 1];
      assert t1 == Max(Ready(xs[0]), tLast + Delay(xs[0].len, xs[0].bps)) by { PassesExactly(tLast, xs[0]); }
      DeparturesAreEarliest(t1, rest);
      assert xs[0 + 1..] == rest;
      forall i | 0 < i < |xs| ensures xs[i] == rest[i - 1] && xs[i + 1..] == rest[(i - 1) + 1..] {}
      var last := Run(tLast, xs);
      if i :| 0 <= i < |rest| && last == Ready(rest[i]) + DelaySum(rest[i + 1..]) {
        assert xs[i + 1] == rest[i] && xs[(i + 1) + 1..] == rest[i + 1..];
      }
    }
  }

  /** When the last accepted packets were ready: the latest readiness among the accepted ones. */
  function LatestReady(since: u64, tLast: u64, xs: seq<Arrival>): u64
    decreases xs
  {
    if xs == [] then since
    else
      var p := Pace(tLast, xs[0]);
      LatestReady(if p.verdict == Ok then Max(since, Ready(xs[0])) else since, p.tLast, xs[1..])
  }

  /** Over any run, wraps and far stamps included, the virtual clock never runs 2 s past the latest readiness
      of an accepted packet. */
  lemma {:induction false} ClockNearLatestReady(since: u64, tLast: u64, xs: seq<Arrival>)
    requires tLast < since + T_HORIZON_DROP
    ensures Run(tLast, xs) < LatestReady(since, tLast, xs) + T_HORIZON_DROP
    decreases xs
  {
    if xs != [] {
      var p := Pace(tLast, xs[0]);
      PaceShape(tLast, xs[0]);
      ClockNearLatestReady(if p.verdict == Ok then Max(since, Ready(xs[0])) else since, p.tLast, xs[1..]);
    }
  }

  /** No flow starves for good: 2 s after the latest readiness of an accepted packet every packet whose own
      delay is under 2 s passes. */
  lemma RecoveryAfterReady(since: u64, tLast: u64, xs: seq<Arrival>, next: Arrival)
    requires tLast < since + T_HORIZON_DROP
    requires next.now >= LatestReady(since, tLast, xs) + T_HORIZON_DROP
    requires Delay(next.len, next.bps) < T_HORIZON_DROP
    ensures Pace(Run(tLast, xs), next).verdict == Ok
  {
    ClockNearLatestReady(since, tLast, xs);
  }

  // ---- no packet is dropped without need ----

  /** A sender's own virtual clock at a rate never runs 2 s ahead of the packet that moves it, unless the packet is
      not ready before then. The limits in force do not matter. */
  ghost predicate Conforms(clock: nat, xs: seq<Arrival>, rate: u64)
    decreases xs
  {
    xs == [] ||
    (var due := clock + Delay(xs[0].len, rate);
     (due < xs[0].now + T_HORIZON_DROP || due <= Ready(xs[0])) && Conforms(Max(Ready(xs[0]), due), xs[1..], rate))
  }

  lemma DelayShorter(len: u32, rate: u64, bps: u64)
    requires 0 < rate <= bps
    ensures Delay(len, bps) <= Delay(len, rate)
  {
    var d, e := Delay(len, bps), Delay(len, rate);
    DelayFacts(len, bps);
    DelayFacts(len, rate);
    if d > e {
      MulMono(bps, e + 1, d);
      MulMono(e + 1, rate, bps);
    }
  }

  /** A sender that keeps to a rate loses no packet while the limit moves anywhere at or above that rate, from
      any virtual clock no later than its own, wraps included. */
  lemma {:induction false} ConformingNeverDropped(tLast: u64, xs: seq<Arrival>, rate: u64, clock: nat)
    requires 0 < rate && tLast <= clock && Conforms(clock, xs, rate)
    requires forall i :: 0 <= i < |xs| ==> rate <= xs[i].bps
    ensures NoneDropped(tLast, xs)
    decreases xs
  {
    if xs != [] {
      var x, p := xs[0], Pace(tLast, xs[0]);
      var due := clock + Delay(x.len, rate);
      DelayShorter(x.len, rate, x.bps);
      assert Add64(tLast, Delay(x.len, x.bps)) <= due;
      PaceShape(tLast, x);
      assert p.verdict == Ok && p.tLast <= Max(Ready(x), due);
      ConformingNeverDropped(p.tLast, xs[1..], rate, Max(Ready(x), due));
    }
  }

  // ---- exactly when a flow recovers ----

  /** Drops leave the virtual clock alone: after a run it stands where the last accepted packet put it. */
  lemma {:induction false} ClockOfLastAccepted(tLast: u64, xs: seq<Arrival>) returns (before: u64)
    ensures var a := LastAccepted(tLast, xs);
      if a.Some? then Pace(before, a.value).verdict == Ok && Run(tLast, xs) == Pace(before, a.value).tLast
      else Run(tLast, xs) == tLast
    decreases xs
  {
    if xs == [] {
      before := tLast;
    } else {
      PaceShape(tLast, xs[0]);
      var p := Pace(tLast, xs[0]);
      before := ClockOfLastAccepted(p.tLast, xs[1..]);
      if LastAccepted(p.tLast, xs[1..]).None? { before := tLast; }
    }
  }

  /** From 2 s after a clock reading on, every packet whose own delay is under 2 s passes. */
  ghost predicate Recovers(tLast: u64, since: u64) {
    forall next: Arrival ::
      next.now >= since + T_HORIZON_DROP && Delay(next.len, next.bps) < T_HORIZON_DROP ==>
        Pace(tLast, next).verdict == Ok
  }

  /** A flow recovers within 2 s of its last acceptance exactly when that packet was stamped at most 2 s ahead, or
      the clock is in its last 4 s before it wraps. No other packet of the run matters. */
  lemma RecoversExactly(tLast: u64, xs: seq<Arrival>)
    requires LastAccepted(tLast, xs).Some?
    ensures var a := LastAccepted(tLast, xs).value;
      Recovers(Run(tLast, xs), a.now) <==>
        a.stamp <= a.now + T_HORIZON_DROP || a.now + 2 * T_HORIZON_DROP >= TWO64
  {
    var a, t := LastAccepted(tLast, xs).value, Run(tLast, xs);
    var before := ClockOfLastAccepted(tLast, xs);
    AcceptedClock(before, a);
    if a.stamp > a.now + T_HORIZON_DROP && a.now + 2 * T_HORIZON_DROP < TWO64 {
      NextDropped(t, a.now);
    } else {
      forall next: Arrival | next.now >= a.now + T_HORIZON_DROP && Delay(next.len, next.bps) < T_HORIZON_DROP
        ensures Pace(t, next).verdict == Ok
      {
        NextPasses(t, a.now, next);
      }
    }
  }

  /** Where an accepted packet puts the virtual clock: on its stamp if that lies more than 2 s ahead, and no more
      than 2 s ahead otherwise. */
  lemma AcceptedClock(tLast: u64, a: Arrival)
    requires Pace(tLast, a).verdict == Ok
    ensures a.stamp >= a.now + T_HORIZON_DROP ==> Pace(tLast, a).tLast == a.stamp
    ensures a.stamp < a.now + T_HORIZON_DROP ==> a.now <= Pace(tLast, a).tLast < a.now + T_HORIZON_DROP
  {
    PaceShape(tLast, a);
  }

  lemma NextPasses(tLast: u64, since: u64, next: Arrival)
    requires tLast <= since + T_HORIZON_DROP || since + 2 * T_HORIZON_DROP >= TWO64
    requires next.now >= since + T_HORIZON_DROP && Delay(next.len, next.bps) < T_HORIZON_DROP
    ensures Pace(tLast, next).verdict == Ok
  {
    PaceShape(tLast, next);
  }

  /** What the next packet needs to be dropped: just enough delay of its own to reach 2 s ahead, none if the
      virtual clock is that far already. */
  lemma NextDropped(tLast: u64, since: u64)
    requires tLast > since + T_HORIZON_DROP && since + 2 * T_HORIZON_DROP < TWO64
    ensures !Recovers(tLast, since)
  {
    var delay := Max(0, since + 2 * T_HORIZON_DROP - tLast);
    var next := Arrival(since + T_HORIZON_DROP, 0, delay, NSEC_PER_SEC);
    DelayFacts(delay, NSEC_PER_SEC);
    assert Delay(next.len, next.bps) == delay;
    PaceShape(tLast, next);
    assert Pace(tLast, next).verdict == Shot;
  }

  /** The virtual clock is less than 2 s past the last acceptance exactly when that packet's stamp was. */
  lemma ClockNearLastAcceptance(tLast: u64, xs: seq<Arrival>)
    requires LastAccepted(tLast, xs).Some?
    ensures var a := LastAccepted(tLast, xs).value;
      Run(tLast, xs) < a.now + T_HORIZON_DROP <==> a.stamp < a.now + T_HORIZON_DROP
  {
    var before := ClockOfLastAccepted(tLast, xs);
    AcceptedClock(before, LastAccepted(tLast, xs).value);
  }

  /** No flow whose last accepted packet was not stamped far ahead starves longer than 2 s after it; nor does one
      that has had no packet accepted, 2 s after its virtual clock was near. */
  lemma Recovery(since: u64, tLast: u64, xs: seq<Arrival>, next: Arrival)
    requires var a := LastAccepted(tLast, xs);
      if a.Some? then a.value.stamp <= a.value.now + T_HORIZON_DROP && since == a.value.now
      else tLast <= since + T_HORIZON_DROP
    requires next.now >= since + T_HORIZON_DROP && Delay(next.len, next.bps) < T_HORIZON_DROP
    ensures Pace(Run(tLast, xs), next).verdict == Ok
  {
    if LastAccepted(tLast, xs).Some? {
      RecoversExactly(tLast, xs);
    } else {
      var before := ClockOfLastAccepted(tLast, xs);
      NextPasses(tLast, since, next);
    }
  }
}
