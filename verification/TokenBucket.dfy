/** The token bucket of bpf/qos_tc.c: one packet is one call of `accept`, and the
    theorems are about whole sequences of calls. */
module TokenBucket {

  import opened Words

  /** TC_ACT_OK and TC_ACT_SHOT. */
  datatype Verdict = Ok | Shot

  datatype Bucket = Bucket(tokens: u64, tLast: u64)

  /** One packet as the bucket sees it: the clock, the wire length and the limit in force. */
  datatype Offer = Offer(now: u64, len: u64, bps: u64)

  /** Bytes earned in a number of microseconds. The product is a wrapping one. */
  function Credit(bps: u64, micros: u64): u64 { Mul64(bps, micros) / MEGABYTE }

  function Refill(b: Bucket, bps: u64, now: u64): u64 {
    var micros := Sub64(now, b.tLast) / 1000;
    if micros == 0 then b.tokens else Min(Add64(b.tokens, Credit(bps, micros)), bps)
  }

  /** What one call of `accept` decides and leaves behind. */
  function Admit(b: Bucket, o: Offer): (Bucket, Verdict) {
    if o.bps < MEGABYTE then (b, Ok)
    else
      var t := Refill(b, o.bps, o.now);
      if t >= o.len then (Bucket(t - o.len, o.now), Ok) else (Bucket(t, o.now), Shot)
  }

  /** `accept`, whose `tokens` and `t_last` pointers are the in-out pair here. */
  method Accept(wireLen: u64, tokens: u64, tLast: u64, bps: u64, now: u64)
    returns (verdict: Verdict, tokens': u64, tLast': u64)
    ensures (Bucket(tokens', tLast'), verdict) == Admit(Bucket(tokens, tLast), Offer(now, wireLen, bps))
  {
    tokens', tLast' := tokens, tLast;
    var t := tokens;
    if bps < MEGABYTE {
      return Ok, tokens', tLast';
    }
    var elapsed := Sub64(now, tLast) / 1000;
    if elapsed > 0 {
      t := Add64(t, Mul64(bps, elapsed) / MEGABYTE);
      if t > bps {
        t := bps;
      }
    }
    tLast' := now;
    if t >= wireLen {
      t := t - wireLen;
      tokens' := t;
      verdict := Ok;
    } else {
      tokens' := t;
      verdict := Shot;
    }
  }

  // ---- runs ----

  function Run(b: Bucket, os: seq<Offer>): Bucket
    decreases os
  {
    if os == [] then b else Run(Admit(b, os[0]).0, os[1..])
  }

  function Verdicts(b: Bucket, os: seq<Offer>): (r: seq<Verdict>)
    ensures |r| == |os|
    decreases os
  {
    if os == [] then [] else [Admit(b, os[0]).1] + Verdicts(Admit(b, os[0]).0, os[1..])
  }

  function AcceptedBytes(b: Bucket, os: seq<Offer>): nat
    decreases os
  {
    if os == [] then 0
    else
      var (b', v) := Admit(b, os[0]);
      (if v == Ok then os[0].len else 0) + AcceptedBytes(b', os[1..])
  }

  ghost predicate Ordered(os: seq<Offer>) {
    forall i, j :: 0 <= i < j < |os| ==> os[i].now <= os[j].now
  }

  /** Every limit in the run is a real limit (at least 1 MB) and at most `top`. */
  ghost predicate LimitedBy(os: seq<Offer>, top: u64) {
    forall i :: 0 <= i < |os| ==> MEGABYTE <= os[i].bps <= top
  }

  // ---- one call ----

  lemma CreditUpper(bps: nat, dt: nat)
    ensures 1000 * (bps * (dt / 1000)) <= bps * dt
  {
    var us := dt / 1000;
    assert bps * (1000 * us) <= bps * dt by { MulMono(bps, 1000 * us, dt); }
    assert bps * (1000 * us) == 1000 * (bps * us);
  }

  /** The stored tokens plus the bytes let through never exceed the tokens before plus the
      exact credit, wrapping or not. */
  lemma AdmitUpper(b: Bucket, o: Offer, top: u64)
    requires MEGABYTE <= o.bps <= top && b.tLast <= o.now
    ensures var (b', v) := Admit(b, o);
      && b'.tLast == o.now
      && NSEC_PER_SEC * (b'.tokens + (if v == Ok then o.len else 0))
         <= NSEC_PER_SEC * b.tokens + top * (o.now - b.tLast)
  {
    AdmitSpends(b, o);
    RefillUpper(b, o);
    MulMono(o.now - b.tLast, o.bps, top);
  }

  lemma AdmitSpends(b: Bucket, o: Offer)
    requires MEGABYTE <= o.bps
    ensures var (b', v) := Admit(b, o);
      b'.tLast == o.now && b'.tokens + (if v == Ok then o.len else 0) == Refill(b, o.bps, o.now)
  {
  }

  lemma RefillUpper(b: Bucket, o: Offer)
    requires b.tLast <= o.now
    ensures NSEC_PER_SEC * Refill(b, o.bps, o.now) <= NSEC_PER_SEC * b.tokens + o.bps * (o.now - b.tLast)
  {
    var dt := o.now - b.tLast;
    CreditUpper(o.bps, dt);
    Mul64Facts(o.bps, dt / 1000);
    MulMono(o.bps, 0, dt);
    assert Refill(b, o.bps, o.now) <= b.tokens + Credit(o.bps, dt / 1000);
  }

  lemma AdmitCapped(b: Bucket, o: Offer, top: u64)
    requires MEGABYTE <= o.bps <= top && b.tokens <= top
    ensures var (b', v) := Admit(b, o);
      b'.tLast == o.now && b'.tokens + (if v == Ok then o.len else 0) <= top
  {
  }

  /** No wrap in the product and no cap: the only losses are the two truncations. */
  ghost predicate Exact(b: Bucket, o: Offer) {
    && MEGABYTE <= o.bps
    && b.tLast <= o.now
    && var us := (o.now - b.tLast) / 1000;
       o.bps * us < TWO64 && b.tokens + o.bps * us / MEGABYTE <= o.bps
  }

  lemma AdmitLower(b: Bucket, o: Offer)
    requires Exact(b, o)
    ensures var (b', v) := Admit(b, o);
      && b'.tLast == o.now
      && NSEC_PER_SEC * b.tokens + o.bps * (o.now - b.tLast)
         < NSEC_PER_SEC * (b'.tokens + (if v == Ok then o.len else 0)) + 1000 * o.bps + NSEC_PER_SEC
  {
    AdmitSpends(b, o);
    RefillLower(b, o);
  }

  lemma RefillLower(b: Bucket, o: Offer)
    requires Exact(b, o)
    ensures NSEC_PER_SEC * b.tokens + o.bps * (o.now - b.tLast)
          < NSEC_PER_SEC * Refill(b, o.bps, o.now) + 1000 * o.bps + NSEC_PER_SEC
  {
    CreditLower(o.bps, o.now - b.tLast);
    Mul64Facts(o.bps, (o.now - b.tLast) / 1000);
  }

  // ---- whole runs ----

  lemma {:induction false} RunUpper(b: Bucket, os: seq<Offer>, top: u64)
    requires Ordered(os) && LimitedBy(os, top)
    requires os != [] ==> b.tLast <= os[0].now
    ensures var b' := Run(b, os);
      && b'.tLast == (if os == [] then b.tLast else os[|os| - 1].now)
      && NSEC_PER_SEC * (b'.tokens + AcceptedBytes(b, os))
         <= NSEC_PER_SEC * b.tokens + top * (b'.tLast - b.tLast)
    decreases os
  {
    if os != [] {
      var (b1, v) := Admit(b, os[0]);
      var rest, got := os[1..], if v == Ok then os[0].len else 0;
      AdmitUpper(b, os[0], top);
      RunUpper(b1, rest, top);
      assert Run(b, os) == Run(b1, rest) && AcceptedBytes(b, os) == got + AcceptedBytes(b1, rest);
      var end, later := Run(b1, rest), AcceptedBytes(b1, rest);
      JoinUpper(top, b.tLast, b1.tLast, end.tLast, b.tokens, b1.tokens, end.tokens, got, later);
    }
  }

  /** Two adjoining stretches of the upper bound make one. */
  lemma JoinUpper(top: nat, t0: int, t1: int, t2: int, k0: int, k1: int, k2: int, a1: int, a2: int)
    requires NSEC_PER_SEC * (k1 + a1) <= NSEC_PER_SEC * k0 + top * (t1 - t0)
    requires NSEC_PER_SEC * (k2 + a2) <= NSEC_PER_SEC * k1 + top * (t2 - t1)
    ensures NSEC_PER_SEC * (k2 + a1 + a2) <= NSEC_PER_SEC * k0 + top * (t2 - t0)
  {
    MulDist(top, t1 - t0, t2 - t1);
  }

  /** Over any window of calls whose limits move anywhere between 1 MB and `top`, the bytes let
      through are at most one full bucket plus `top` per second of the window. The clock stored
      before the window does not matter. */
  lemma {:induction false} WindowCeiling(b: Bucket, os: seq<Offer>, top: u64)
    requires os != [] && Ordered(os) && LimitedBy(os, top) && b.tokens <= top
    ensures NSEC_PER_SEC * AcceptedBytes(b, os)
         <= NSEC_PER_SEC * top + top * (os[|os| - 1].now - os[0].now)
    ensures Run(b, os).tokens <= top
  {
    var b1 := Admit(b, os[0]).0;
    AdmitCapped(b, os[0], top);
    RunUpper(b1, os[1..], top);
    TokensStayUnder(b1, os[1..], top);
  }

  /** The same when more is stored than the limits allow, as after they were lowered. */
  lemma {:induction false} WindowCeilingFrom(b: Bucket, os: seq<Offer>, top: u64)
    requires os != [] && Ordered(os) && LimitedBy(os, top)
    ensures NSEC_PER_SEC * AcceptedBytes(b, os)
         <= NSEC_PER_SEC * Max(b.tokens, top) + top * (os[|os| - 1].now - os[0].now)
  {
    var b1 := Admit(b, os[0]).0;
    AdmitSpends(b, os[0]);
    RunUpper(b1, os[1..], top);
  }

  /** The same between any two clock readings around the calls, empty runs included. */
  lemma CeilingBetween(b: Bucket, os: seq<Offer>, from: nat, to: nat, top: u64)
    requires Ordered(os) && LimitedBy(os, top) && b.tokens <= top && from <= to
    requires forall k :: 0 <= k < |os| ==> from <= os[k].now <= to
    ensures NSEC_PER_SEC * AcceptedBytes(b, os) <= NSEC_PER_SEC * top + top * (to - from)
    ensures Run(b, os).tokens <= top
  {
    if os == [] {
      MulMono(top, 0, to - from);
    } else {
      WindowCeiling(b, os, top);
      MulMono(top, os[|os| - 1].now - os[0].now, to - from);
    }
  }

  lemma {:induction false} TokensStayUnder(b: Bucket, os: seq<Offer>, top: u64)
    requires LimitedBy(os, top) && b.tokens <= top
    ensures Run(b, os).tokens <= top
    decreases os
  {
    if os != [] {
      AdmitCapped(b, os[0], top);
      TokensStayUnder(Admit(b, os[0]).0, os[1..], top);
    }
  }

  ghost predicate ExactRun(b: Bucket, os: seq<Offer>)
    decreases os
  {
    os == [] || (Exact(b, os[0]) && ExactRun(Admit(b, os[0]).0, os[1..]))
  }

  /** Two-sided accounting at a fixed limit, in bytes times nanoseconds: nothing is created, and
      when neither the product wraps nor the cap bites, less than bps/10^6 + 1 bytes are lost a call. */
  lemma {:induction false} Accounting(b: Bucket, os: seq<Offer>, bps: u64)
    requires MEGABYTE <= bps && Ordered(os) && os != [] && b.tLast <= os[0].now
    requires forall i :: 0 <= i < |os| ==> os[i].bps == bps
    ensures var b' := Run(b, os);
      var have := NSEC_PER_SEC * (b'.tokens + AcceptedBytes(b, os));
      var earned := NSEC_PER_SEC * b.tokens + bps * (os[|os| - 1].now - b.tLast);
      have <= earned && (ExactRun(b, os) ==> earned < have + |os| * (1000 * bps + NSEC_PER_SEC))
  {
    RunUpper(b, os, bps);
    if ExactRun(b, os) { RunLower(b, os, bps); }
  }

  lemma {:induction false} RunLower(b: Bucket, os: seq<Offer>, bps: u64)
    requires os != [] && ExactRun(b, os)
    requires forall i :: 0 <= i < |os| ==> os[i].bps == bps
    ensures NSEC_PER_SEC * b.tokens + bps * (os[|os| - 1].now - b.tLast)
         < NSEC_PER_SEC * (Run(b, os).tokens + AcceptedBytes(b, os)) + |os| * (1000 * bps + NSEC_PER_SEC)
    decreases os
  {
    var (b1, v) := Admit(b, os[0]);
    var rest := os[1..];
    var got := if v == Ok then os[0].len else 0;
    AdmitLower(b, os[0]);
    assert Run(b, os) == Run(b1, rest) && AcceptedBytes(b, os) == got + AcceptedBytes(b1, rest);
    if rest != [] {
      RunLower(b1, rest, bps);
      JoinWindows(bps, |rest|, b.tLast, b1.tLast, os[|os| - 1].now, b.tokens, b1.tokens, Run(b, os).tokens,
                  got, AcceptedBytes(b1, rest));
    }
  }

  /** Two adjoining stretches of the lower bound make one. */
  lemma JoinWindows(bps: nat, n: nat, t0: int, t1: int, t2: int, k0: int, k1: int, k2: int, a1: int, a2: int)
    requires NSEC_PER_SEC * k0 + bps * (t1 - t0) < NSEC_PER_SEC * (k1 + a1) + 1000 * bps + NSEC_PER_SEC
    requires NSEC_PER_SEC * k1 + bps * (t2 - t1)
           < NSEC_PER_SEC * (k2 + a2) + n * (1000 * bps + NSEC_PER_SEC)
    ensures NSEC_PER_SEC * k0 + bps * (t2 - t0)
          < NSEC_PER_SEC * (k2 + a1 + a2) + (n + 1) * (1000 * bps + NSEC_PER_SEC)
  {
    MulDist(bps, t1 - t0, t2 - t1);
    MulDist(1000 * bps + NSEC_PER_SEC, n, 1);
  }

  // ---- the refill that is due ----

  /** Bytes earned at the limit in whole microseconds, without a wrap. */
  function Earned(bps: nat, micros: nat): nat { bps * micros / MEGABYTE }

  /** What the refill is meant to be: the bytes earned since, at most one second's worth. */
  function DueRefill(b: Bucket, bps: u64, now: u64): nat
    requires b.tLast <= now
  {
    var us := (now - b.tLast) / 1000;
    if us == 0 then b.tokens else Min(b.tokens + Earned(bps, us), bps)
  }

  /** The product of limit and microseconds stays inside 64 bits, or the credit it leaves fills the bucket
      anyway; and the sum with the stored tokens does not wrap below the limit. */
  predicate CreditFits(b: Bucket, bps: u64, now: u64)
    requires b.tLast <= now
  {
    var us := (now - b.tLast) / 1000;
    var sum := b.tokens + Credit(bps, us);
    us == 0 || (if sum < TWO64 then bps * us < TWO64 || bps <= sum else bps <= sum - TWO64)
  }

  lemma CreditVersusEarned(bps: u64, micros: u64)
    ensures bps * micros < TWO64 ==> Credit(bps, micros) == Earned(bps, micros)
    ensures bps * micros >= TWO64 ==> Credit(bps, micros) < Earned(bps, micros)
  {
    var p := bps * micros;
    MulMono(bps, 0, micros);
    WrappedQuotient(p);
  }

  lemma WrappedQuotient(p: nat)
    ensures p < TWO64 ==> p % TWO64 == p
    ensures p >= TWO64 ==> (p % TWO64) / MEGABYTE < p / MEGABYTE
  {
    if p >= TWO64 {
      assert p % TWO64 + TWO64 <= p;
    }
  }

  /** A refill is the one that is due exactly when the credit fits. */
  lemma RefillExactly(b: Bucket, bps: u64, now: u64)
    requires b.tLast <= now
    ensures Refill(b, bps, now) == DueRefill(b, bps, now) <==> CreditFits(b, bps, now)
  {
    var us := (now - b.tLast) / 1000;
    CreditVersusEarned(bps, us);
    if us > 0 { CappedSum(b.tokens, Credit(bps, us), Earned(bps, us), bps, bps * us < TWO64); }
  }

  lemma CappedSum(tokens: u64, credit: u64, earned: nat, bps: u64, fits: bool)
    requires if fits then credit == earned else credit < earned
    ensures Min(Add64(tokens, credit), bps) == Min(tokens + earned, bps)
      <==> if tokens + credit < TWO64 then fits || bps <= tokens + credit else bps <= tokens + credit - TWO64
  {
  }

  /** A 100 Gbit/s limit after 24.6 minutes of silence: the bucket should be full, holds 1290 bytes, and a
      full-sized packet is dropped. */
  lemma SilenceStarves()
    ensures var b, o := Bucket(0, 0), Offer(1_475_739_526_000, 1500, 12_500_000_000);
      && DueRefill(b, o.bps, o.now) == o.bps
      && Refill(b, o.bps, o.now) == 1290
      && Admit(b, o).1 == Shot
  {
    assert Mul64(12_500_000_000, 1_475_739_526) == 1_290_448_384;
  }

  // ---- no packet is dropped without need ----

  /** The leaky bucket: a backlog drained by the bytes earned in each gap; a packet passes if the backlog
      still holds it within one second's worth of the limit. */
  function LeakyVerdicts(backlog: nat, tLast: u64, os: seq<Offer>, bps: u64): seq<Verdict>
    decreases os
  {
    if os == [] then []
    else
      var drained := Max(0, backlog - Earned(bps, Max(0, os[0].now - tLast) / 1000));
      if drained + os[0].len <= bps then [Ok] + LeakyVerdicts(drained + os[0].len, os[0].now, os[1..], bps)
      else [Shot] + LeakyVerdicts(drained, os[0].now, os[1..], bps)
  }

  function LeakyBacklog(backlog: nat, tLast: u64, os: seq<Offer>, bps: u64): nat
    decreases os
  {
    if os == [] then backlog
    else
      var drained := Max(0, backlog - Earned(bps, Max(0, os[0].now - tLast) / 1000));
      LeakyBacklog(if drained + os[0].len <= bps then drained + os[0].len else drained, os[0].now, os[1..], bps)
  }

  /** Every refill of the run is the one that is due. */
  ghost predicate DueRefills(b: Bucket, os: seq<Offer>)
    decreases os
  {
    os == [] ||
    (b.tLast <= os[0].now && CreditFits(b, os[0].bps, os[0].now) && DueRefills(Admit(b, os[0]).0, os[1..]))
  }

  /** At a fixed limit the token bucket and the leaky bucket decide alike on every run whose credits fit:
      stored tokens and backlog always add up to one second's worth. */
  lemma {:induction false} TokensAreLeaky(b: Bucket, os: seq<Offer>, bps: u64)
    requires MEGABYTE <= bps && b.tokens <= bps && DueRefills(b, os)
    requires forall i :: 0 <= i < |os| ==> os[i].bps == bps
    ensures Verdicts(b, os) == LeakyVerdicts(bps - b.tokens, b.tLast, os, bps)
    ensures Run(b, os).tokens + LeakyBacklog(bps - b.tokens, b.tLast, os, bps) == bps
    decreases os
  {
    if os != [] {
      assert Refill(b, bps, os[0].now) == Min(bps, b.tokens + Earned(bps, (os[0].now - b.tLast) / 1000)) by {
        RefillExactly(b, bps, os[0].now);
        if (os[0].now - b.tLast) / 1000 == 0 { assert Earned(bps, 0) == 0; }
      }
      TokensAreLeaky(Admit(b, os[0]).0, os[1..], bps);
    }
  }

  /** Between calls the product of the highest limit and the microseconds stays inside 64 bits. */
  ghost predicate ShortGaps(tLast: u64, os: seq<Offer>, top: u64)
    decreases os
  {
    os == [] ||
    (tLast <= os[0].now && top * ((os[0].now - tLast) / 1000) < TWO64 && ShortGaps(os[0].now, os[1..], top))
  }

  /** Short gaps are enough, for limits that leave room for one credit in 64 bits. */
  lemma {:induction false} ShortGapsRefill(b: Bucket, os: seq<Offer>, top: u64)
    requires LimitedBy(os, top) && b.tokens <= top < TWO64 - 18_446_744_073_710 && ShortGaps(b.tLast, os, top)
    ensures DueRefills(b, os)
    decreases os
  {
    if os != [] {
      var o := os[0];
      MulMono((o.now - b.tLast) / 1000, o.bps, top);
      assert o.bps * ((o.now - b.tLast) / 1000) < TWO64;
      AdmitCapped(b, o, top);
      ShortGapsRefill(Admit(b, o).0, os[1..], top);
    }
  }

  /** A sender's backlog at a rate, in bytes times nanoseconds: drained by the true rate, and charged for
      each packet and for the two truncations of its call. It must never pass one second's worth. The
      limits in force do not matter. */
  ghost predicate Conforms(backlog: nat, tLast: u64, os: seq<Offer>, rate: u64)
    decreases os
  {
    os == [] ||
    (var next := Drained(backlog, tLast, os[0].now, rate) + NSEC_PER_SEC * os[0].len;
     tLast <= os[0].now && next <= NSEC_PER_SEC * rate && Conforms(next, os[0].now, os[1..], rate))
  }

  function Drained(backlog: nat, tLast: u64, now: u64, rate: u64): nat {
    Max(0, backlog - rate * (now - tLast) + 1000 * rate + NSEC_PER_SEC)
  }

  /** A sender that keeps to a rate loses no packet while the limit moves anywhere at or above that rate. */
  lemma {:induction false} ConformingNeverDropped(b: Bucket, os: seq<Offer>, rate: u64, backlog: nat)
    requires MEGABYTE <= rate && NSEC_PER_SEC * (rate - b.tokens) <= backlog
    requires forall i :: 0 <= i < |os| ==> rate <= os[i].bps
    requires DueRefills(b, os) && Conforms(backlog, b.tLast, os, rate)
    ensures forall i :: 0 <= i < |os| ==> Verdicts(b, os)[i] == Ok
    decreases os
  {
    if os != [] {
      var o, t := os[0], Refill(b, os[0].bps, os[0].now);
      DrainedTokens(b, o.bps, o.now, backlog, rate);
      assert t >= o.len;
      ConformingNeverDropped(Bucket(t - o.len, o.now), os[1..], rate,
                             Drained(backlog, b.tLast, o.now, rate) + NSEC_PER_SEC * o.len);
    }
  }

  lemma DrainedTokens(b: Bucket, bps: u64, now: u64, backlog: nat, rate: u64)
    requires rate <= bps && b.tLast <= now && CreditFits(b, bps, now)
    requires NSEC_PER_SEC * (rate - b.tokens) <= backlog
    ensures NSEC_PER_SEC * (rate - Refill(b, bps, now)) <= Drained(backlog, b.tLast, now, rate)
  {
    var dt := now - b.tLast;
    RefillExactly(b, bps, now);
    CreditLower(rate, dt);
    EarnedMore(rate, bps, dt / 1000);
    if dt / 1000 == 0 { assert Earned(rate, 0) == 0; }
  }

  lemma EarnedMore(rate: nat, bps: nat, micros: nat)
    requires rate <= bps
    ensures Earned(rate, micros) <= Earned(bps, micros)
  {
    MulMono(micros, rate, bps);
  }

  lemma CreditLower(bps: nat, dt: nat)
    ensures bps * dt < NSEC_PER_SEC * Earned(bps, dt / 1000) + 1000 * bps + NSEC_PER_SEC
  {
    var us := dt / 1000;
    MulMono(bps, dt, 1000 * us + 999);
    assert bps * (1000 * us + 999) == 1000 * (bps * us) + 999 * bps;
    assert bps * us < MEGABYTE * (bps * us / MEGABYTE) + MEGABYTE;
  }

  /** A limit below 1 MB is no limit: every packet passes and the bucket is not even read. */
  lemma {:induction false} BelowOneMegabyteIsUnlimited(b: Bucket, os: seq<Offer>)
    requires forall i :: 0 <= i < |os| ==> os[i].bps < MEGABYTE
    ensures Run(b, os) == b
    ensures forall i :: 0 <= i < |os| ==> Verdicts(b, os)[i] == Ok
    decreases os
  {
    if os != [] { BelowOneMegabyteIsUnlimited(b, os[1..]); }
  }
}
