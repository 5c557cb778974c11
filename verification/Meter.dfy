/** The bandwidth meter of bpf/qos_tc.c (`cal_rate`, `get_average_rate`): two directions share one
    array of 20 samples. Slots 0 and 10 are the bookkeeping slots of ingress and egress. */
module Meter {

  import opened Words

  datatype Direction = Ingress | Egress

  /** struct net_stat. */
  datatype NetStat = NetStat(index: u64, ts: u64, val: u64)

  const SLOTS := 20
  const WINDOW: u64 := 100_000_000
  const STALE: u64 := 300_000_000

  function Base(d: Direction): nat { if d == Ingress then 0 else 10 }

  function Other(d: Direction): Direction { if d == Ingress then Egress else Ingress }

  type Stats = s: seq<NetStat> | |s| == 20 witness ZeroStats()

  function ZeroStats(): (r: seq<NetStat>)
    ensures |r| == 20 && forall i :: 0 <= i < 20 ==> r[i] == NetStat(0, 0, 0)
  {
    seq(20, _ => NetStat(0, 0, 0))
  }

  /** What a packet does to the window it falls in: it stays open, or it is closed and its rate goes
      to `slot` (a slot past the array swallows it). */
  datatype Window = Open | Closed(bytes: u64, span: u64, rate: u64, slot: u32)

  /** The slot number the packet works with: a multiple of ten means "wrap", one past it. */
  function Cursor(index: u64): u64 { if index % 10 == 0 then Add64(index, 1) else index }

  function RateOf(bytes: u64, span: u64): u64 {
    if span > STALE then 0 else Div64(Mul64(bytes, NSEC_PER_SEC), span)
  }

  /** One call of `cal_rate`. The lookup key is the low 32 bits of the cursor. */
  function Count(s: Stats, d: Direction, len: u64, now: u64): (r: (Stats, Window)) {
    var m := Base(d);
    var wrap := s[m].index % 10 == 0;
    var stored: u64 := if wrap then m + 1 else s[m].index;
    var total := Add64(s[m].val, len);
    var span := Sub64(now, s[m].ts);
    if span < WINDOW then
      (s[m := NetStat(stored, if wrap then now else s[m].ts, total)], Open)
    else
      var cursor := Cursor(s[m].index);
      var key: u32 := cursor % 0x1_0000_0000;
      var rate := RateOf(total, span);
      var s1: Stats := s[m := NetStat(stored, now, 0)];
      if key >= SLOTS then (s1, Closed(total, span, rate, key))
      else
        var s2: Stats := s1[key := NetStat(s1[key].index, now, rate)];
        (s2[m := s2[m].(index := Add64(cursor, 1))], Closed(total, span, rate, key))
  }

  function Recent(x: NetStat, now: u64): u64 { if Sub64(now, x.ts) < NSEC_PER_SEC then x.val else 0 }

  /** The wrapping sum over the first n slots of a direction. */
  function RecentSum(s: Stats, d: Direction, now: u64, n: nat): u64
    requires n <= 9
  {
    if n == 0 then 0 else Add64(RecentSum(s, d, now, n - 1), Recent(s[Base(d) + n - 1], now))
  }

  /** `get_average_rate`: slots base+0 to base+8, the bookkeeping slot included, base+9 skipped. */
  function Average(s: Stats, d: Direction, now: u64): u64 { RecentSum(s, d, now, 9) / 9 }

  class NetStatMap {
    const stats: array<NetStat>

    ghost predicate Valid() reads this { stats.Length == 20 }

    ghost function Contents(): Stats
      reads this, stats
      requires Valid()
    {
      stats[..]
    }

    constructor ()
      ensures Valid() && fresh(stats) && Contents() == ZeroStats()
    {
      stats := new NetStat[20](_ => NetStat(0, 0, 0));
    }

    method CalRate(len: u64, d: Direction, now: u64)
      requires Valid()
      modifies stats
      ensures Contents() == Count(old(Contents()), d, len, now).0
    {
      var m := Base(d);
      var index, tLast, lastBytes := stats[m].index, stats[m].ts, stats[m].val;
      if index % 10 == 0 {
        stats[m] := stats[m].(index := m + 1);
        stats[m] := stats[m].(ts := now);
        stats[m] := stats[m].(val := 0);
        index := Add64(index, 1);
      }
      ghost var before := old(Contents());
      assert Contents() == before[m := NetStat(if index == before[m].index then index else m + 1,
                                               stats[m].ts, stats[m].val)];
      // The C code's second test, (index + 1) % 10 == 1, cannot hold here: see SecondTestIsDead.
      var total := Add64(lastBytes, len);
      if Sub64(now, tLast) < WINDOW {
        stats[m] := stats[m].(val := total);
        return;
      }
      stats[m] := stats[m].(ts := now);
      stats[m] := stats[m].(val := 0);
      var rate: u64;
      if Sub64(now, tLast) > STALE {
        rate := 0;
      } else {
        rate := Div64(Mul64(total, NSEC_PER_SEC), Sub64(now, tLast));
      }
      var key := index % 0x1_0000_0000;
      if key >= SLOTS {
        return;
      }
      stats[key] := stats[key].(val := rate);
      stats[key] := stats[key].(ts := now);
      stats[m] := stats[m].(index := Add64(index, 1));
    }

    method GetAverageRate(d: Direction, now: u64) returns (avg: u64)
      requires Valid()
      ensures avg == Average(Contents(), d, now)
    {
      var sum: u64 := 0;
      for i := 0 to 9
        invariant sum == RecentSum(Contents(), d, now, i)
      {
        var info := stats[Base(d) + i];
        if Sub64(now, info.ts) < 1000 * NSEC_PER_MSEC {
          sum := Add64(sum, info.val);
        }
      }
      avg := sum / 9;
    }
  }

  lemma SecondTestIsDead(index: u64)
    ensures index % 10 != 0 ==> Add64(index, 1) % 10 != 1
  {
    if index == MAX64 {
      assert Add64(index, 1) == 0;
    } else {
      assert Add64(index, 1) == index + 1;
    }
  }

  // ---- runs of interleaved packets ----

  datatype Tick = Tick(dir: Direction, len: u32, now: u64)

  function Run(s: Stats, ts: seq<Tick>): Stats
    decreases ts
  {
    if ts == [] then s else Run(Count(s, ts[0].dir, ts[0].len, ts[0].now).0, ts[1..])
  }

  ghost predicate Ordered(ts: seq<Tick>) {
    forall i, j :: 0 <= i < j < |ts| ==> ts[i].now <= ts[j].now
  }

  // ---- the ring ----

  ghost predicate RingOk(s: Stats) { s[0].index <= 20 && s[10].index <= 20 }

  /** The index range in which a direction writes its own block only. */
  ghost predicate Settled(s: Stats, d: Direction) { Base(d) < s[Base(d)].index <= Base(d) + 10 }

  /** A packet that finds its direction at a wrap and closes a window on it. */
  ghost predicate LateWrap(s: Stats, t: Tick) {
    s[Base(t.dir)].index % 10 == 0 && Sub64(t.now, s[Base(t.dir)].ts) >= WINDOW
  }

  /** One packet keeps both indices in 0..20, leaves the other direction's bookkeeping slot alone,
      touches at most one sample slot, and that slot is never a bookkeeping slot. */
  lemma TickFootprint(s: Stats, t: Tick)
    requires RingOk(s)
    ensures var (s', w) := Count(s, t.dir, t.len, t.now);
      && RingOk(s')
      && s'[Base(Other(t.dir))] == s[Base(Other(t.dir))]
      && (w.Closed? ==> w.slot % 10 != 0 && w.slot <= 21)
      && (forall k :: 0 <= k < 20 && k != Base(t.dir) && !(w.Closed? && k == w.slot) ==> s'[k] == s[k])
      && (w.Closed? && w.slot < 20 ==> s'[w.slot] == NetStat(s[w.slot].index, t.now, w.rate))
  {
  }

  /** The bookkeeping slot after a packet, from the slot before it and whether a window closed: an open window
      keeps its start unless the index wraps; a window closes into the slot the index names, or the one past a
      wrap, and the index moves on behind it unless there is no such slot. */
  lemma Bookkeeping(s: Stats, t: Tick)
    requires RingOk(s)
    ensures var (s', w) := Count(s, t.dir, t.len, t.now);
      var m := Base(t.dir);
      var wrap := s[m].index % 10 == 0;
      && s'[m].ts == (if wrap || w.Closed? then t.now else s[m].ts)
      && (w.Closed? ==> w.slot == (if wrap then s[m].index + 1 else s[m].index))
      && s'[m].index == (if w.Closed? && w.slot < 20 then w.slot + 1 else if wrap then m + 1 else s[m].index)
      && s'[m].val == (if w.Closed? then 0 else (s[m].val + t.len) % TWO64)
  {
  }

  /** Exactly when a direction that is in its own range leaves it: only ingress, only on a wrap that
      comes 100 ms or more after the previous sample. Egress never leaves. */
  lemma LeavesRangeExactly(s: Stats, t: Tick)
    requires Settled(s, t.dir)
    ensures !Settled(Count(s, t.dir, t.len, t.now).0, t.dir) <==> t.dir == Ingress && LateWrap(s, t)
  {
  }

  ghost predicate PromptIngress(s: Stats, ts: seq<Tick>)
    decreases ts
  {
    ts == [] ||
    (!(ts[0].dir == Ingress && LateWrap(s, ts[0]))
     && PromptIngress(Count(s, ts[0].dir, ts[0].len, ts[0].now).0, ts[1..]))
  }

  /** Over any interleaving and any timing: indices stay in 0..20, egress once settled stays settled,
      and so does ingress as long as its wraps are prompt. */
  lemma {:induction false} RingInvariant(s: Stats, ts: seq<Tick>)
    requires RingOk(s)
    ensures RingOk(Run(s, ts))
    ensures Settled(s, Egress) ==> Settled(Run(s, ts), Egress)
    ensures Settled(s, Ingress) && PromptIngress(s, ts) ==> Settled(Run(s, ts), Ingress)
    decreases ts
  {
    if ts != [] {
      TickFootprint(s, ts[0]);
      if Settled(s, ts[0].dir) { LeavesRangeExactly(s, ts[0]); }
      RingInvariant(Count(s, ts[0].dir, ts[0].len, ts[0].now).0, ts[1..]);
    }
  }

  /** From the all-zero array the first egress packet, once the clock shows 100 ms, publishes into
      slot 1, a slot of ingress: the blocks are not isolated from the start. */
  lemma ZeroStartCrosses(len: u32, now: u64)
    requires now >= WINDOW
    ensures var (s', w) := Count(ZeroStats(), Egress, len, now);
      w.Closed? && w.slot == 1 && s'[1].ts == now && s'[10].index == 2
  {
  }

  /** Exactly when a direction out of its range comes into it: at a wrap, which for egress must be its own or find
      the window still open. */
  lemma SettlesExactly(s: Stats, t: Tick)
    requires RingOk(s) && !Settled(s, t.dir)
    ensures Settled(Count(s, t.dir, t.len, t.now).0, t.dir) <==>
      && s[Base(t.dir)].index % 10 == 0
      && (t.dir == Egress ==> s[10].index == 10 || Sub64(t.now, s[10].ts) < WINDOW)
  {
  }

  /** Some egress packet of the run publishes a sample into a slot of ingress. */
  ghost predicate EgressCrosses(s: Stats, ts: seq<Tick>)
    decreases ts
  {
    ts != [] &&
    (var (s', w) := Count(s, ts[0].dir, ts[0].len, ts[0].now);
     (ts[0].dir == Egress && w.Closed? && w.slot < 10) || EgressCrosses(s', ts[1..]))
  }

  lemma {:induction false} NeverCrosses(s: Stats, ts: seq<Tick>)
    requires RingOk(s) && 10 <= s[10].index
    ensures !EgressCrosses(s, ts)
    decreases ts
  {
    if ts != [] {
      TickFootprint(s, ts[0]);
      NeverCrosses(Count(s, ts[0].dir, ts[0].len, ts[0].now).0, ts[1..]);
    }
  }

  ghost predicate StaysOut(s: Stats) { forall ts: seq<Tick> :: !EgressCrosses(s, ts) }

  /** Egress never writes into the ingress half, whatever comes, exactly when its index has reached 10: until then
      the next window that closes does, the very first one from zero included. */
  lemma CrossesExactly(s: Stats)
    requires RingOk(s)
    ensures StaysOut(s) <==> 10 <= s[10].index
  {
    if 10 <= s[10].index {
      forall ts: seq<Tick> ensures !EgressCrosses(s, ts) {
        NeverCrosses(s, ts);
      }
    } else {
      var t := Tick(Egress, 0, (s[10].ts + WINDOW) % TWO64);
      LateTick(s[10].ts);
      var ts := [t];
      assert EgressCrosses(s, ts);
    }
  }

  lemma LateTick(ts: u64)
    ensures Sub64((ts + WINDOW) % TWO64, ts) == WINDOW
  {
  }

  // ---- isolation of the two directions ----

  /** The ten slots of a direction, its bookkeeping slot first. */
  function Block(s: Stats, d: Direction): (r: seq<NetStat>)
    ensures |r| == 10
  {
    s[Base(d)..Base(d) + 10]
  }

  function OfDirection(ts: seq<Tick>, d: Direction): seq<Tick> {
    if ts == [] then [] else (if ts[0].dir == d then [ts[0]] else []) + OfDirection(ts[1..], d)
  }

  lemma {:induction false} SameBlockSameSum(s: Stats, s': Stats, d: Direction, now: u64, n: nat)
    requires n <= 9 && Block(s, d) == Block(s', d)
    ensures RecentSum(s', d, now, n) == RecentSum(s, d, now, n)
  {
    if n > 0 {
      assert s[Base(d) + n - 1] == Block(s, d)[n - 1] && s'[Base(d) + n - 1] == Block(s', d)[n - 1];
      SameBlockSameSum(s, s', d, now, n - 1);
    }
  }

  lemma SettledWritesOwnBlock(s: Stats, t: Tick)
    requires RingOk(s) && Settled(s, t.dir) && !(t.dir == Ingress && LateWrap(s, t))
    ensures Block(Count(s, t.dir, t.len, t.now).0, Other(t.dir)) == Block(s, Other(t.dir))
  {
    TickFootprint(s, t);
  }

  /** What a packet does to its own block depends on that block only, wherever its sample goes. */
  lemma CountIsLocal(s: Stats, s': Stats, t: Tick)
    requires Block(s, t.dir) == Block(s', t.dir)
    ensures Block(Count(s, t.dir, t.len, t.now).0, t.dir) == Block(Count(s', t.dir, t.len, t.now).0, t.dir)
  {
    var m := Base(t.dir);
    forall k | m <= k < m + 10 ensures s[k] == s'[k] {
      assert s[k] == Block(s, t.dir)[k - m] && s'[k] == Block(s', t.dir)[k - m];
    }
  }

  /** However the two directions interleave, a direction's block goes through what its own packets alone make of
      it, as long as the other direction is settled and, if that is ingress, wraps promptly. */
  lemma {:induction false} BlockProjection(s: Stats, r: Stats, ts: seq<Tick>, d: Direction)
    requires RingOk(s) && Settled(s, Other(d)) && (d == Egress ==> PromptIngress(s, ts))
    requires Block(s, d) == Block(r, d)
    ensures Block(Run(s, ts), d) == Block(Run(r, OfDirection(ts, d)), d)
    decreases ts
  {
    if ts != [] {
      var t, rest := ts[0], OfDirection(ts[1..], d);
      var s' := Count(s, t.dir, t.len, t.now).0;
      OtherStaysSettled(s, t, d);
      if t.dir == d {
        CountIsLocal(s, r, t);
        BlockProjection(s', Count(r, t.dir, t.len, t.now).0, ts[1..], d);
        assert ([t] + rest)[1..] == rest;
      } else {
        SettledWritesOwnBlock(s, t);
        BlockProjection(s', r, ts[1..], d);
        assert OfDirection(ts, d) == rest;
      }
    }
  }

  lemma OtherStaysSettled(s: Stats, t: Tick, d: Direction)
    requires RingOk(s) && Settled(s, Other(d)) && !(d == Egress && t.dir == Ingress && LateWrap(s, t))
    ensures var s' := Count(s, t.dir, t.len, t.now).0; RingOk(s') && Settled(s', Other(d))
  {
    TickFootprint(s, t);
    if t.dir == Other(d) { LeavesRangeExactly(s, t); }
  }

  /** The average of a direction is, at any time, the one its own packets alone would have given. */
  lemma AveragesIsolated(s: Stats, ts: seq<Tick>, d: Direction, now: u64)
    requires RingOk(s) && Settled(s, Other(d)) && (d == Egress ==> PromptIngress(s, ts))
    ensures Average(Run(s, ts), d, now) == Average(Run(s, OfDirection(ts, d)), d, now)
  {
    BlockProjection(s, s, ts, d);
    SameBlockSameSum(Run(s, ts), Run(s, OfDirection(ts, d)), d, now, 9);
  }

  /** The plain sum of the first slots of a direction that were written less than a second ago. */
  function PlainSum(s: Stats, d: Direction, now: u64, n: nat): nat
    requires n <= 9
  {
    if n == 0 then 0
    else
      var x := s[Base(d) + n - 1];
      PlainSum(s, d, now, n - 1) + if (now - x.ts) % TWO64 < 1_000_000_000 then x.val else 0
  }

  /** Without a wrap in the sum, nine times the average is the sum of the slots younger than a second, up to
      the division; the open window's bytes, in the bookkeeping slot, are one of the nine. */
  lemma {:induction false} AverageOfNine(s: Stats, d: Direction, now: u64)
    requires PlainSum(s, d, now, 9) < TWO64
    ensures 9 * Average(s, d, now) <= PlainSum(s, d, now, 9) < 9 * Average(s, d, now) + 9
    ensures s[Base(d)].ts <= now < s[Base(d)].ts + 1_000_000_000 ==> PlainSum(s, d, now, 9) >= s[Base(d)].val
  {
    SumDoesNotWrap(s, d, now, 9);
  }

  lemma {:induction false} SumDoesNotWrap(s: Stats, d: Direction, now: u64, n: nat)
    requires n <= 9 && PlainSum(s, d, now, n) < TWO64
    ensures RecentSum(s, d, now, n) == PlainSum(s, d, now, n)
    ensures n > 0 && s[Base(d)].ts <= now < s[Base(d)].ts + 1_000_000_000 ==> PlainSum(s, d, now, n) >= s[Base(d)].val
  {
    if n > 0 { SumDoesNotWrap(s, d, now, n - 1); }
  }

  // ---- conservation ----

  function Pending(s: Stats, d: Direction): u64 { s[Base(d)].val }

  function Offered(ts: seq<Tick>, d: Direction): nat {
    if ts == [] then 0 else (if ts[0].dir == d then ts[0].len else 0) + Offered(ts[1..], d)
  }

  /** Bytes, and nanoseconds, of the windows a direction closes during a run. */
  function ClosedBytes(s: Stats, ts: seq<Tick>, d: Direction): nat
    decreases ts
  {
    if ts == [] then 0
    else
      var (s', w) := Count(s, ts[0].dir, ts[0].len, ts[0].now);
      (if ts[0].dir == d && w.Closed? then w.bytes else 0) + ClosedBytes(s', ts[1..], d)
  }

  function ClosedSpan(s: Stats, ts: seq<Tick>, d: Direction): nat
    decreases ts
  {
    if ts == [] then 0
    else
      var (s', w) := Count(s, ts[0].dir, ts[0].len, ts[0].now);
      (if ts[0].dir == d && w.Closed? then w.span else 0) + ClosedSpan(s', ts[1..], d)
  }

  /** Every byte is in exactly one closed window or still pending, index wraps included, however the
      two directions interleave. */
  lemma {:induction false} BytesConserved(s: Stats, ts: seq<Tick>, d: Direction)
    requires RingOk(s) && Pending(s, d) + Offered(ts, d) < TWO64
    ensures Pending(s, d) + Offered(ts, d) == ClosedBytes(s, ts, d) + Pending(Run(s, ts), d)
    decreases ts
  {
    if ts != [] {
      TickFootprint(s, ts[0]);
      BytesConserved(Count(s, ts[0].dir, ts[0].len, ts[0].now).0, ts[1..], d);
    }
  }

  /** Nanoseconds a direction passes over: a wrap moves the start of a window that stays open. */
  function SkippedSpan(s: Stats, ts: seq<Tick>, d: Direction): nat
    decreases ts
  {
    if ts == [] then 0
    else
      var (s', w) := Count(s, ts[0].dir, ts[0].len, ts[0].now);
      (if ts[0].dir == d && w.Open? && s[Base(d)].index % 10 == 0 then Sub64(ts[0].now, s[Base(d)].ts) else 0)
      + SkippedSpan(s', ts[1..], d)
  }

  /** Every nanosecond is in exactly one closed window, passed over at a wrap, or since the start of the open
      window. */
  lemma {:induction false} TimeConserved(s: Stats, ts: seq<Tick>, d: Direction)
    requires RingOk(s) && Ordered(ts) && (ts != [] ==> s[Base(d)].ts <= ts[0].now)
    ensures s[Base(d)].ts + ClosedSpan(s, ts, d) + SkippedSpan(s, ts, d) == Run(s, ts)[Base(d)].ts
    decreases ts
  {
    if ts != [] {
      TickFootprint(s, ts[0]);
      Bookkeeping(s, ts[0]);
      TimeConserved(Count(s, ts[0].dir, ts[0].len, ts[0].now).0, ts[1..], d);
    }
  }

  /** The slots a direction's windows close into, in order. */
  function ClosedSlots(s: Stats, ts: seq<Tick>, d: Direction): seq<u32>
    decreases ts
  {
    if ts == [] then []
    else
      var (s', w) := Count(s, ts[0].dir, ts[0].len, ts[0].now);
      (if ts[0].dir == d && w.Closed? then [w.slot] else []) + ClosedSlots(s', ts[1..], d)
  }

  ghost predicate NoLateWrap(s: Stats, ts: seq<Tick>, d: Direction)
    decreases ts
  {
    ts == [] ||
    (!(ts[0].dir == d && LateWrap(s, ts[0])) && NoLateWrap(Count(s, ts[0].dir, ts[0].len, ts[0].now).0, ts[1..], d))
  }

  /** The slot the k-th window from here closes into. */
  function Turn(d: Direction, index: u64, k: nat): int { Base(d) + 1 + (index - Base(d) - 1 + k) % 9 }

  lemma TurnStep(d: Direction, index: u64, k: nat)
    requires Base(d) < index < MAX64
    ensures Turn(d, index, k + 1) == Turn(d, index + 1, k)
    ensures Turn(d, Base(d) + 10, k) == Turn(d, Base(d) + 1, k)
  {
    assert (9 + k) % 9 == k % 9;
  }

  lemma SettledStep(s: Stats, t: Tick, d: Direction)
    requires RingOk(s) && Settled(s, d) && !(t.dir == d && LateWrap(s, t))
    ensures var (s', w) := Count(s, t.dir, t.len, t.now);
      var i, i' := s[Base(d)].index, s'[Base(d)].index;
      && RingOk(s') && Settled(s', d)
      && if t.dir == d && w.Closed? then w.slot == Turn(d, i, 0) && i' == i + 1
         else i' == i || (i == Base(d) + 10 && i' == Base(d) + 1)
  {
    TickFootprint(s, t);
    if t.dir == d { Bookkeeping(s, t); }
  }

  ghost predicate InTurn(slots: seq<u32>, d: Direction, index: u64) {
    forall k :: 0 <= k < |slots| ==> slots[k] == Turn(d, index, k)
  }

  lemma InTurnCons(slot: u32, rest: seq<u32>, d: Direction, index: u64)
    requires Base(d) < index < MAX64 && slot == Turn(d, index, 0) && InTurn(rest, d, index + 1)
    ensures InTurn([slot] + rest, d, index)
  {
    forall k | 0 < k < |rest| + 1 ensures ([slot] + rest)[k] == Turn(d, index, k) {
      TurnStep(d, index, k - 1);
    }
  }

  lemma InTurnWraps(slots: seq<u32>, d: Direction)
    requires InTurn(slots, d, Base(d) + 1)
    ensures InTurn(slots, d, Base(d) + 10)
  {
    forall k | 0 <= k < |slots| ensures slots[k] == Turn(d, Base(d) + 10, k) {
      TurnStep(d, Base(d) + 1, k);
    }
  }

  /** A settled direction without late wraps fills its nine sample slots in turn. */
  lemma {:induction false} SlotsInTurn(s: Stats, ts: seq<Tick>, d: Direction)
    requires RingOk(s) && Settled(s, d) && NoLateWrap(s, ts, d)
    ensures InTurn(ClosedSlots(s, ts, d), d, s[Base(d)].index)
    decreases ts
  {
    if ts != [] {
      var (s', w) := Count(s, ts[0].dir, ts[0].len, ts[0].now);
      SettledStep(s, ts[0], d);
      SlotsInTurn(s', ts[1..], d);
      var rest := ClosedSlots(s', ts[1..], d);
      if ts[0].dir == d && w.Closed? {
        InTurnCons(w.slot, rest, d, s[Base(d)].index);
      } else {
        assert ClosedSlots(s, ts, d) == rest;
        if s'[Base(d)].index != s[Base(d)].index { InTurnWraps(rest, d); }
      }
    }
  }

  /** Closed windows do not overlap: their lengths add up to no more than the time gone by. */
  lemma {:induction false} WindowsDisjoint(s: Stats, ts: seq<Tick>, d: Direction)
    requires RingOk(s) && Ordered(ts) && (ts != [] ==> s[Base(d)].ts <= ts[0].now)
    ensures s[Base(d)].ts + ClosedSpan(s, ts, d) <= Run(s, ts)[Base(d)].ts
    ensures ts != [] ==> Run(s, ts)[Base(d)].ts <= ts[|ts| - 1].now
    decreases ts
  {
    if ts != [] {
      TickFootprint(s, ts[0]);
      WindowsDisjoint(Count(s, ts[0].dir, ts[0].len, ts[0].now).0, ts[1..], d);
    }
  }

  /** A window closes exactly when it has lasted 100 ms; up to 300 ms its rate is its true byte rate
      rounded down, past that it is zero. */
  lemma RateIsTrue(s: Stats, t: Tick)
    ensures var w, span := Count(s, t.dir, t.len, t.now).1, Sub64(t.now, s[Base(t.dir)].ts);
      && (w.Closed? <==> span >= WINDOW)
      && (w.Closed? ==> w.span == span)
      && (w.Closed? && span > STALE ==> w.rate == 0)
      && (w.Closed? && span <= STALE && w.bytes * NSEC_PER_SEC < TWO64 ==>
           w.rate * span <= w.bytes * NSEC_PER_SEC < (w.rate + 1) * span)
  {
    var w := Count(s, t.dir, t.len, t.now).1;
    if w.Closed? && w.span <= STALE && w.bytes * NSEC_PER_SEC < TWO64 {
      Mul64Facts(w.bytes, NSEC_PER_SEC);
      Div64Facts(w.bytes * NSEC_PER_SEC, w.span);
    }
  }
}
