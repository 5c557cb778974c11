/** The configuration the control plane accepts and hands to the controller: pkg/types/config.go and
    `WriteGlobalConfig`. Arithmetic is uint64 and wraps. */
module GlobalConfigs {

  import opened Words
  import opened Controller

  /** The fields of types.GlobalConfig. */
  datatype Config = Config(
    hwGuaranteed: u64, hwBurstable: u64, l0Max: u64, l0Min: u64,
    l1Max: u64, l1Min: u64, l2Max: u64, l2Min: u64)

  function Defaulted(c: Config): Config {
    var burst := if c.hwGuaranteed != 0 && c.hwBurstable == 0 then c.hwGuaranteed else c.hwBurstable;
    var l0Max := if c.l0Max == 0 then c.hwGuaranteed else c.l0Max;
    var l0Min := if c.l0Min == 0 then Sub64(Sub64(c.hwGuaranteed, c.l1Min), c.l2Min) else c.l0Min;
    c.(hwBurstable := burst, l0Max := l0Max, l0Min := l0Min)
  }

  predicate Accepted(c: Config) {
    (c.hwBurstable == 0 && c.l0Max == 0 && c.l0Min == 0 && c.l1Max == 0 && c.l1Min == 0 && c.l2Max == 0 && c.l2Min == 0)
    ||
    (&& c.hwGuaranteed <= c.hwBurstable
     && c.l1Max <= c.hwGuaranteed
     && c.l2Max <= c.hwGuaranteed
     && c.l1Min <= c.l1Max
     && c.l2Min <= c.l2Max
     && Add64(c.l2Max, c.l1Max) <= c.hwGuaranteed)
  }

  /** What WriteGlobalConfig puts in the map for an accepted configuration. */
  function Written(c: Config): GlobalCfg {
    GlobalCfg(500_000_000, c.hwGuaranteed, 0, Sub64(Sub64(c.hwGuaranteed, c.l1Min), c.l2Min), 0,
              c.l1Min, c.l1Max, c.l2Min, c.l2Max)
  }

  class GlobalConfig {
    var hwGuaranteed: u64
    var hwBurstableBps: u64
    var l0MaxBps: u64
    var l0MinBps: u64
    var l1MaxBps: u64
    var l1MinBps: u64
    var l2MaxBps: u64
    var l2MinBps: u64

    constructor (c: Config)
      ensures State() == c
    {
      hwGuaranteed, hwBurstableBps, l0MaxBps, l0MinBps := c.hwGuaranteed, c.hwBurstable, c.l0Max, c.l0Min;
      l1MaxBps, l1MinBps, l2MaxBps, l2MinBps := c.l1Max, c.l1Min, c.l2Max, c.l2Min;
    }

    function State(): Config reads this {
      Config(hwGuaranteed, hwBurstableBps, l0MaxBps, l0MinBps, l1MaxBps, l1MinBps, l2MaxBps, l2MinBps)
    }

    method Default()
      modifies this
      ensures State() == Defaulted(old(State()))
    {
      if hwGuaranteed != 0 && hwBurstableBps == 0 {
        hwBurstableBps := hwGuaranteed;
      }
      if l0MaxBps == 0 {
        l0MaxBps := hwGuaranteed;
      }
      if l0MinBps == 0 {
        l0MinBps := Sub64(Sub64(hwGuaranteed, l1MinBps), l2MinBps);
      }
    }

    method Validate() returns (ok: bool)
      ensures ok == Accepted(State())
    {
      if hwBurstableBps == 0 && l0MaxBps == 0 && l0MinBps == 0 && l1MaxBps == 0 && l1MinBps == 0
         && l2MaxBps == 0 && l2MinBps == 0 {
        return true;
      }
      if hwGuaranteed > hwBurstableBps
         || hwGuaranteed < l1MaxBps
         || hwGuaranteed < l2MaxBps
         || l1MinBps > l1MaxBps
         || l2MinBps > l2MaxBps
         || hwGuaranteed < Add64(l2MaxBps, l1MaxBps) {
        return false;
      }
      return true;
    }
  }

  /** The two entries of terway_global_cfg; an array map, so lookups always succeed. */
  class GlobalCfgMap {
    var ingress: GlobalCfg
    var egress: GlobalCfg

    constructor ()
      ensures ingress == egress == GlobalCfg(0, 0, 0, 0, 0, 0, 0, 0, 0)
    {
      ingress := GlobalCfg(0, 0, 0, 0, 0, 0, 0, 0, 0);
      egress := GlobalCfg(0, 0, 0, 0, 0, 0, 0, 0, 0);
    }

    /** Both directions are written, or neither: an invalid one leaves the map as it was. The
        arguments are defaulted in place; passing one object twice is the same as passing two equal ones. */
    method WriteGlobalConfig(inCfg: GlobalConfig, outCfg: GlobalConfig) returns (ok: bool)
      modifies this, inCfg, outCfg
      ensures var i, e := Defaulted(old(inCfg.State())), Defaulted(old(outCfg.State()));
        && ok == (Accepted(i) && Accepted(e))
        && inCfg.State() == i
        && (Accepted(i) ==> outCfg.State() == e)
        && ingress == (if ok then Written(i) else old(ingress))
        && egress == (if ok then Written(e) else old(egress))
    {
      DefaultTwice(inCfg.State());
      inCfg.Default();
      ok := inCfg.Validate();
      if !ok {
        return;
      }
      outCfg.Default();
      ok := outCfg.Validate();
      if !ok {
        return;
      }
      var inNew := Written(inCfg.State());
      var outNew := Written(outCfg.State());
      if ingress != inNew {
        ingress := inNew;
      }
      if egress != outNew {
        egress := outNew;
      }
    }
  }

  lemma DefaultTwice(c: Config)
    ensures Defaulted(Defaulted(c)) == Defaulted(c)
  {
  }

  // ---- the bounds the controller gets ----

  /** The floor of L0 is what README promises, `hw - l1Min - l2Min` without a wrap; the three floors
      share out the hardware limit exactly; and in whole megabytes each floor is at most its ceiling
      and the floors fit under the hardware limit. */
  ghost predicate Sound(w: GlobalCfg) {
    && w.l1Min + w.l2Min <= w.hwMin
    && w.l0Min + w.l1Min + w.l2Min == w.hwMin
    && WellFormed(w)
    && Mb(w.l0Min) + Mb(w.l1Min) + Mb(w.l2Min) <= Mb(w.hwMin)
    && Mb(w.l1Max) + Mb(w.l2Max) <= Mb(w.hwMin)
  }

  lemma SoundBelow63Bits(c: Config)
    requires c.hwGuaranteed < 0x8000_0000_0000_0000 && Accepted(Defaulted(c))
    ensures Sound(Written(Defaulted(c)))
  {
    var d := Defaulted(c);
    assert d.l1Min <= d.l1Max && d.l2Min <= d.l2Max;
    assert Add64(d.l2Max, d.l1Max) == d.l2Max + d.l1Max;
    assert d.l1Max + d.l2Max <= d.hwGuaranteed;
    assert Sub64(d.hwGuaranteed, d.l1Min) == d.hwGuaranteed - d.l1Min;
  }

  /** What is set is kept; what is not is filled in from the hardware limit: the burst limit and L0's maximum are it,
      L0's minimum is what the other two minima leave of it. */
  lemma DefaultFillsIn(c: Config)
    ensures var d := Defaulted(c);
      && d.hwGuaranteed == c.hwGuaranteed
      && d.l1Max == c.l1Max && d.l1Min == c.l1Min && d.l2Max == c.l2Max && d.l2Min == c.l2Min
      && d.hwBurstable == (if c.hwBurstable != 0 then c.hwBurstable else c.hwGuaranteed)
      && d.l0Max == (if c.l0Max != 0 then c.l0Max else c.hwGuaranteed)
      && (c.l0Min != 0 ==> d.l0Min == c.l0Min)
      && (c.l0Min == 0 && c.l1Min + c.l2Min <= c.hwGuaranteed ==> d.l0Min == c.hwGuaranteed - c.l1Min - c.l2Min)
  {
    if c.l1Min + c.l2Min <= c.hwGuaranteed {
      assert Sub64(c.hwGuaranteed, c.l1Min) == c.hwGuaranteed - c.l1Min;
    }
  }

  /** Each class gets its own limits, and L1 and L2 the ones configured for them; of L0's limits only the minimum
      is passed on, computed from the others. */
  lemma WrittenKeepsClasses(c: Config)
    ensures var w := Written(Defaulted(c));
      && w.hwMin == c.hwGuaranteed
      && w.l1Min == c.l1Min && w.l1Max == c.l1Max && w.l2Min == c.l2Min && w.l2Max == c.l2Max
      && (c.l1Min + c.l2Min <= c.hwGuaranteed ==> w.l0Min == c.hwGuaranteed - c.l1Min - c.l2Min)
      && w.interval == 500_000_000 && w.hwMax == 0 && w.l0Max == 0
  {
    if c.l1Min + c.l2Min <= c.hwGuaranteed {
      assert Sub64(c.hwGuaranteed, c.l1Min) == c.hwGuaranteed - c.l1Min;
    }
  }

  /** Which configurations without a burst limit, as text gives them, are accepted: those whose minima are at most
      their maxima and whose maxima fit the hardware limit together, or add up past 2^64. What is configured for L0
      does not matter. */
  lemma AcceptedExactly(c: Config)
    requires c.hwBurstable == 0 && 0 < c.hwGuaranteed
    ensures Accepted(Defaulted(c)) <==>
      && c.l1Min <= c.l1Max <= c.hwGuaranteed && c.l2Min <= c.l2Max <= c.hwGuaranteed
      && (c.l1Max + c.l2Max <= c.hwGuaranteed || TWO64 <= c.l1Max + c.l2Max)
  {
    if TWO64 <= c.l1Max + c.l2Max { assert Add64(c.l2Max, c.l1Max) == c.l2Max + c.l1Max - TWO64; }
  }

  /** Without a hardware limit everything must be zero, and no limit at all is accepted. */
  lemma AcceptedWithoutHardware(c: Config)
    requires c.hwBurstable == 0 && c.hwGuaranteed == 0
    ensures Accepted(Defaulted(c)) <==>
      c.l1Min == 0 && c.l1Max == 0 && c.l2Min == 0 && c.l2Max == 0
  {
  }

  /** For a given hardware limit, validation is enough exactly when that limit is below 2^63: from there
      on the sum of the two maxima may wrap and slip through. */
  lemma SoundExactly(hw: u64)
    ensures (forall c: Config :: c.hwGuaranteed == hw && Accepted(Defaulted(c)) ==> Sound(Written(Defaulted(c))))
        <==> hw < 0x8000_0000_0000_0000
  {
    if hw < 0x8000_0000_0000_0000 {
      forall c: Config | c.hwGuaranteed == hw && Accepted(Defaulted(c)) ensures Sound(Written(Defaulted(c))) {
        SoundBelow63Bits(c);
      }
    } else {
      SlipsThrough(hw);
    }
  }

  /** Both classes given the whole hardware limit as floor and ceiling. */
  function WholeTwice(hw: u64): Config { Config(hw, hw, hw, 1, hw, hw, hw, hw) }

  lemma SlipsThrough(hw: u64)
    requires hw >= 0x8000_0000_0000_0000
    ensures var c := WholeTwice(hw);
      c.hwGuaranteed == hw && Accepted(Defaulted(c)) && !Sound(Written(Defaulted(c)))
  {
    assert Add64(hw, hw) == hw + hw - TWO64;
  }

  /** Contention, from text limits to limits in force: with an accepted configuration the controller ends
      on floors that together fit under the hardware limit. */
  lemma ContentionEndsWithinHardware(c: Config, lim: Limits, avgs: seq<u64>, d: nat)
    requires c.hwGuaranteed < 0x8000_0000_0000_0000 && Accepted(Defaulted(c))
    requires var w := Written(Defaulted(c));
      d >= 1 && Contended(w, avgs, d) && Excess(w, lim) < |avgs| * d
    ensures var w := Written(Defaulted(c));
      var r := RebalanceAll(w, lim, avgs);
      r == Floors(w) && InBox(w, r) && r.l0 + r.l1 + r.l2 <= c.hwGuaranteed
  {
    var w := Written(Defaulted(c));
    SoundBelow63Bits(c);
    ContentionConverges(w, lim, avgs, d);
    FloorsInBox(w);
  }

  lemma FloorsInBox(w: GlobalCfg)
    requires Sound(w)
    ensures InBox(w, Floors(w)) && Floors(w).l0 + Floors(w).l1 + Floors(w).l2 <= w.hwMin
  {
  }
}
