/** Unsigned machine words as the BPF target and Go compute with them: addition,
    subtraction and multiplication wrap, and a BPF division by zero yields 0. */
module Words {

  const TWO64: int := 0x1_0000_0000_0000_0000
  const MAX64: u64 := 0xFFFF_FFFF_FFFF_FFFF
  const NSEC_PER_SEC: u64 := 1_000_000_000
  const NSEC_PER_MSEC: u64 := 1_000_000
  const MEGABYTE: u64 := 1_000_000
  const T_HORIZON_DROP: u64 := 2_000_000_000

  type u64 = x: int | 0 <= x < 0x1_0000_0000_0000_0000
  type u32 = x: int | 0 <= x < 0x1_0000_0000

  function Add64(a: u64, b: u64): (r: u64)
    ensures r <= a + b
    ensures r == a + b <==> a + b < TWO64
  {
    (a + b) % TWO64
  }

  function Sub64(a: u64, b: u64): (r: u64)
    ensures r == a - b <==> b <= a
  {
    (a - b) % TWO64
  }

  function Mul64(a: u64, b: u64): u64 { (a * b) % TWO64 }

  lemma Mul64Facts(a: u64, b: u64)
    ensures Mul64(a, b) <= a * b
    ensures Mul64(a, b) == a * b <==> a * b < TWO64
  {
    assert a * b >= 0;
  }

  /** Division as the BPF instruction set defines it. */
  function Div64(a: u64, b: u64): u64 {
    if b == 0 then 0 else
      QuotientBounds(a, b);
      a / b
  }

  lemma Div64Facts(a: u64, b: u64)
    requires b != 0
    ensures Div64(a, b) * b <= a < (Div64(a, b) + 1) * b
  {
    QuotientBounds(a, b);
  }

  lemma QuotientBounds(a: nat, b: nat)
    requires b != 0
    ensures 0 <= a / b <= a
    ensures (a / b) * b <= a < (a / b + 1) * b
  {
    var q, r := a / b, a % b;
    assert a == b * q + r;
    assert 0 <= q;
    MulMono(q, 1, b);
  }

  lemma MulMono(a: nat, x: int, y: int)
    requires x <= y
    ensures a * x <= a * y
  {
  }

  lemma MulDist(a: int, x: int, y: int)
    ensures a * x + a * y == a * (x + y)
  {
  }

  lemma OneMore(n: nat, d: nat)
    ensures (n + 1) * d == n * d + d && n * d >= 0
  {
  }

  function Min(a: int, b: int): int { if a <= b then a else b }

  function Max(a: int, b: int): int { if a <= b then b else a }
}
