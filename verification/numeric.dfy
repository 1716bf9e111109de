/** Fixed-width unsigned integers of the Rust code and the wrapping arithmetic it relies on. */
module Numeric {

  const U16_LIMIT: int := 0x1_0000
  const U32_LIMIT: int := 0x1_0000_0000
  const U64_LIMIT: int := 0x1_0000_0000_0000_0000

  type U16 = x: int | 0 <= x < U16_LIMIT
  type U32 = x: int | 0 <= x < U32_LIMIT
  type U64 = x: int | 0 <= x < U64_LIMIT

  /** `a - b` on `u64` as a release build computes it: modulo 2^64. */
  function WrappingSub(a: U64, b: U64): (r: U64)
    ensures (r + b) % U64_LIMIT == a
    ensures b <= a ==> r == a - b
    ensures a < b ==> r >= U64_LIMIT - b
  {
    if b <= a then a - b else a - b + U64_LIMIT
  }

  /** 2^n as an unbounded natural number. */
  function Pow2(n: nat): (r: nat)
    ensures r >= 1
  {
    if n == 0 then 1 else 2 * Pow2(n - 1)
  }

  /** `2_u64.pow(n)` in a release build: the power wrapped modulo 2^64. */
  function WrappingPow2(n: nat): (r: U64)
    ensures n < 64 ==> r == Pow2(n)
  {
    if n < 64 then
      Pow2Below64(n);
      Pow2(n) % U64_LIMIT
    else
      Pow2(n) % U64_LIMIT
  }

  lemma {:induction false} Pow2Add(m: nat, n: nat)
    ensures Pow2(m + n) == Pow2(m) * Pow2(n)
  {
    if n > 0 {
      Pow2Add(m, n - 1);
    }
  }

  lemma Pow2Of64()
    ensures Pow2(64) == U64_LIMIT
  {
    assert Pow2(4) == 16;
    Pow2Add(4, 4);
    assert Pow2(8) == 0x100;
    Pow2Add(8, 8);
    assert Pow2(16) == 0x1_0000;
    Pow2Add(16, 16);
    assert Pow2(32) == 0x1_0000_0000;
    Pow2Add(32, 32);
  }

  lemma {:induction false} Pow2Monotone(m: nat, n: nat)
    requires m <= n
    ensures Pow2(m) <= Pow2(n)
  {
    if m < n {
      Pow2Monotone(m, n - 1);
    }
  }

  lemma Pow2Below64(n: nat)
    requires n < 64
    ensures Pow2(n) < U64_LIMIT
  {
    Pow2Monotone(n, 63);
    Pow2Of64();
  }
}
