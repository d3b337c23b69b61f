/** Go's fixed-width unsigned integers over Dafny's unbounded `int`, and the
    truncating conversions (`byte(x)`, `uint32(x)`) Go performs on them. */
module Ints {

  type uint8 = x: int | 0 <= x < 0x100
  type uint16 = x: int | 0 <= x < 0x1_0000
  type uint32 = x: int | 0 <= x < 0x1_0000_0000
  type uint64 = x: int | 0 <= x < 0x1_0000_0000_0000_0000

  /** Go's `math.MaxUint32`. */
  const MaxUint32: uint32 := 0xFFFF_FFFF

  /** 256 to the power `n`: the number of values `n` bytes can hold. */
  function Pow256(n: nat): (r: nat)
    ensures r >= 1
  {
    if n == 0 then 1 else 256 * Pow256(n - 1)
  }

  /** Go's conversion of a (two's complement) integer to `byte`: keeps the low 8 bits. */
  function ToUint8(x: int): (r: uint8)
    ensures 0 <= x < 0x100 ==> r == x
    ensures (x - r) % 0x100 == 0
  {
    x % 0x100
  }

  /** Go's conversion of a (two's complement) integer to `uint32`: keeps the low 32 bits. */
  function ToUint32(x: int): (r: uint32)
    ensures 0 <= x < 0x1_0000_0000 ==> r == x
    ensures (x - r) % 0x1_0000_0000 == 0
  {
    x % 0x1_0000_0000
  }

  /** Go's conversion of a (two's complement) integer to `uint`: keeps the low 64 bits. */
  function ToUint64(x: int): (r: uint64)
    ensures 0 <= x < 0x1_0000_0000_0000_0000 ==> r == x
    ensures (x - r) % 0x1_0000_0000_0000_0000 == 0
  {
    x % 0x1_0000_0000_0000_0000
  }

  /** A sequence of `n` zero bytes, Go's `make([]byte, n)`. */
  function Zeros(n: nat): (r: seq<uint8>)
    ensures |r| == n
    ensures forall i :: 0 <= i < n ==> r[i] == 0
  {
    seq(n, i => 0)
  }

  /** Quotient and remainder are determined by `v == d * q + m` with `m < d`. */
  lemma DivUnique(v: nat, d: nat, q: nat, m: nat)
    requires d > 0 && m < d && v == d * q + m
    ensures v / d == q && v % d == m
  {
    var k := v / d - q;
    assert d * (v / d) + v % d == d * q + m;
    assert d * k == m - v % d;
    MulAwayFromZero(d, k);
  }

  lemma MulAwayFromZero(d: nat, k: int)
    requires d > 0
    ensures k >= 1 ==> d * k >= d
    ensures k <= -1 ==> d * k <= -(d as int)
  {
    if k >= 1 {
      assert d * k == d * (k - 1) + d;
    } else if k <= -1 {
      assert d * k == d * (k + 1) - d;
    }
  }
}
