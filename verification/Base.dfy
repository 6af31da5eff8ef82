/** Return codes, key names and the modular arithmetic shared by the wrapping buffers. */
module Codes {
  const SLS_OK: int := 0
  const SLS_ERROR: int := -0x100_0000

  /** Names a stream, a player key or a kind of log line. */
  type Key = string
}

module WrapArithmetic {

  newtype Byte = b: int | 0 <= b < 256

  function Min(a: int, b: int): int { if a <= b then a else b }

  /** Where the n-th byte of a stream lands in a buffer of `size` bytes. */
  function Wrap(n: nat, size: nat): (p: nat)
    ensures size > 0 ==> p < size
  {
    if size == 0 then 0 else n % size
  }

  lemma MultipleIsFar(k: int, size: int)
    requires size > 0
    ensures k > 0 ==> k * size >= size
    ensures k < 0 ==> k * size <= -size
  {
  }

  lemma DivModUnique(n: int, q: int, r: int, size: int)
    requires size > 0 && n == q * size + r && 0 <= r < size
    ensures n % size == r
  {
    var k := n / size - q;
    MultipleIsFar(k, size);
    assert k * size == r - n % size;
  }

  lemma QuotientBound(k: int, size: int, n: int)
    requires size > 0 && size * k <= n
    ensures k <= n / size
  {
    var q := n / size;
    MultipleIsFar(k - q, size);
    assert n == size * q + n % size;
    assert size * k == size * q + (k - q) * size;
  }

  /** Advancing by at most one lap moves the position without a division. */
  lemma WrapAdvance(n: nat, k: nat, size: nat)
    requires 0 < size && k <= size
    ensures Wrap(n + k, size) ==
            if Wrap(n, size) + k < size then Wrap(n, size) + k else Wrap(n, size) + k - size
  {
    var q, r := n / size, n % size;
    assert n == q * size + r;
    if r + k < size {
      DivModUnique(n + k, q, r + k, size);
    } else {
      assert (q + 1) * size == q * size + size;
      DivModUnique(n + k, q + 1, r + k - size, size);
    }
  }

  /** Two stream offsets less than a lap apart never share a position. */
  lemma WrapInjective(a: nat, b: nat, size: nat)
    requires a < b < a + size
    ensures Wrap(a, size) != Wrap(b, size)
  {
    WrapAdvance(a, b - a, size);
  }

  /** `n` rounded down to a whole number of `unit`-sized packets (no rounding if unit <= 0). */
  function AlignDown(n: nat, unit: int): (r: nat)
    ensures r <= n
    ensures unit <= 0 ==> r == n
    ensures unit > 0 ==> r % unit == 0 && n - r < unit
  {
    if unit <= 0 then n
    else
      assert n == n / unit * unit + n % unit;
      DivModUnique(n / unit * unit, n / unit, 0, unit);
      n / unit * unit
  }
}
