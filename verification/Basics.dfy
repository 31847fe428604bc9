/** Shared vocabulary: optional values and Go's 64-bit signed integers. */
module Basics {

  datatype Option<+T> = None | Some(value: T)

  const TWO64: int := 0x1_0000_0000_0000_0000
  const MAX64: int := 0x7fff_ffff_ffff_ffff
  const MIN64: int := -0x8000_0000_0000_0000

  /** A Go int, or a time.Duration in nanoseconds. */
  type Int64 = x: int | MIN64 <= x <= MAX64

  /** The int64 a Go addition or multiplication leaves behind for the exact result x. */
  function Wrap(x: int): (r: Int64)
    ensures r == x <==> MIN64 <= x <= MAX64
  {
    (x - MIN64) % TWO64 + MIN64
  }

  /** Wrapping after every addition is the same as wrapping once at the end. */
  lemma WrapAdd(a: int, b: int)
    ensures Wrap(Wrap(a) + b) == Wrap(a + b)
  {
    var q, p := (a - MIN64) / TWO64, (a + b - MIN64) / TWO64;
    assert Wrap(a) == a - q * TWO64;
    WrapIs(a + b, p);
    WrapIs(Wrap(a) + b, p - q);
  }

  /** Wrapping takes away the one multiple of 2^64 that leaves an int64. */
  lemma WrapIs(x: int, q: int)
    requires MIN64 <= x - q * TWO64 <= MAX64
    ensures Wrap(x) == x - q * TWO64
  {
  }

  lemma OneMore(k: int, w: int)
    ensures (k + 1) * w == k * w + w
  {
  }

  lemma Quotient(a: nat, w: int)
    requires w > 0
    ensures a / w * w <= a < (a / w + 1) * w
  {
    OneMore(a / w, w);
  }

  lemma Scaled(a: int, b: int, w: int)
    requires a <= b && w >= 0
    ensures a * w <= b * w
  {
  }

  /** The fewest multiples of w that exceed a. */
  lemma RoundedUp(a: nat, b: int, w: int) returns (h: nat)
    requires w > 0 && a < b * w
    ensures 1 <= h <= b && (h - 1) * w <= a < h * w
  {
    h := a / w + 1;
    Quotient(a, w);
    if h > b {
      Scaled(b, h - 1, w);
    }
  }

  function Min(a: int, b: int): int { if a <= b then a else b }

  function Max(a: int, b: int): int { if a >= b then a else b }
}
