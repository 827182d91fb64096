/** Go's int64: bounded values whose addition wraps around. */
module Int64 {
  const MIN_INT64: int := -0x8000_0000_0000_0000
  const MAX_INT64: int := 0x7fff_ffff_ffff_ffff
  const MODULUS: int := 0x1_0000_0000_0000_0000

  type int64 = x: int | MIN_INT64 <= x <= MAX_INT64

  /** The sum Go computes: exact when it fits, off by one modulus when it does not. */
  function Add(a: int64, b: int64): (r: int64)
    ensures MIN_INT64 <= a + b <= MAX_INT64 ==> r == a + b
    ensures 0 <= b && a + b > MAX_INT64 ==> r < a
  {
    var exact := a + b;
    if exact > MAX_INT64 then exact - MODULUS
    else if exact < MIN_INT64 then exact + MODULUS
    else exact
  }

  function Max(a: int, b: int): int {
    if a > b then a else b
  }

  function Min(a: int, b: int): int {
    if a < b then a else b
  }
}
