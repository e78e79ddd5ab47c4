/** Go's `int` on 32-bit and 64-bit platforms: two's complement, conversions and sums wrap around. */
module Machine {

  datatype Width = W32 | W64

  /** 2^w, and the half of it that splits the sign. */
  function Modulus(w: Width): int {
    match w
    case W32 => 0x1_0000_0000
    case W64 => 0x1_0000_0000_0000_0000
  }

  function Half(w: Width): int {
    match w
    case W32 => 0x8000_0000
    case W64 => 0x8000_0000_0000_0000
  }

  predicate IsInt(w: Width, n: int) {
    -Half(w) <= n < Half(w)
  }

  /** The value `int(n)` has, and the value a sum has when it is stored in an `int`. */
  function Wrap(w: Width, n: int): (r: int)
    ensures IsInt(w, r)
    ensures IsInt(w, n) ==> r == n
    ensures (n - r) % Modulus(w) == 0
  {
    match w
    case W32 => (n + 0x8000_0000) % 0x1_0000_0000 - 0x8000_0000
    case W64 => (n + 0x8000_0000_0000_0000) % 0x1_0000_0000_0000_0000 - 0x8000_0000_0000_0000
  }

  /** Sums of an int and a small constant agree after wrapping exactly when they differ by 0 or 2^w. */
  lemma WrapCollision(w: Width, a: int, b: int)
    requires -Half(w) <= a < Half(w) + 1000 && -Half(w) <= b < Half(w) + 1000
    ensures Wrap(w, a) == Wrap(w, b) <==> a == b || a - b == Modulus(w) || b - a == Modulus(w)
  {
  }
}
