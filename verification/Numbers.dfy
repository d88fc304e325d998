/** Numeric helpers of the C++ library that several components use, and the optional value. */
module Numbers {

  datatype Option<T> = None | Some(value: T)

  function Abs(x: real): real { if x < 0.0 then -x else x }

  function Min(a: int, b: int): int { if a < b then a else b }

  function Max(a: int, b: int): int { if a < b then b else a }

  /** std::round and std::lround: to the nearest integer, halves away from zero. */
  function Round(x: real): int { if x >= 0.0 then (x + 0.5).Floor else -(-x + 0.5).Floor }

  /** std::fmod: the remainder has the sign of the dividend. */
  function Fmod(a: real, m: real): real
    requires m > 0.0
  {
    if a >= 0.0 then a - (a / m).Floor as real * m else -(-a - (-a / m).Floor as real * m)
  }
}
