/**
 * The console's result codes and the two integer conversions a handler's
 * result goes through: a handler returns an `unsigned`, which
 * `executeCommand` casts to `int` (two's complement wrap-around).
 */
module ReturnCodes {

  /** `ReturnCode::Quit`: only the termination tokens (and end of input) should produce it. */
  const Quit: int := -1
  /** `ReturnCode::Ok`. */
  const Ok: int := 0
  /** `ReturnCode::Error`; every result of 1 or more is an error. */
  const Error: int := 1

  const Two31: int := 0x8000_0000
  const Two32: int := 0x1_0000_0000

  /** A 32-bit `unsigned`, the result type of a command handler. */
  type u32 = x: int | 0 <= x < 0x1_0000_0000

  /** The range of a 32-bit `int`. */
  predicate IsInt32(x: int) {
    -Two31 <= x < Two31
  }

  /** A result counts as an error when it is 1 or more. */
  predicate IsError(code: int) {
    code >= Error
  }

  /**
   * `static_cast<int>` of an `unsigned`: the unique 32-bit signed value
   * congruent to `u` modulo 2^32.
   */
  function ToInt(u: u32): (x: int)
    ensures IsInt32(x)
    ensures (x - u) % Two32 == 0
    ensures u < Two31 <==> x >= 0
  {
    if u < Two31 then u else u - Two32
  }

  /** Conversion of an `int` to `unsigned`: reduction modulo 2^32. */
  function ToUnsigned(x: int): (u: u32)
    ensures (x - u) % Two32 == 0
    ensures 0 <= x < Two32 ==> u == x
  {
    x % Two32
  }

  /** An `int` that goes through `unsigned` and back is unchanged. */
  lemma SignedRoundTrip(x: int)
    requires IsInt32(x)
    ensures ToInt(ToUnsigned(x)) == x
  {
  }

  /**
   * The range the cast keeps: a result in 0 .. 2^31-1 is unchanged by it and
   * stays Ok or an error, so it can never read as Quit.
   */
  lemma ResultsBelowTwo31NeverQuit(u: u32)
    requires u < Two31
    ensures ToInt(u) == u
    ensures ToInt(u) == Ok || IsError(ToInt(u))
  {
  }

  /**
   * Outside that range the cast changes the value: the largest `unsigned`,
   * an error code the header allows, becomes -1, which is Quit.
   */
  lemma LargestUnsignedIsQuit()
    ensures ToInt(Two32 - 1) == Quit
  {
  }
}
