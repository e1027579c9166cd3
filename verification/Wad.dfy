/** Outcomes and the scaled-integer arithmetic every instruction of the pool is written in.

    A `Decimal` or a `Rate` of the library is a natural number scaled by 10^18; products
    are taken exactly and quotients truncate. The library's own width limits (192 and 128
    bits) are not modelled, apart from the conversions back to u64 and to a Rate. */
module Wad {

  /** The program's error codes that the model can produce, then one code for each kind of
      failure that comes from elsewhere. Any of them aborts the transaction. */
  datatype Error =
    | MathOverflow
    | InvalidPoolState
    | InvalidPoolConfig
    | InvalidTransaction
    | PortNotSell
    | DepositNotVerified
    | RedeemNotVerified
    | DepositAmountInvalid
    | RedeemAmountInvalid
    | LPMintAmountNotMatch
    | WrongWallet
    | MeetDepositLimit
    | MathFailure   // raised inside the maths library
    | TokenFailure  // raised by the token program
    | PortFailure   // raised by the lending program
    | Panicked      // an assertion of the program itself

  datatype Result<+T> = Ok(value: T) | Err(error: Error) {
    predicate IsFailure() {
      Err?
    }

    function PropagateFailure<U>(): Result<U>
      requires Err?
    {
      Err(error)
    }

    function Extract(): T
      requires Ok?
    {
      value
    }
  }

  /** A check that carries no value: `:- Require(...)` stops with its error. */
  datatype Outcome = Pass | Fail(error: Error) {
    predicate IsFailure() {
      Fail?
    }

    function PropagateFailure<U>(): Result<U>
      requires Fail?
    {
      Err(error)
    }
  }

  function Require(condition: bool, error: Error): Outcome {
    if condition then Pass else Fail(error)
  }

  const WAD: nat := 1_000_000_000_000_000_000
  const PERCENT: nat := 10_000_000_000_000_000
  const BIPS: nat := 100_000_000_000_000
  const U64_LIMIT: nat := 0x1_0000_0000_0000_0000
  const U128_LIMIT: nat := 0x1_0000_0000_0000_0000_0000_0000_0000_0000

  type u64 = x: nat | x < U64_LIMIT

  /** Unchecked `+` and `*` on u64: no Cargo profile of the repository turns overflow
      checks on, so a release build wraps around. */
  function WrappingAdd(x: nat, y: nat): nat {
    (x + y) % U64_LIMIT
  }

  function WrappingMul(x: nat, y: nat): nat {
    (x * y) % U64_LIMIT
  }

  /** Both lose as many multiples of 2^64 as it takes. */
  lemma Wrapping(x: nat, y: nat, wraps: nat, left: nat)
    requires left < 0x1_0000_0000_0000_0000
    ensures x + y == wraps * 0x1_0000_0000_0000_0000 + left ==> WrappingAdd(x, y) == left
    ensures x * y == wraps * 0x1_0000_0000_0000_0000 + left ==> WrappingMul(x, y) == left
  {
    Remainder(x + y, wraps, left);
    Remainder(x * y, wraps, left);
  }

  lemma Remainder(z: nat, wraps: nat, left: nat)
    requires left < 0x1_0000_0000_0000_0000
    ensures z == wraps * 0x1_0000_0000_0000_0000 + left ==> z % U64_LIMIT == left
  {
  }

  function CheckedU64(x: nat): Result<nat> {
    if x < U64_LIMIT then Ok(x) else Err(MathOverflow)
  }

  function CheckedSub(x: nat, y: nat): Result<nat> {
    if y <= x then Ok(x - y) else Err(MathOverflow)
  }

  /** Operations of the maths library on scaled values. */
  function DecimalSub(x: nat, y: nat): Result<nat> {
    if y <= x then Ok(x - y) else Err(MathFailure)
  }

  /** Truncating quotient of two scaled values, itself scaled. */
  function DecimalDiv(x: nat, y: nat): Result<nat> {
    if y == 0 then Err(MathFailure) else Ok(x * WAD / y)
  }

  /** Truncating quotient of a scaled value by an integer. */
  function DecimalDivInt(x: nat, y: nat): Result<nat> {
    if y == 0 then Err(MathFailure) else Ok(x / y)
  }

  function FloorU64(x: nat): Result<nat> {
    if x / WAD < U64_LIMIT then Ok(x / WAD) else Err(MathFailure)
  }

  function CeilU64(x: nat): Result<nat> {
    if (x + WAD - 1) / WAD < U64_LIMIT then Ok((x + WAD - 1) / WAD) else Err(MathFailure)
  }

  function RateFromDecimal(x: nat): Result<nat> {
    if x < U128_LIMIT then Ok(x) else Err(MathFailure)
  }

  /* Division facts, over a symbolic divisor so that no proof depends on the constants. */

  lemma DivBounds(a: nat, b: nat)
    requires 0 < b
    ensures a / b * b <= a < a / b * b + b
  {
  }

  lemma DivAtLeast(q: nat, a: nat, b: nat)
    requires 0 < b && q * b <= a
    ensures q <= a / b
  {
    DivBounds(a, b);
    if a / b + 1 <= q {
      MulMonotone(a / b + 1, q, b);
    }
  }

  lemma DivAtMost(q: nat, a: nat, b: nat)
    requires 0 < b && a < (q + 1) * b
    ensures a / b <= q
  {
    DivBounds(a, b);
    if q + 1 <= a / b {
      MulMonotone(q + 1, a / b, b);
    }
  }

  lemma MulMonotone(x: int, y: int, z: nat)
    requires x <= y
    ensures x * z <= y * z
  {
  }

  lemma MulCancel(x: int, y: int, z: nat)
    requires 0 < z && x * z <= y * z
    ensures x <= y
  {
    if y < x {
      MulMonotone(y + 1, x, z);
    }
  }
}
