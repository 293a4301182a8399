/** Fixed-width integers, the shared enumerations and the checked arithmetic of
    cpp/include/itchlab/core/types.hpp and errors.hpp.  Integers are unbounded in
    Dafny, so every source width is a subset type and every overflow is explicit. */
module Types {

  const U16_MAX: int := 0xFFFF
  const U32_MAX: int := 0xFFFF_FFFF
  const U64_MAX: int := 0xFFFF_FFFF_FFFF_FFFF
  const NANOSECONDS_PER_DAY: int := 86_400_000_000_000

  type U8 = x: int | 0 <= x <= 0xFF
  type U16 = x: int | 0 <= x <= 0xFFFF
  type U32 = x: int | 0 <= x <= 0xFFFF_FFFF
  type U64 = x: int | 0 <= x <= 0xFFFF_FFFF_FFFF_FFFF

  type Bytes = seq<U8>
  type Attribution = s: seq<U8> | |s| == 4 witness [0, 0, 0, 0]

  datatype Option<+T> = None | Some(value: T) {
    function GetOr(default: T): T {
      if Some? then value else default
    }
  }

  datatype Side = Sell | NotApplicable | Buy

  datatype ErrorCode =
    | MessageLength | UnknownMessage | Timestamp | UnknownSymbol | OrderReference | Quantity
    | Invariant | DiskWrite | ConfigSchema | Internal | Framing | TruncatedMessage | InputPath
    | HashMismatch | PartialArtefact

  datatype TradingState = Unknown | Preopen | Trading | Halted | Paused | QuotationOnly | Closed

  function CheckedAdd(lhs: U64, rhs: U64): (sum: Option<U64>)
    ensures sum.Some? <==> lhs + rhs <= U64_MAX
    ensures sum.Some? ==> sum.value == lhs + rhs
  {
    if rhs > U64_MAX - lhs then None else Some(lhs + rhs)
  }

  function CheckedSubtract(lhs: U64, rhs: U64): (difference: Option<U64>)
    ensures difference.Some? <==> rhs <= lhs
    ensures difference.Some? ==> difference.value == lhs - rhs
  {
    if rhs > lhs then None else Some(lhs - rhs)
  }

  /** The two checked operations undo each other, and refuse exactly when there is nothing to undo. */
  lemma SubtractUndoesAdd(lhs: U64, rhs: U64, sum: U64)
    ensures CheckedAdd(lhs, rhs) == Some(sum) <==> CheckedSubtract(sum, rhs) == Some(lhs)
    ensures CheckedSubtract(lhs, rhs).None? <==> forall x: U64 :: CheckedAdd(x, rhs) != Some(lhs)
  {
    if CheckedSubtract(lhs, rhs).Some? {
      assert CheckedAdd(lhs - rhs, rhs) == Some(lhs);
    }
  }

  /** checked_integral_cast to the 32-bit ITCH quantity domain. */
  function NarrowToU32(value: U64): (narrowed: Option<U32>)
    ensures narrowed.Some? <==> value <= U32_MAX
    ensures narrowed.Some? ==> narrowed.value == value
  {
    if value > U32_MAX then None else Some(value)
  }

  predicate IsValidTimestamp(value: U64) {
    value < NANOSECONDS_PER_DAY
  }
}
