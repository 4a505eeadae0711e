/** Results, error codes and Go's fixed-width integer arithmetic. */
module Common {

  datatype Option<+T> = None | Some(value: T)

  /** The sentinel errors of pkg/common/errorcodes that the modelled code returns, plus
      `Fault` for a statement or command that the store could not execute. */
  datatype Error =
    | NotFound
    | Insufficient
    | Validation
    | Forbidden
    | MovementDraft
    | IdempotencyConflict
    | Conflict
    | ProductHasStock
    | WarehouseStock
    | Internal
    | Constraint
    | Fault

  datatype Result<+T> = Success(value: T) | Failure(error: Error) {
    predicate IsFailure() { Failure? }

    function PropagateFailure<U>(): Result<U>
      requires Failure?
    {
      Failure(error)
    }

    function Extract(): T
      requires Success?
    {
      value
    }
  }

  /** What happens to one command sent over the network: done, refused, or done although the caller sees an error. */
  datatype Outcome = Done | Refused | Unsure

  const MIN_INT32 := -0x8000_0000
  const MAX_INT32 := 0x7FFF_FFFF
  const MIN_INT64 := -0x8000_0000_0000_0000
  const MAX_INT64 := 0x7FFF_FFFF_FFFF_FFFF

  /** The value Go stores when the exact result of an int32 expression is `x`. */
  function Wrap32(x: int): (r: int)
    ensures MIN_INT32 <= r <= MAX_INT32
    ensures MIN_INT32 <= x <= MAX_INT32 ==> r == x
    ensures (x - r) % 0x1_0000_0000 == 0
  {
    (x + 0x8000_0000) % 0x1_0000_0000 - 0x8000_0000
  }

  /** The value Go stores when the exact result of an int64 expression is `x`. */
  function Wrap64(x: int): (r: int)
    ensures MIN_INT64 <= r <= MAX_INT64
    ensures MIN_INT64 <= x <= MAX_INT64 ==> r == x
    ensures (x - r) % 0x1_0000_0000_0000_0000 == 0
  {
    (x + 0x8000_0000_0000_0000) % 0x1_0000_0000_0000_0000 - 0x8000_0000_0000_0000
  }
}
