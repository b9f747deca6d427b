/** Values shared by every module: optional values, results and the error
    categories of src/lib/common/error.hpp. Error details are free text for
    people and are not modelled. */
module Basics {

  datatype Option<+T> = None | Some(value: T)

  datatype ErrCode =
    | Validation | Auth | Forbidden | NotFound | Conflict | Gone
    | Integrity | UnknownDestination | Unavailable | Throttled | Io | Internal

  datatype Result<+T> = Ok(value: T) | Err(code: ErrCode) {

    predicate IsFailure() {
      Err?
    }

    function PropagateFailure<U>(): Result<U>
      requires Err?
    {
      Err(code)
    }

    function Extract(): T
      requires Ok?
    {
      value
    }
  }

  type Byte = b: int | 0 <= b < 256

  type Bytes = seq<Byte>

  function Min(a: int, b: int): int {
    if a <= b then a else b
  }

  function Max(a: int, b: int): int {
    if a >= b then a else b
  }

  function Pow2(n: nat): (r: nat)
    ensures r >= 1
  {
    if n == 0 then 1 else 2 * Pow2(n - 1)
  }
}
