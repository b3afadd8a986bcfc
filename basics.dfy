/** Failure-compatible wrappers and the fixed-width integer ranges the server's C++ types use. */
module Basics {

  /** `uint16_t`: the `flags` field of a command. */
  type u16 = x: int | 0 <= x < 0x1_0000

  /** `int`: the `expiry_time` field and the result of `std::stoi`. */
  type i32 = x: int | -0x8000_0000 <= x < 0x8000_0000

  /** `unsigned int`: the `byte_count` field of a command. */
  type u32 = x: int | 0 <= x < 0x1_0000_0000

  datatype Option<+T> = None | Some(value: T)

  datatype Result<+R, +E> = Success(value: R) | Failure(error: E) {
    predicate IsFailure() {
      Failure?
    }

    function PropagateFailure<U>(): Result<U, E>
      requires Failure?
    {
      Failure(error)
    }

    function Extract(): R
      requires Success?
    {
      value
    }
  }
}
