/**
 * The small part of the .NET runtime that the modelled code leans on:
 * nullable values, exceptions as values, and the bounded integer types.
 */
module Runtime {

  /** A reference that may be null: `None` stands for C#'s `null`. */
  datatype Option<+T> = None | Some(value: T)

  /** The outcome of a call that may throw instead of returning. */
  datatype Result<+R, +E> = Success(value: R) | Failure(error: E)

  /** The exceptions the modelled operations can raise. */
  datatype Fault =
    | ArgumentOutOfRange   // String.Substring with a negative length
    | NullReference        // a member accessed through a null reference
    | Format               // Parse on text that is not an integer
    | Overflow             // Parse on an integer outside the target type
    | NotImplemented       // an abstract operation the base class does not provide

  const Int32Min: int := -0x8000_0000
  const Int32Max: int := 0x7FFF_FFFF
  const UInt16Max: int := 0xFFFF

  /** C#'s `int`. */
  type Int32 = x: int | Int32Min <= x <= Int32Max

  /** C#'s `ushort`. */
  type UInt16 = x: int | 0 <= x <= UInt16Max

  /** C#'s `long`. */
  type Int64 = x: int | -0x8000_0000_0000_0000 <= x <= 0x7FFF_FFFF_FFFF_FFFF

  /** C#'s `byte`. */
  type Byte = bv8

  /** C#'s `float`, as its bit pattern: the modelled code only passes floats on. */
  type Float32 = bv32
}
