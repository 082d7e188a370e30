/** The parts of the Java platform the model needs: 32-bit ints, bytes,
    the exceptions the modelled code can raise, and a result type that
    carries either a value or the exception that ended the computation. */
module Jvm {

  const INT_MIN: int := -0x8000_0000
  const INT_MAX: int := 0x7fff_ffff

  /** The values of Java's `int`. */
  predicate IsInt32(x: int) {
    INT_MIN <= x <= INT_MAX
  }

  /** An octet, the bit pattern of a Java `byte` read as unsigned. */
  type Byte = b: int | 0 <= b < 256

  /** The exceptions the modelled code can raise. */
  datatype Exception =
    | ArithmeticException            // integer division by zero
    | NegativeArraySizeException     // `new T[n]` with n < 0
    | ArrayIndexOutOfBoundsException
    | NullPointerException
    | ClassCastException
    | NumberFormatException          // Integer.parseInt on text that is not an int
    | IOException(kind: IOError)
    | SerializationException(cause: IOError)
    | TwisterException              // raised by the remote runtime
    | PubSubException(message: string)

  /** The kinds of IOException the modelled streams raise. */
  datatype IOError = EOFException

  /** Either a value, or the exception the computation threw. */
  datatype Result<+T> = Ok(value: T) | Throws(error: Exception)

  /** Either normal completion, or the exception the statement threw. */
  datatype Outcome = Done | Raised(error: Exception)

  datatype Option<+T> = None | Some(value: T)

  function Min(a: int, b: int): int {
    if a <= b then a else b
  }
}
