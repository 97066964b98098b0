/** Values shared by every part of the model: optional values, Java's exceptions
    as a result type, and Java's `byte`. */
module Common {

  /** `None` stands for Java's `null`. */
  datatype Option<T> = None | Some(value: T)

  /** An exception that ends a Java call: the checked `BarcodeException` the
      encoding engine throws on purpose, with its message, or an unchecked
      runtime exception (named by its class) that escapes by accident. */
  datatype Failure =
    | BarcodeException(message: string)
    | RuntimeFault(exception: string)

  /** The outcome of a Java call that may throw. */
  datatype Result<T> = Ok(value: T) | Err(error: Failure)

  const INVALID_CHARACTER: string := "Invalid character in barcode"
  const UNEXPECTED_SIZE: string := "Unexpected barcode size"
  const NULL_POINTER: string := "NullPointerException"
  const INDEX_OUT_OF_BOUNDS: string := "ArrayIndexOutOfBoundsException"

  /** `requiresChecksum()`: whether a symbology demands, allows or forbids a
      checksum. */
  datatype ChecksumRequirement = MandatoryChecksum | OptionalChecksum | NoChecksum

  /** Java's signed 8-bit `byte`. */
  type Byte = b: int | -128 <= b < 128
}
