/** Values of the Java platform that the assembler's global state works with. */
module JavaLang {

  /** A Java reference that may be `null`. */
  datatype Nullable<+T> = Null | NonNull(value: T)

  /** The outcome of a Java call that either returns a value or throws. */
  datatype Result<+T, +E> = Ok(value: T) | Err(error: E)

  /** The two platform-dependent separators: `File.separator` and `File.pathSeparator`
      (both one-character strings on every JVM platform). */
  datatype Platform = Platform(separator: char, pathSeparator: char)

  /** Thrown by `Integer.parseInt`; it records the rejected input. */
  datatype NumberFormatException = NumberFormatException(input: string)
}
