/** The single-method interface `CheckedFunction<T, R>`: `R apply(T t) throws Exception`.
    A call either returns a value, which Java allows to be null, or throws an
    exception; here both are values of `Outcome`. */
module CheckedFunctions {
  import opened Optional

  /** How one call of an operation ends. */
  datatype Outcome<+R, +E> = Returns(value: R) | Throws(exception: E)

  /** `CheckedFunction<T, R>` whose exceptions are of type `E`. */
  type CheckedFunction<-T, R, E> = T -> Outcome<Option<R>, E>
}
