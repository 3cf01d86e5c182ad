/** java.util.Optional and Java's nullable references.
    A Java reference that may be null and an Optional that may be empty are
    both an `Option`: `None` is null (or empty), `Some(v)` is the object `v`.
    With this reading `Optional.ofNullable(x)` is `x` itself. */
module Optional {

  datatype Option<+T> = None | Some(value: T)

  /** `Optional.map(f)`: empty stays empty, otherwise
      `Optional.ofNullable(f(value))`; `f` may return null. */
  function OptionalMap<T, U>(o: Option<T>, f: T -> Option<U>): (r: Option<U>)
    ensures o.None? ==> r.None?
  {
    match o
    case None => None
    case Some(v) => f(v)
  }

  /** The exception `Optional.of(null)` raises. */
  datatype NullPointerException = NullPointerException
}
