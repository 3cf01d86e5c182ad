/** `Either<L, R>`: a left (failure) or a right (success) payload, kept in two
    final, nullable fields, and the adapters that turn a throwing operation into
    a function returning an Either. */
module Eithers {
  import opened Optional
  import opened CheckedFunctions
  import opened Pairs

  /** The two final fields `left` and `right`; `None` is null. */
  datatype Fields<L, R> = Fields(left: Option<L>, right: Option<R>)

  /** The constructor is private and the only factories, `left` and `right`,
      pass null for the other side, so no Either has both sides set.
      Both may be null: `right(null)` and `left(null)` are neither left nor right. */
  type Either<L, R> = e: Fields<L, R> | e.left.None? || e.right.None?
    witness Fields(None, None)

  // ---------------------------------------------------------------- factories

  /** `Either.left(value)`. */
  function Left<L, R>(value: Option<L>): (e: Either<L, R>)
    ensures IsLeft(e) <==> value.Some?
    ensures !IsRight(e)
    ensures GetLeft(e) == value && GetRight(e) == None
  {
    Fields(value, None)
  }

  /** `Either.right(value)`. */
  function Right<L, R>(value: Option<R>): (e: Either<L, R>)
    ensures IsRight(e) <==> value.Some?
    ensures !IsLeft(e)
    ensures GetRight(e) == value && GetLeft(e) == None
  {
    Fields(None, value)
  }

  // ---------------------------------------------------------------- queries

  /** `isLeft()`: the left field is not null. */
  predicate IsLeft<L, R>(e: Either<L, R>): (b: bool)
    ensures b ==> e.right.None?
  {
    e.left.Some?
  }

  /** `isRight()`: the right field is not null. */
  predicate IsRight<L, R>(e: Either<L, R>): (b: bool)
    ensures b ==> e.left.None?
  {
    e.right.Some?
  }

  /** `getLeft()`: `Optional.ofNullable(left)`. */
  function GetLeft<L, R>(e: Either<L, R>): (o: Option<L>)
    ensures o.Some? <==> IsLeft(e)
  {
    e.left
  }

  /** `getRight()`: `Optional.ofNullable(right)`. */
  function GetRight<L, R>(e: Either<L, R>): (o: Option<R>)
    ensures o.Some? <==> IsRight(e)
  {
    e.right
  }

  /** `getRightAsInteger()`: the right field, cast to a (nullable) Integer;
      on an `Either<L, int>` the cast cannot fail. */
  function GetRightAsInteger<L>(e: Either<L, int>): (n: Option<int>)
    ensures n == GetRight(e)
  {
    e.right
  }

  /** No Either is both left and right. */
  lemma NeverBoth<L, R>(e: Either<L, R>)
    ensures !(IsLeft(e) && IsRight(e))
  {
  }

  /** Every Either is what one of the two factories builds from its own
      accessors: the factories reach every Either and the accessors undo them. */
  lemma FactoriesCoverEither<L, R>(e: Either<L, R>)
    ensures e == if IsLeft(e) then Left(GetLeft(e)) else Right(GetRight(e))
  {
  }

  // ---------------------------------------------------------------- mapping

  /** `mapLeft(mapper)`: `Optional.of(mapper.apply(left))` when left, otherwise
      empty without calling the mapper. A mapper may return null, and then
      `Optional.of` throws a NullPointerException. */
  function MapLeft<L, R, T>(e: Either<L, R>, mapper: L -> Option<T>): (o: Outcome<Option<T>, NullPointerException>)
    ensures !IsLeft(e) ==> o == Returns(None)
    ensures IsLeft(e) ==> (o.Throws? <==> mapper(GetLeft(e).value).None?)
    ensures IsLeft(e) && o.Returns? ==> o.value == mapper(GetLeft(e).value)
  {
    if IsLeft(e) then
      match mapper(e.left.value)
      case Some(t) => Returns(Some(t))
      case None => Throws(NullPointerException)
    else
      Returns(None)
  }

  /** `mapRight(mapper)`: the same on the right side. */
  function MapRight<L, R, T>(e: Either<L, R>, mapper: R -> Option<T>): (o: Outcome<Option<T>, NullPointerException>)
    ensures !IsRight(e) ==> o == Returns(None)
    ensures IsRight(e) ==> (o.Throws? <==> mapper(GetRight(e).value).None?)
    ensures IsRight(e) && o.Returns? ==> o.value == mapper(GetRight(e).value)
  {
    if IsRight(e) then
      match mapper(e.right.value)
      case Some(t) => Returns(Some(t))
      case None => Throws(NullPointerException)
    else
      Returns(None)
  }

  /** With a mapper that never returns null, `mapLeft(f)` is `getLeft().map(f)`
      and never throws; with one that may, they part exactly where `f` returns
      null: `mapLeft` throws where `getLeft().map(f)` is empty. */
  lemma MapLeftIsGetLeftMap<L, R, T>(e: Either<L, R>, mapper: L -> Option<T>)
    ensures MapLeft(e, mapper).Returns? ==> MapLeft(e, mapper).value == OptionalMap(GetLeft(e), mapper)
    ensures MapLeft(e, mapper).Throws? <==> IsLeft(e) && OptionalMap(GetLeft(e), mapper).None?
  {
  }

  /** The same for `mapRight` and `getRight().map(f)`. */
  lemma MapRightIsGetRightMap<L, R, T>(e: Either<L, R>, mapper: R -> Option<T>)
    ensures MapRight(e, mapper).Returns? ==> MapRight(e, mapper).value == OptionalMap(GetRight(e), mapper)
    ensures MapRight(e, mapper).Throws? <==> IsRight(e) && OptionalMap(GetRight(e), mapper).None?
  {
  }

  // ---------------------------------------------------------------- rendering

  /** `String.format("%s", x)`: "null" for null, otherwise the payload's own
      `toString`, given here as `show`. */
  function Format<T>(x: Option<T>, show: T -> string): string {
    match x
    case None => "null"
    case Some(v) => show(v)
  }

  /** `toString()`: tagged `Left(...)` exactly when left; everything else,
      including an Either with neither side, is tagged `Right(...)`. */
  function ToString<L, R>(e: Either<L, R>, showLeft: L -> string, showRight: R -> string): (s: string)
    ensures 7 <= |s| + 1 && s[|s| - 1] == ')'
    ensures IsLeft(e) <==> "Left(" <= s
    ensures !IsLeft(e) <==> "Right(" <= s
    ensures IsLeft(e) ==> s[5..|s| - 1] == showLeft(GetLeft(e).value)
    ensures !IsLeft(e) ==> s[6..|s| - 1] == Format(GetRight(e), showRight)
  {
    if IsLeft(e) then
      var s := "Left(" + Format(e.left, showLeft) + ")";
      assert s[0] != "Right("[0];
      s
    else
      var s := "Right(" + Format(e.right, showRight) + ")";
      assert s[0] != "Left("[0];
      s
  }

  /** `right(null).toString()` is "Right(null)". */
  lemma ToStringOfNeither<L, R>(showLeft: L -> string, showRight: R -> string)
    ensures ToString(Right<L, R>(None), showLeft, showRight) == "Right(null)"
  {
  }

  // ---------------------------------------------------------------- lifting

  /** `lift(function)`: a function that never throws. A normal return `r`
      (possibly null) becomes `right(r)`, a thrown exception `ex` becomes
      `left(ex)`; the input is dropped. */
  function Lift<T(!new), R, E>(op: CheckedFunction<T, R, E>): (f: T -> Either<E, R>)
    ensures forall t :: IsLeft(f(t)) <==> op(t).Throws?
    ensures forall t :: op(t).Throws? ==> GetLeft(f(t)) == Some(op(t).exception)
    ensures forall t :: op(t).Returns? ==> GetRight(f(t)) == op(t).value
    ensures forall t :: IsRight(f(t)) <==> op(t).Returns? && op(t).value.Some?
  {
    t => match op(t)
         case Returns(r) => Right(r)
         case Throws(ex) => Left(Some(ex))
  }

  /** `liftWithValue(function)`: as `lift`, except that a thrown exception `ex`
      becomes `left(Pair.of(ex, t))`, keeping the input that caused it. */
  function LiftWithValue<T(!new), R, E>(op: CheckedFunction<T, R, E>): (f: T -> Either<Pair<E, T>, R>)
    ensures forall t :: IsLeft(f(t)) <==> op(t).Throws?
    ensures forall t :: op(t).Throws? ==> GetLeft(f(t)) == Some(Of(op(t).exception, t))
    ensures forall t :: op(t).Returns? ==> GetRight(f(t)) == op(t).value
    ensures forall t :: IsRight(f(t)) <==> op(t).Returns? && op(t).value.Some?
  {
    t => match op(t)
         case Returns(r) => Right(r)
         case Throws(ex) => Left(Some(Of(ex, t)))
  }

  /** The two adapters agree except for the failure payload, which
      `liftWithValue` pairs with the input. */
  lemma LiftWithValueExtendsLift<T(!new), R, E>(op: CheckedFunction<T, R, E>, t: T)
    ensures IsLeft(LiftWithValue(op)(t)) == IsLeft(Lift(op)(t))
    ensures GetRight(LiftWithValue(op)(t)) == GetRight(Lift(op)(t))
    ensures IsLeft(Lift(op)(t)) ==>
              GetLeft(LiftWithValue(op)(t)) == Some(Of(GetLeft(Lift(op)(t)).value, t))
  {
  }
}
