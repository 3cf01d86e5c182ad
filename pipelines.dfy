/** The stream pipelines the tests build on top of the adapters: map every input
    through a lifted operation, then keep the successes or the failures. */
module Pipelines {
  import opened Optional
  import opened CheckedFunctions
  import opened Pairs
  import opened Eithers
  import opened Streams

  /** `filter(Either::isRight).map(Either::getRightAsInteger)`. */
  function Successes<L>(es: seq<Either<L, int>>): (r: seq<Option<int>>)
    ensures |r| <= |es|
    ensures forall i :: 0 <= i < |r| ==> r[i].Some?
  {
    Map(GetRightAsInteger, Filter(IsRight, es))
  }

  /** `filter(Either::isLeft).map(Either::getLeft).map(Optional::get)`. */
  function Failures<L, R>(es: seq<Either<L, R>>): (r: seq<L>)
    ensures |r| <= |es|
    ensures forall i :: 0 <= i < |r| ==> Left(Some(r[i])) in es
  {
    Unwrap(Map(GetLeft, Filter(IsLeft, es)))
  }

  /** `extracting("second")` on a list of pairs. */
  function Seconds<F, S>(ps: seq<Pair<F, S>>): (r: seq<S>)
    ensures |r| == |ps|
    ensures forall i :: 0 <= i < |ps| ==> r[i] == ps[i].second
  {
    Map((p: Pair<F, S>) => p.second, ps)
  }

  /** `map(Pair::getFirst)` on a list of pairs. */
  function Firsts<F, S>(ps: seq<Pair<F, S>>): seq<F> {
    Map((p: Pair<F, S>) => p.first, ps)
  }

  // ------------------------------------------- reference definitions, by input

  /** The non-null results `op` returns, in input order. */
  function Accepted<T, R, E>(op: CheckedFunction<T, R, E>, s: seq<T>): (r: seq<Option<R>>)
    ensures |r| <= |s|
    ensures forall i :: 0 <= i < |r| ==> r[i].Some?
  {
    if s == [] then []
    else
      (match op(s[0])
       case Returns(Some(v)) => [Some(v)]
       case _ => []) + Accepted(op, s[1..])
  }

  /** For each input `op` throws on, in input order, the exception paired with that input. */
  function Rejected<T, R, E>(op: CheckedFunction<T, R, E>, s: seq<T>): (r: seq<Pair<E, T>>)
    ensures |r| <= |s|
    ensures forall i :: 0 <= i < |r| ==> r[i].second in s && op(r[i].second) == Throws(r[i].first)
  {
    if s == [] then []
    else
      (match op(s[0])
       case Throws(ex) => [Of(ex, s[0])]
       case _ => []) + Rejected(op, s[1..])
  }

  lemma AcceptedCons<T, R, E>(op: CheckedFunction<T, R, E>, x: T, s: seq<T>)
    ensures Accepted(op, [x] + s)
            == (match op(x) case Returns(Some(v)) => [Some(v)] case _ => []) + Accepted(op, s)
  {
  }

  lemma RejectedCons<T, R, E>(op: CheckedFunction<T, R, E>, x: T, s: seq<T>)
    ensures Rejected(op, [x] + s)
            == (match op(x) case Throws(ex) => [Of(ex, x)] case _ => []) + Rejected(op, s)
  {
  }

  /** Every non-null result of `op` on the inputs is among the accepted values. */
  lemma {:induction false} AcceptedComplete<T, R, E>(op: CheckedFunction<T, R, E>, s: seq<T>, i: nat)
    requires i < |s| && op(s[i]).Returns? && op(s[i]).value.Some?
    ensures op(s[i]).value in Accepted(op, s)
  {
    AcceptedCons(op, s[0], s[1..]);
    assert s == [s[0]] + s[1..];
    if i > 0 {
      AcceptedComplete(op, s[1..], i - 1);
    }
  }

  /** Every input `op` throws on is among the rejected ones, with its exception. */
  lemma {:induction false} RejectedComplete<T, R, E>(op: CheckedFunction<T, R, E>, s: seq<T>, i: nat)
    requires i < |s| && op(s[i]).Throws?
    ensures Of(op(s[i]).exception, s[i]) in Rejected(op, s)
  {
    RejectedCons(op, s[0], s[1..]);
    assert s == [s[0]] + s[1..];
    if i > 0 {
      RejectedComplete(op, s[1..], i - 1);
    }
  }

  // ------------------------------------------- pipelines against references

  lemma SuccessesCons<L>(e: Either<L, int>, es: seq<Either<L, int>>)
    ensures Successes([e] + es) == (if IsRight(e) then [GetRightAsInteger(e)] else []) + Successes(es)
  {
  }

  lemma FailuresCons<L, R>(e: Either<L, R>, es: seq<Either<L, R>>)
    ensures Failures([e] + es) == (if IsLeft(e) then [GetLeft(e).value] else []) + Failures(es)
  {
  }

  /** The successes of `liftWithValue(op)` over `s` are exactly the non-null
      results of `op`, in input order. */
  lemma {:induction false} SuccessesOfLiftWithValue<T(!new), E>(op: CheckedFunction<T, int, E>, s: seq<T>)
    ensures Successes(Map(LiftWithValue(op), s)) == Accepted(op, s)
  {
    if s != [] {
      assert s == [s[0]] + s[1..];
      MapCons(LiftWithValue(op), s[0], s[1..]);
      SuccessesCons(LiftWithValue(op)(s[0]), Map(LiftWithValue(op), s[1..]));
      SuccessesOfLiftWithValue(op, s[1..]);
    }
  }

  /** The failures of `liftWithValue(op)` over `s` are exactly the pairs
      (exception, input) for the inputs `op` throws on, in input order. */
  lemma {:induction false} FailuresOfLiftWithValue<T(!new), R, E>(op: CheckedFunction<T, R, E>, s: seq<T>)
    ensures Failures(Map(LiftWithValue(op), s)) == Rejected(op, s)
  {
    if s != [] {
      assert s == [s[0]] + s[1..];
      MapCons(LiftWithValue(op), s[0], s[1..]);
      FailuresCons(LiftWithValue(op)(s[0]), Map(LiftWithValue(op), s[1..]));
      FailuresOfLiftWithValue(op, s[1..]);
    }
  }

  /** `lift(op)` gives the same successes as `liftWithValue(op)`. */
  lemma {:induction false} SuccessesOfLift<T(!new), E>(op: CheckedFunction<T, int, E>, s: seq<T>)
    ensures Successes(Map(Lift(op), s)) == Accepted(op, s)
  {
    if s != [] {
      assert s == [s[0]] + s[1..];
      MapCons(Lift(op), s[0], s[1..]);
      SuccessesCons(Lift(op)(s[0]), Map(Lift(op), s[1..]));
      SuccessesOfLift(op, s[1..]);
    }
  }

  /** The failures of `lift(op)` are the bare exceptions: the inputs are lost. */
  lemma {:induction false} FailuresOfLift<T(!new), R, E>(op: CheckedFunction<T, R, E>, s: seq<T>)
    ensures Failures(Map(Lift(op), s)) == Firsts(Rejected(op, s))
  {
    if s != [] {
      var e := Lift(op)(s[0]);
      var head: seq<Pair<E, T>> := match op(s[0]) case Throws(ex) => [Of(ex, s[0])] case _ => [];
      assert s == [s[0]] + s[1..];
      MapCons(Lift(op), s[0], s[1..]);
      FailuresCons(e, Map(Lift(op), s[1..]));
      FailuresOfLift(op, s[1..]);
      assert Rejected(op, s) == head + Rejected(op, s[1..]);
      MapAppend((p: Pair<E, T>) => p.first, head, Rejected(op, s[1..]));
      assert (if IsLeft(e) then [GetLeft(e).value] else []) == Firsts(head);
    }
  }

  // ------------------------------------------- partition

  /** Filtering by side splits a list into lefts and rights, and loses nothing
      exactly when every element is one or the other. */
  lemma {:induction false} SidesPartition<L, R>(es: seq<Either<L, R>>)
    ensures |Filter(IsLeft, es)| + |Filter(IsRight, es)| <= |es|
    ensures |Filter(IsLeft, es)| + |Filter(IsRight, es)| == |es|
            <==> forall i :: 0 <= i < |es| ==> IsLeft(es[i]) || IsRight(es[i])
  {
    if es != [] {
      assert es == [es[0]] + es[1..];
      FilterCons(IsLeft, es[0], es[1..]);
      FilterCons(IsRight, es[0], es[1..]);
      SidesPartition(es[1..]);
      assert (forall i :: 0 <= i < |es| ==> IsLeft(es[i]) || IsRight(es[i]))
             <==> (IsLeft(es[0]) || IsRight(es[0]))
                  && forall i :: 0 <= i < |es[1..]| ==> IsLeft(es[1..][i]) || IsRight(es[1..][i]);
    }
  }

  /** When `op` never returns null, every input ends up either among the
      successes or among the failures of `liftWithValue(op)`. */
  lemma LiftWithValuePartition<T(!new), E>(op: CheckedFunction<T, int, E>, s: seq<T>)
    requires forall t :: op(t) != Returns(None)
    ensures |Successes(Map(LiftWithValue(op), s))| + |Failures(Map(LiftWithValue(op), s))| == |s|
  {
    var es := Map(LiftWithValue(op), s);
    SidesPartition(es);
  }
}
