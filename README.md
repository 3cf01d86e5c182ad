# Either and Pair: failures as values in Java stream pipelines

This project models, in Dafny, the error-as-value utility of the
`org.kense.exceptionhandling` package:

- `Either<L, R>` holds a left (failure) or a right (success) payload in two final,
  nullable fields. Its private constructor is reached only through the factories
  `left` and `right`.
- The adapters `lift` and `liftWithValue` wrap a throwing operation
  (`CheckedFunction<T, R>`) into a total function that returns an `Either`.
  `liftWithValue` keeps the offending input next to the exception in a `Pair`.
- `Pair<F, S>` is an immutable two-field value class.

The model also covers the stream pipelines that the tests build on top of these
pieces. Each one maps a lifted operation over a list, then keeps either the successes
or the failures.

How the Java is expressed:

- A nullable Java reference and a `java.util.Optional` are both an `Option`.
  `None` stands for null or empty. With this reading, `Optional.ofNullable(field)`
  is the field itself (module `Optional`, `optional.dfy`).
- `Either` is a subset type over its two fields (`either.dfy`). The constraint
  "not both set" is the invariant that the private constructor and the two
  factories guarantee. Both fields may be null: `right(null)` and `left(null)` are
  neither left nor right.
- A `CheckedFunction<T, R>` is a Dafny function `T -> Outcome<Option<R>, E>`
  (`checked_function.dfy`). It either returns a value, which may be null, or throws
  an exception of type `E`. The `try`/`catch` of the adapters becomes a `match` on
  that outcome. The function returned by an adapter has type `T -> Either<…>`, so by
  its type it cannot throw.
- `mapLeft`/`mapRight` take a mapper that may return null. In that case
  `Optional.of` throws a `NullPointerException`. The result is therefore an
  `Outcome` of an `Option`.
- `toString` receives the payloads' own `toString` as parameters.
  `String.format("%s", null)` renders as `null`.
- The stream steps `map`, `filter` and `map(Optional::get)` are sequence functions
  in `streams.dfy`. The test pipelines are in `pipelines.dfy`. The worker test's
  scenario is in `worker_scenario.dfy`.
- A Pair is a datatype value, so its immutability and its value equality come from
  Dafny's datatypes. `getLeft()`/`getRight()` read final fields and are Dafny
  functions, so repeated calls give the same result by construction.

Facts about the code that shape the model:

- The code does not guarantee exactly one side. A null payload gives an `Either`
  that is neither left nor right. In particular, a lifted operation that returns
  null falls into neither the successes nor the failures of a pipeline
  (`Pipelines.LiftWithValuePartition` needs a non-null operation).
- `toString` tags `Left(…)` or `Right(…)`. An `Either` with neither side renders
  as `Right(null)`.
- `mapLeft`/`mapRight` throw when the mapper returns null. They do not wrap the
  null.

## Model

| member | source | states |
|---|---|---|
| `Pairs.Of` | src/main/java/org/kense/exceptionhandling/Pair.java:14-18 | `Pair.of(f, s)` has `first` equal to `f` and `second` equal to `s` |
| `Pairs.PairEquality` | src/main/java/org/kense/exceptionhandling/Pair.java:12-18 | two pairs are equal exactly when their firsts are equal and their seconds are equal |
| `Eithers.Left` | src/main/java/org/kense/exceptionhandling/Either.java:15-17 | `left(v)` is left iff `v` is non-null, is never right, and gives back `v` from `getLeft` and empty from `getRight` |
| `Eithers.Right` | src/main/java/org/kense/exceptionhandling/Either.java:19-21 | `right(v)` is right iff `v` is non-null, is never left, and gives back `v` from `getRight` and empty from `getLeft` |
| `Eithers.IsLeft` | src/main/java/org/kense/exceptionhandling/Either.java:56-58 | a left `Either` has a null right field |
| `Eithers.IsRight` | src/main/java/org/kense/exceptionhandling/Either.java:60-62 | a right `Either` has a null left field |
| `Eithers.GetLeft` | src/main/java/org/kense/exceptionhandling/Either.java:44-46 | `getLeft()` is present exactly when `isLeft()` |
| `Eithers.GetRight` | src/main/java/org/kense/exceptionhandling/Either.java:48-50 | `getRight()` is present exactly when `isRight()` |
| `Eithers.GetRightAsInteger` | src/main/java/org/kense/exceptionhandling/Either.java:52-54 | on an `Either` whose right type is Integer, the cast gives the nullable right value that `getRight()` wraps |
| `Eithers.NeverBoth` | src/main/java/org/kense/exceptionhandling/Either.java:7-21 | no `Either` is both left and right, because each factory passes null for the other side |
| `Eithers.FactoriesCoverEither` | src/main/java/org/kense/exceptionhandling/Either.java:10-21 | every `Either` has the same fields as `left(getLeft())` when it is left and as `right(getRight())` otherwise, so the accessors undo the factories |
| `Eithers.MapLeft` | src/main/java/org/kense/exceptionhandling/Either.java:64-69 | when not left, the result is empty and the mapper plays no part; when left, the result is `Optional.of(mapper(left))`, which throws exactly when the mapper returns null |
| `Eithers.MapRight` | src/main/java/org/kense/exceptionhandling/Either.java:71-76 | the same on the right side |
| `Eithers.MapLeftIsGetLeftMap` | src/main/java/org/kense/exceptionhandling/Either.java:64-69 | `mapLeft(f)` agrees with `getLeft().map(f)` whenever it returns; it throws exactly where `getLeft().map(f)` would be empty on a left `Either` |
| `Eithers.MapRightIsGetRightMap` | src/main/java/org/kense/exceptionhandling/Either.java:71-76 | `mapRight(f)` agrees with `getRight().map(f)` in the same way |
| `Eithers.ToString` | src/main/java/org/kense/exceptionhandling/Either.java:78-83 | the text starts with `Left(` exactly when `isLeft()` and with `Right(` exactly otherwise, ends in `)`, and encloses the payload's rendering (`null` for a null right) |
| `Eithers.ToStringOfNeither` | src/main/java/org/kense/exceptionhandling/Either.java:78-83 | an `Either` with neither side renders as `Right(null)` |
| `Eithers.Lift` | src/main/java/org/kense/exceptionhandling/Either.java:24-32 | for every input, the lifted result is left exactly when the operation throws, and then holds that exception; otherwise `getRight()` is the returned value, and the result is right exactly when that value is non-null |
| `Eithers.LiftWithValue` | src/main/java/org/kense/exceptionhandling/Either.java:34-42 | as `lift`, except that a thrown exception `ex` on input `t` yields a left holding `Pair.of(ex, t)` |
| `Eithers.LiftWithValueExtendsLift` | src/main/java/org/kense/exceptionhandling/Either.java:24-42 | both adapters agree on which side and on the right value; the left of `liftWithValue` pairs the left of `lift` with the input |
| `Streams.Map` | src/test/java/org/kense/core/WorkerTest.java:48 | `map(f)` gives one output per input, the output at each position being `f` of the input there |
| `Streams.Filter` | src/test/java/org/kense/core/WorkerTest.java:49 | every element `filter(p)` keeps satisfies `p` and comes from the input; every input element satisfying `p` is kept |
| `Streams.FilterAppend` | src/test/java/org/kense/core/WorkerTest.java:49 | filtering a concatenation is the concatenation of the filtered parts, so kept elements stay in input order |
| `Streams.FilterCounts` | src/test/java/org/kense/core/WorkerTest.java:49 | `filter(p)` keeps every occurrence of an element satisfying `p` and no occurrence of any other |
| `Streams.Unwrap` | src/test/java/org/kense/core/WorkerTest.java:58 | `map(Optional::get)` on present values gives one value per element, the one each element holds |
| `Pipelines.Successes` | src/test/java/org/kense/core/WorkerTest.java:47-52 | `filter(isRight).map(getRightAsInteger)` yields only non-null integers and never more than its input |
| `Pipelines.Failures` | src/test/java/org/kense/core/WorkerTest.java:54-61 | `filter(isLeft).map(getLeft).map(Optional::get)` yields payloads `p` such that an input element has the fields of `left(p)` |
| `Pipelines.Seconds` | src/test/java/org/kense/core/WorkerTest.java:70 | `extracting("second")` gives one value per pair, the pair's second component, in order |
| `Pipelines.Accepted` | src/test/java/org/kense/core/WorkerTest.java:63-65 | reference definition of the expected successes: the operation's non-null results, in input order |
| `Pipelines.Rejected` | src/test/java/org/kense/core/WorkerTest.java:67-71 | reference definition of the expected failures: each pair holds the exception the operation throws on that pair's input |
| `Pipelines.AcceptedComplete` | src/test/java/org/kense/core/WorkerTest.java:63-65 | every non-null result of the operation on the inputs is among the expected successes |
| `Pipelines.RejectedComplete` | src/test/java/org/kense/core/WorkerTest.java:67-71 | every input the operation throws on is among the expected failures, paired with its exception |
| `Pipelines.SuccessesOfLiftWithValue` | src/test/java/org/kense/core/WorkerTest.java:47-52 | for every operation and input list, the successes of `map(liftWithValue(op))` are exactly the operation's non-null results, in input order |
| `Pipelines.FailuresOfLiftWithValue` | src/test/java/org/kense/core/WorkerTest.java:54-61 | for every operation and input list, the failures of `map(liftWithValue(op))` are exactly the (exception, input) pairs of the failing inputs, in input order |
| `Pipelines.SuccessesOfLift` | src/main/java/org/kense/exceptionhandling/Either.java:24-32 | `lift` gives the same successes as `liftWithValue` |
| `Pipelines.FailuresOfLift` | src/main/java/org/kense/exceptionhandling/Either.java:24-32 | the failures of `map(lift(op))` are the bare exceptions of the failing inputs, in input order, with the inputs lost |
| `Pipelines.SidesPartition` | src/main/java/org/kense/exceptionhandling/Either.java:56-62 | filtering a list by `isLeft` and by `isRight` together keeps at most the whole list, and keeps all of it exactly when every element is one or the other |
| `Pipelines.LiftWithValuePartition` | src/main/java/org/kense/exceptionhandling/Either.java:34-42 | for an operation that never returns null, every input ends up either among the successes or among the failures |
| `WorkerScenario.TimesTen` | src/test/java/org/kense/core/WorkerTest.java:63-71 | the worker operation as the test describes it: it throws exactly on even inputs and returns ten times each odd input |
| `WorkerScenario.SuccessesAndFailures` | src/test/java/org/kense/core/WorkerTest.java:37-72 | over inputs 1..5, the successes are 10, 30 and 50, and the failures are two pairs whose seconds are 2 and 4, both in input order |

## Left out

- Eithers.Lift: only `Exception`s are caught. A `java.lang.Error` thrown by the operation escapes the lifted function in Java. The model's operations throw only exceptions, so it does not show that escape.
- Eithers.LiftWithValue: the same; a `java.lang.Error` escapes in Java and is not modelled.
- Eithers.MapLeft: a mapper that throws an unchecked exception propagates it in Java. Mappers here are pure functions that may return null.
- Eithers.MapRight: the same as `MapLeft`.
- Eithers.GetRightAsInteger: modelled only for an `Either` whose right type is an integer. The `ClassCastException` that the unchecked cast raises for other right types is not modelled.
- Eithers.ToString: the payloads' own `toString` is a parameter. The exact `String.format` rendering of Java objects is not modelled.
- Java's `Either` does not override `equals`, so two `Either` objects are equal only when they are the same object. The model's `==` on `Either` compares the two fields, which means the two cannot be told apart by any accessor. Object identity is not modelled.
- Lombok's generated `toString` and `hashCode` of `Pair` are not modelled: they depend on the payloads' Java implementations.
- `Pair.class::cast` in the test is the identity here, because the model's lists are typed. Java's raw `Function<T, Either>` return type of the adapters is given its full type parameters.
- `Worker.timesTen` is not part of this model. `WorkerScenario.TimesTen` is the behaviour the test asserts. The exception it throws is a parameter.
- Stream laziness, `peek` logging, SLF4J, `System.out`, Spring context loading and AssertJ are not modelled. The tests' assertions appear as lemmas.
- Exact 32-bit `Integer` arithmetic is not modelled: `TimesTen` multiplies unbounded integers, which agrees with Java on the test's inputs.
