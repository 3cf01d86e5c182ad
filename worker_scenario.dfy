/** The scenario of the worker's `successesAndFailures` test: inputs 1..5, an
    operation that rejects even numbers and multiplies odd ones by ten. */
module WorkerScenario {
  import opened Optional
  import opened CheckedFunctions
  import opened Pairs
  import opened Eithers
  import opened Streams
  import opened Pipelines

  /** `Worker::timesTen` as the test describes it: it throws `rejection` on an
      even input and returns ten times any odd input. */
  function TimesTen<E>(rejection: E): (op: CheckedFunction<int, int, E>)
    ensures forall x :: op(x).Throws? <==> x % 2 == 0
    ensures forall x :: op(x).Throws? ==> op(x).exception == rejection
    ensures forall x :: x % 2 != 0 ==> op(x) == Returns(Some(10 * x))
  {
    x => if x % 2 == 0 then Throws(rejection) else Returns(Some(x * 10))
  }

  /** The inputs of the test. */
  function Inputs(): seq<int> {
    [1, 2, 3, 4, 5]
  }

  lemma AcceptedOfInputs<E>(rejection: E)
    ensures Accepted(TimesTen(rejection), Inputs()) == [Some(10), Some(30), Some(50)]
  {
  }

  lemma RejectedOfInputs<E>(rejection: E)
    ensures Rejected(TimesTen(rejection), Inputs()) == [Of(rejection, 2), Of(rejection, 4)]
  {
  }

  /** Mapping `liftWithValue(Worker::timesTen)` over [1, 2, 3, 4, 5]: the
      successes are 10, 30, 50 and the failures are two pairs whose second
      components are 2 and 4, both in input order. */
  lemma SuccessesAndFailures<E>(rejection: E)
    ensures Successes(Map(LiftWithValue(TimesTen(rejection)), Inputs())) == [Some(10), Some(30), Some(50)]
    ensures Failures(Map(LiftWithValue(TimesTen(rejection)), Inputs())) == [Of(rejection, 2), Of(rejection, 4)]
    ensures Seconds(Failures(Map(LiftWithValue(TimesTen(rejection)), Inputs()))) == [2, 4]
  {
    SuccessesOfLiftWithValue(TimesTen(rejection), Inputs());
    AcceptedOfInputs(rejection);
    FailuresOfLiftWithValue(TimesTen(rejection), Inputs());
    RejectedOfInputs(rejection);
    var failures := Failures(Map(LiftWithValue(TimesTen(rejection)), Inputs()));
    assert Seconds(failures) == [2, 4] by {
      assert failures == [Of(rejection, 2), Of(rejection, 4)];
      assert |Seconds(failures)| == 2;
    }
  }
}
