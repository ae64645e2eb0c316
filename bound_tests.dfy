/** The outcomes that tests/test_bound.py expects, derived from the model:
    the `fibonacci` data process, the reference predicates on it, the
    combinators, protocol violations, argument delivery and closing. */
module BoundTests {
  import opened Bound
  import opened BoundProperties

  const NoArgs := CallArgs([], map[])

  /** The `k`-th and `k+1`-th numbers `fibonacci()` yields, counting from 0. */
  function FibPair(k: nat): (nat, nat)
  {
    if k == 0 then (1, 1) else (FibPair(k - 1).1, FibPair(k - 1).0 + FibPair(k - 1).1)
  }

  function Fib(k: nat): nat
  {
    FibPair(k).0
  }

  /** Each number is the sum of the two before it. */
  lemma FibRecurrence(k: nat)
    ensures Fib(k + 2) == Fib(k + 1) + Fib(k)
  {
  }

  /** The first `k` values of `fibonacci()`. */
  function FibValues(k: nat): seq<Value>
  {
    seq(k, i requires 0 <= i < k => Num(Fib(i)))
  }

  const FibStart := DataProc(Fibonacci, Created, 0, 0, NoneValue)

  /** `fibonacci()` after `k` values: `a` holds the last one, `b` the next. */
  function FibAfter(k: nat): DataProc
  {
    if k == 0 then FibStart else DataProc(Fibonacci, Suspended, Fib(k - 1), Fib(k), NoneValue)
  }

  /** `fibonacci()` yields 1, 1, 2, 3, 5, ... for ever. */
  lemma {:induction false} FibonacciStream(k: nat)
    ensures Pull(FibStart, k) == (FibAfter(k), FibValues(k))
    ensures Next(FibAfter(k)) == (FibAfter(k + 1), Yield(Num(Fib(k))))
  {
    if k == 0 {
      assert FibValues(0) == [];
    } else {
      FibonacciStream(k - 1);
      PullStep(FibStart, k - 1);
      assert Pull(FibStart, k).0 == FibAfter(k);
      assert FibValues(k) == FibValues(k - 1) + [Num(Fib(k - 1))];
      assert Pull(FibStart, k).1 == FibValues(k);
    }
    if k >= 1 {
      FibRecurrence(k - 1);
    }
  }

  lemma FibonacciNeverEnds(m: nat)
    ensures YieldsAtLeast(FibStart, m)
  {
    forall k | 0 <= k < m
      ensures Next(Pull(FibStart, k).0).1.Yield?
    {
      FibonacciStream(k);
    }
  }

  lemma FibonacciNumbers(k: nat)
    ensures AllNumbers(FibValues(k))
  {
  }

  /** The sum of the first `k` Fibonacci numbers is `Fib(k + 1) - 1`. */
  lemma {:induction false} FibonacciSum(k: nat)
    ensures Sum(FibValues(k)) == Fib(k + 1) - 1
  {
    if k == 0 {
      assert FibValues(0) == [];
      assert Fib(1) == FibPair(0).1 == 1;
    } else {
      FibonacciSum(k - 1);
      assert FibValues(k)[..k - 1] == FibValues(k - 1);
      FibRecurrence(k - 1);
    }
  }

  lemma {:induction false} FibonacciGrows(i: nat, j: nat)
    requires i <= j
    ensures Fib(i) <= Fib(j)
    decreases j - i
  {
    if i < j {
      FibonacciGrows(i, j - 1);
      if j >= 2 {
        FibRecurrence(j - 2);
      }
    }
  }

  lemma FibonacciTable()
    ensures Fib(4) == 5 && Fib(7) == 21 && Fib(12) == 233 && Fib(13) == 377
    ensures Fib(14) == 610 && Fib(19) == 6765
  {
    assert Fib(2) == 2;
    assert Fib(3) == 3;
    assert Fib(4) == 5;
    assert Fib(5) == 8;
    assert Fib(6) == 13;
    assert Fib(7) == 21;
    assert Fib(8) == 34;
    assert Fib(9) == 55;
    assert Fib(10) == 89;
    assert Fib(11) == 144;
    assert Fib(12) == 233;
    assert Fib(13) == 377;
    assert Fib(14) == 610;
    assert Fib(15) == 987;
    assert Fib(16) == 1597;
    assert Fib(17) == 2584;
    assert Fib(18) == 4181;
  }

  /** `fibonacci()` called through a bounded function with no arguments, or with `wait`. */
  lemma FibonacciCall(args: CallArgs)
    requires args == NoArgs || args == CallArgs([], map["wait" := Num(100)])
    ensures StartData(DataFactory(Fibonacci), args) == Some(FibStart)
  {
  }

  // ---------------------------------------------------------------------
  // test_times, test_plain_generator
  // ---------------------------------------------------------------------

  /** `times(8)(fibonacci)()` is 21 and `.generate()` gives 1, 1, 2, 3, 5, 8, 13, 21. */
  lemma TimesEight(clock: nat -> nat, fuel: nat)
    requires fuel >= 8
    ensures Generate(Bounded(DataFactory(Fibonacci), Factory(Leaf(Times(8)))), NoArgs, clock, fuel)
            == Ok([Num(1), Num(1), Num(2), Num(3), Num(5), Num(8), Num(13), Num(21)])
    ensures Invoke(Bounded(DataFactory(Fibonacci), Factory(Leaf(Times(8)))), NoArgs, clock, fuel)
            == Ok(Some(Num(21)))
  {
    FibonacciCall(NoArgs);
    FibonacciNeverEnds(8);
    TimesTakesFirst(DataFactory(Fibonacci), 8, NoArgs, clock, fuel);
    FibonacciStream(8);
    FibonacciTable();
    assert FibValues(8) == [Num(1), Num(1), Num(2), Num(3), Num(5), Num(8), Num(13), Num(21)] by {
      assert Fib(5) == 8 && Fib(6) == 13;
    }
  }

  /** `times(5)` over an already created `fibonacci()` generator returns 5. */
  lemma TimesFiveOnInstance(clock: nat -> nat, fuel: nat)
    requires fuel >= 5
    ensures Invoke(Bounded(DataInstance(FibStart), Factory(Leaf(Times(5)))), NoArgs, clock, fuel)
            == Ok(Some(Num(5)))
  {
    FibonacciNeverEnds(5);
    TimesTakesFirst(DataInstance(FibStart), 5, NoArgs, clock, fuel);
    FibonacciStream(5);
    FibonacciTable();
  }

  // ---------------------------------------------------------------------
  // test_timed
  // ---------------------------------------------------------------------

  /** `timed(10)(fibonacci)(wait=100)` returns 1: the first value is always
      produced, and after it the time is up. */
  lemma TimedFirstValue(clock: nat -> nat, fuel: nat)
    requires fuel >= 1 && clock(1) >= 10
    ensures Invoke(Bounded(DataFactory(Fibonacci), Factory(Leaf(Timed(10)))),
                   CallArgs([], map["wait" := Num(100)]), clock, fuel)
            == Ok(Some(Num(1)))
  {
    var args := CallArgs([], map["wait" := Num(100)]);
    FibonacciCall(args);
    FibonacciNeverEnds(1);
    TimedStopsAtDeadline(DataFactory(Fibonacci), 10, args, clock, fuel, 1);
    FibonacciStream(1);
  }

  /** `timed(0)(fibonacci)()` returns `None`: no value is produced. */
  lemma TimedZero(clock: nat -> nat, fuel: nat)
    ensures Invoke(Bounded(DataFactory(Fibonacci), Factory(Leaf(Timed(0)))), NoArgs, clock, fuel)
            == Ok(None)
  {
    FibonacciCall(NoArgs);
    StopsBeforeFirstValue(DataFactory(Fibonacci), Timed(0), NoArgs, clock, fuel);
  }

  // ---------------------------------------------------------------------
  // test_accumulated
  // ---------------------------------------------------------------------

  lemma FibonacciSumBelow(k: nat)
    requires k <= 12
    ensures Sum(FibValues(k)) < 500
  {
    FibonacciSum(k);
    FibonacciGrows(k + 1, 13);
    FibonacciTable();
  }

  lemma FibonacciSumReaches(k: nat)
    requires k >= 13
    ensures Sum(FibValues(k)) >= 500
  {
    FibonacciSum(k);
    FibonacciGrows(14, k + 1);
    FibonacciTable();
  }

  /** `accumulated(500)(fibonacci)()` stops after 13 values, at 233. */
  lemma AccumulatedFiveHundred(clock: nat -> nat, fuel: nat)
    requires fuel >= 13
    ensures Invoke(Bounded(DataFactory(Fibonacci), Factory(Leaf(Accumulated(500)))), NoArgs, clock, fuel)
            == Ok(Some(Num(233)))
  {
    AccumulatedFiveHundredValues(clock, fuel);
    FibonacciTable();
  }

  /** The values `accumulated(500)(fibonacci)` produces: the first 13. */
  lemma AccumulatedFiveHundredValues(clock: nat -> nat, fuel: nat)
    requires fuel >= 13
    ensures Generate(Bounded(DataFactory(Fibonacci), Factory(Leaf(Accumulated(500)))), NoArgs, clock, fuel)
            == Ok(FibValues(13))
  {
    AccumulatedFiveHundredRun(clock, fuel);
  }

  lemma AccumulatedFiveHundredRun(clock: nat -> nat, fuel: nat)
    requires fuel >= 13
    ensures Run(DataFactory(Fibonacci), Factory(Leaf(Accumulated(500))), NoArgs, clock, fuel).result
            == Produced(FibValues(13))
  {
    FibonacciCall(NoArgs);
    FibonacciNeverEnds(13);
    FibonacciStream(13);
    FibonacciSumsBelow();
    FibonacciSumReaches(13);
    FibonacciNumbers(13);
    AccumulatedStopsAtThreshold(DataFactory(Fibonacci), 500, NoArgs, clock, fuel, 13);
  }

  lemma FibonacciSumsBelow()
    ensures forall k | 1 <= k < 13 :: Sum(Pull(FibStart, k).1) < 500
  {
    forall k | 1 <= k < 13
      ensures Sum(Pull(FibStart, k).1) < 500
    {
      FibonacciStream(k);
      FibonacciSumBelow(k);
    }
  }

  // ---------------------------------------------------------------------
  // test_accumulated: whenall
  // ---------------------------------------------------------------------

  /** `whenall(accumulated(500), timed(0))(fibonacci)()` is 233: `timed(0)`
      always says stop, so the sum decides. */
  lemma WhenAllAccumulatedTimedZero(clock: nat -> nat, fuel: nat)
    requires fuel >= 13
    ensures Invoke(Bounded(DataFactory(Fibonacci), Factory(AllOf(Factories([Accumulated(500), Timed(0)])))),
                   NoArgs, clock, fuel)
            == Ok(Some(Num(233)))
  {
    var ls := [Accumulated(500), Timed(0)];
    var pred := Factory(AllOf(Factories(ls)));
    InstantiateFactories(true, ls);
    GroupHandshake(true, ls, NoArgs, clock);
    assert seq(|ls|, i requires 0 <= i < |ls| => InitialStop(ls[i])) == [false, true];
    FibonacciCall(NoArgs);
    RunAfterHandshake(DataFactory(Fibonacci), pred, NoArgs, clock, fuel);
    var s := GroupState(true, Ready(ls, NoArgs), Suspended);
    FibonacciNeverEnds(13);
    forall k: nat | k <= 13
      ensures Feed(s, Pull(FibStart, k).1, clock).1 == Signal(k >= 13)
    {
      TimedZeroAnswer(clock, k);
    }
    StopsAtFirstStop(FibStart, s, clock, 13, fuel);
    FibonacciStream(13);
    FibonacciTable();
  }

  /** A combinator over two reference predicates answers the AND / OR of
      what each would answer on its own. */
  lemma FeedTwoLeaves(all: bool, a: Leaf, b: Leaf, vals: seq<Value>, clock: nat -> nat)
    requires !a.Scripted? && !b.Scripted? && AllNumbers(vals)
    ensures Feed(GroupState(all, Ready([a, b], NoArgs), Suspended), vals, clock).1
            == Signal(vals != [] && if all then LeafStop(a, vals, clock) && LeafStop(b, vals, clock)
                                    else LeafStop(a, vals, clock) || LeafStop(b, vals, clock))
  {
    var ls := [a, b];
    FeedLeafGroup(all, ls, NoArgs, vals, clock);
    var stops := [LeafStop(a, vals, clock), LeafStop(b, vals, clock)];
    assert seq(|ls|, i requires 0 <= i < |ls| => LeafStop(ls[i], vals, clock)) == stops;
    assert AllTrue(stops) == (stops[0] && stops[1]);
    assert AnyTrue(stops) == (stops[0] || stops[1]);
  }

  lemma TimedZeroAnswer(clock: nat -> nat, k: nat)
    requires k <= 13
    ensures Feed(GroupState(true, Ready([Accumulated(500), Timed(0)], NoArgs), Suspended), Pull(FibStart, k).1, clock).1
            == Signal(k >= 13)
  {
    FibonacciStream(k);
    FibonacciNumbers(k);
    var vals := FibValues(k);
    FeedTwoLeaves(true, Accumulated(500), Timed(0), vals, clock);
    assert LeafStop(Timed(0), vals, clock);
    if 0 < k < 13 {
      FibonacciSumBelow(k);
      assert !LeafStop(Accumulated(500), vals, clock);
    } else if k == 13 {
      FibonacciSumReaches(k);
      assert LeafStop(Accumulated(500), vals, clock);
    }
  }

  /** `whenall(accumulated(500), times(20))(fibonacci)()` is greater than
      233: the sum reaches 500 after 13 values, but `times(20)` holds the
      run until the 20th. */
  lemma WhenAllAccumulatedTimesTwenty(clock: nat -> nat, fuel: nat)
    requires fuel >= 20
    ensures Invoke(Bounded(DataFactory(Fibonacci), Factory(AllOf(Factories([Accumulated(500), Times(20)])))),
                   NoArgs, clock, fuel)
            == Ok(Some(Num(6765)))
  {
    var ls := [Accumulated(500), Times(20)];
    var pred := Factory(AllOf(Factories(ls)));
    InstantiateFactories(true, ls);
    GroupHandshake(true, ls, NoArgs, clock);
    assert seq(|ls|, i requires 0 <= i < |ls| => InitialStop(ls[i])) == [false, false];
    FibonacciCall(NoArgs);
    RunAfterHandshake(DataFactory(Fibonacci), pred, NoArgs, clock, fuel);
    var s := GroupState(true, Ready(ls, NoArgs), Suspended);
    FibonacciNeverEnds(20);
    forall k: nat | k <= 20
      ensures Feed(s, Pull(FibStart, k).1, clock).1 == Signal(k >= 20)
    {
      TwentyAnswer(clock, k);
    }
    StopsAtFirstStop(FibStart, s, clock, 20, fuel);
    FibonacciStream(20);
    FibonacciTable();
  }

  lemma TwentyAnswer(clock: nat -> nat, k: nat)
    requires k <= 20
    ensures Feed(GroupState(true, Ready([Accumulated(500), Times(20)], NoArgs), Suspended), Pull(FibStart, k).1, clock).1
            == Signal(k >= 20)
  {
    FibonacciStream(k);
    FibonacciNumbers(k);
    var vals := FibValues(k);
    FeedTwoLeaves(true, Accumulated(500), Times(20), vals, clock);
    assert LeafStop(Times(20), vals, clock) == (k >= 20);
    if k >= 13 {
      FibonacciSumReaches(k);
      assert LeafStop(Accumulated(500), vals, clock);
    }
  }


  // ---------------------------------------------------------------------
  // Predicates written as generators in the test suite
  // ---------------------------------------------------------------------

  /** `yield False; yield False; yield True`. */
  const Argless := Scripted([false, false, true], None, None)
  /** `yield; yield False; while True: yield True`. */
  const Bailout := Scripted([false, false], Some(true), None)
  /** `yield` and nothing more: it ends when it receives the call arguments. */
  const OnlyPrime := Scripted([false], None, None)
  /** `yield; yield False`: it ends at the first cycle. */
  const NeverStops := Scripted([false, false], None, None)
  /** `while True: yield False`. */
  const Forever := Scripted([], Some(false), None)

  /** `args, kwargs = yield`, an assertion that they are `expected`, then `yield True`. */
  function Checker(expected: CallArgs): Leaf
  {
    Scripted([false, true], None, Some(expected))
  }

  const OneTwo := CallArgs([Num(1), Num(2)], map[])
  const OneTwoEgg := CallArgs([Num(1), Num(2)], map["egg" := Text("ham")])

  /** `def foobar(*args, **kwargs): while True: yield 1`. */
  const Ones := Repeat(Num(1), true)
  /** `def foobar(): while True: yield`. */
  const Nones := Repeat(NoneValue, false)

  /** test_argless_boundary: the predicate's first two answers let one value through. */
  lemma ArglessBoundary(clock: nat -> nat, fuel: nat)
    requires fuel >= 1
    ensures Invoke(Bounded(DataFactory(Fibonacci), Factory(Leaf(Argless))), NoArgs, clock, fuel)
            == Ok(Some(Num(1)))
  {
    FibonacciCall(NoArgs);
  }

  /** test_close_is_always_called: `whenall(whenany(bailout))(fibonacci)()`
      is 1, and the run ends with `bailout` closed from outside rather than
      left suspended. */
  lemma CloseIsAlwaysCalled(clock: nat -> nat, fuel: nat)
    requires fuel >= 1
    ensures var o := Run(DataFactory(Fibonacci), Factory(AllOf([Factory(AnyOf([Factory(Leaf(Bailout))]))])),
                         NoArgs, clock, fuel);
            o.result == Produced([Num(1)])
            && o.pred == Some(GroupState(true, [GroupState(false, [LeafState(Bailout, Closed, 3, 0, Some(NoArgs))], Closed)], Closed))
  {
    FibonacciCall(NoArgs);
    var pred := Factory(AllOf([Factory(AnyOf([Factory(Leaf(Bailout))]))]));
    var b0 := LeafState(Bailout, Created, 0, 0, None);
    var inner0 := GroupState(false, [b0], Created);
    InstantiateChildren(false, [Factory(Leaf(Bailout))], [b0]);
    InstantiateChildren(true, [Factory(AnyOf([Factory(Leaf(Bailout))]))], [inner0]);
    BailoutHandshake(clock);
    var outer2 := GroupState(true, [GroupState(false, [LeafState(Bailout, Suspended, 2, 0, Some(NoArgs))], Suspended)], Suspended);
    RunAfterHandshake(DataFactory(Fibonacci), pred, NoArgs, clock, fuel);
    FibonacciStream(0);
    BailoutCycle(clock);
    CyclesStep(FibStart, outer2, [], clock, fuel);
    BailoutClose();
  }

  lemma BailoutHandshake(clock: nat -> nat)
    ensures Handshake(GroupState(true, [GroupState(false, [LeafState(Bailout, Created, 0, 0, None)], Created)], Created), NoArgs, clock)
            == (GroupState(true, [GroupState(false, [LeafState(Bailout, Suspended, 2, 0, Some(NoArgs))], Suspended)], Suspended), Signal(false))
  {
    var b0 := LeafState(Bailout, Created, 0, 0, None);
    var inner0 := GroupState(false, [b0], Created);
    var b1 := LeafState(Bailout, Suspended, 1, 0, None);
    var inner1 := GroupState(false, [b1], Suspended);
    assert Advance(b0, Prime) == (b1, Signal(false));
    GroupPrimeSignal(false, [b0]);
    assert seq(1, j requires 0 <= j < 1 => Advance([b0][j], Prime).0) == [b1];
    assert Advance(inner0, Prime) == (inner1, Signal(false));
    GroupPrimeSignal(true, [inner0]);
    assert seq(1, j requires 0 <= j < 1 => Advance([inner0][j], Prime).0) == [inner1];
    var outer1 := GroupState(true, [inner1], Suspended);
    assert Advance(GroupState(true, [inner0], Created), Prime) == (outer1, Signal(false));
    var a := Args(NoArgs, clock(0));
    var b2 := LeafState(Bailout, Suspended, 2, 0, Some(NoArgs));
    var inner2 := GroupState(false, [b2], Suspended);
    assert Advance(b1, a) == (b2, Signal(false));
    GroupSignal(false, [b1], a);
    assert seq(1, j requires 0 <= j < 1 => Advance([b1][j], a).0) == [b2];
    assert Advance(inner1, a) == (inner2, Signal(false));
    GroupSignal(true, [inner1], a);
    assert seq(1, j requires 0 <= j < 1 => Advance([inner1][j], a).0) == [inner2];
  }

  lemma BailoutCycle(clock: nat -> nat)
    ensures Advance(GroupState(true, [GroupState(false, [LeafState(Bailout, Suspended, 2, 0, Some(NoArgs))], Suspended)], Suspended),
                    Cycle(Num(1), clock(1)))
            == (GroupState(true, [GroupState(false, [LeafState(Bailout, Suspended, 3, 0, Some(NoArgs))], Suspended)], Suspended), Signal(true))
  {
    var c := Cycle(Num(1), clock(1));
    var b2 := LeafState(Bailout, Suspended, 2, 0, Some(NoArgs));
    var inner2 := GroupState(false, [b2], Suspended);
    var b3 := LeafState(Bailout, Suspended, 3, 0, Some(NoArgs));
    var inner3 := GroupState(false, [b3], Suspended);
    assert Advance(b2, c) == (b3, Signal(true));
    GroupSignal(false, [b2], c);
    assert seq(1, j requires 0 <= j < 1 => Advance([b2][j], c).0) == [b3];
    assert Advance(inner2, c) == (inner3, Signal(true));
    GroupSignal(true, [inner2], c);
    assert seq(1, j requires 0 <= j < 1 => Advance([inner2][j], c).0) == [inner3];
  }

  lemma BailoutClose()
    ensures Close(GroupState(true, [GroupState(false, [LeafState(Bailout, Suspended, 3, 0, Some(NoArgs))], Suspended)], Suspended))
            == GroupState(true, [GroupState(false, [LeafState(Bailout, Closed, 3, 0, Some(NoArgs))], Closed)], Closed)
  {
    var b3 := LeafState(Bailout, Suspended, 3, 0, Some(NoArgs));
    var inner3 := GroupState(false, [b3], Suspended);
    var closedLeaf := LeafState(Bailout, Closed, 3, 0, Some(NoArgs));
    assert seq(1, i requires 0 <= i < 1 => Close([b3][i])) == [closedLeaf];
    assert Close(inner3) == GroupState(false, [closedLeaf], Closed);
    assert seq(1, i requires 0 <= i < 1 => Close([inner3][i])) == [GroupState(false, [closedLeaf], Closed)];
  }



  /** test_whenall_with_invalid: a child that ends when it receives the
      call arguments makes the run fail with `RuntimeError`. */
  lemma WhenAllWithInvalid(clock: nat -> nat, fuel: nat)
    ensures Invoke(Bounded(DataFactory(Fibonacci), Factory(AllOf([Factory(Leaf(OnlyPrime)), Factory(Leaf(Times(10)))]))),
                   NoArgs, clock, fuel)
            == Err(RuntimeError)
  {
    FibonacciCall(NoArgs);
    var kids := [LeafState(OnlyPrime, Created, 0, 0, None), LeafState(Times(10), Created, 0, 0, None)];
    InstantiateChildren(true, [Factory(Leaf(OnlyPrime)), Factory(Leaf(Times(10)))], kids);
    var primed := [LeafState(OnlyPrime, Suspended, 1, 0, None), LeafState(Times(10), Suspended, 1, 0, None)];
    GroupPrimeSignal(true, kids);
    assert seq(|kids|, j requires 0 <= j < |kids| => Advance(kids[j], Prime).0) == primed;
    GroupFailsAt(true, primed, Suspended, Args(NoArgs, clock(0)), 0);
  }


  /** test_whenall_with_invalid_befored_terminated: a child that ends at the
      first cycle makes the run fail with `RuntimeError`. */
  lemma WhenAllWithInvalidBeforeTerminated(clock: nat -> nat, fuel: nat)
    requires fuel >= 1
    ensures Invoke(Bounded(DataFactory(Fibonacci), Factory(AllOf([Factory(Leaf(NeverStops)), Factory(Leaf(Times(10)))]))),
                   NoArgs, clock, fuel)
            == Err(RuntimeError)
  {
    FibonacciCall(NoArgs);
    var pred := Factory(AllOf([Factory(Leaf(NeverStops)), Factory(Leaf(Times(10)))]));
    var ready := NeverStopsReady(clock);
    RunAfterHandshake(DataFactory(Fibonacci), pred, NoArgs, clock, fuel);
    FibonacciStream(0);
    GroupFailsAt(true, ready, Suspended, Cycle(Num(1), clock(1)), 0);
  }

  /** The handshake of `whenall(never_stops, times(10))` succeeds and leaves
      both children waiting for the first value. */
  lemma NeverStopsReady(clock: nat -> nat) returns (ready: seq<PredState>)
    ensures var pred := Factory(AllOf([Factory(Leaf(NeverStops)), Factory(Leaf(Times(10)))]));
            && InstantiateArg(pred).Some?
            && Handshake(InstantiateArg(pred).value, NoArgs, clock) == (GroupState(true, ready, Suspended), Signal(false))
    ensures ready == [LeafState(NeverStops, Suspended, 2, 0, Some(NoArgs)), LeafState(Times(10), Suspended, 2, 0, Some(NoArgs))]
  {
    var kids := [LeafState(NeverStops, Created, 0, 0, None), LeafState(Times(10), Created, 0, 0, None)];
    InstantiateChildren(true, [Factory(Leaf(NeverStops)), Factory(Leaf(Times(10)))], kids);
    var primed := [LeafState(NeverStops, Suspended, 1, 0, None), LeafState(Times(10), Suspended, 1, 0, None)];
    GroupPrimeSignal(true, kids);
    assert seq(|kids|, j requires 0 <= j < |kids| => Advance(kids[j], Prime).0) == primed;
    var a := Args(NoArgs, clock(0));
    GroupSignal(true, primed, a);
    ready := [LeafState(NeverStops, Suspended, 2, 0, Some(NoArgs)), LeafState(Times(10), Suspended, 2, 0, Some(NoArgs))];
    assert seq(|primed|, j requires 0 <= j < |primed| => Advance(primed[j], a).0) == ready;
    assert Advance(GroupState(true, primed, Suspended), a) == (GroupState(true, ready, Suspended), Signal(false));
  }

  /** test_invalid_unnamed: a predicate that is not a generator is a
      `TypeError`; one that ends at the handshake is a `RuntimeError`. */
  lemma InvalidUnnamed(clock: nat -> nat, fuel: nat)
    ensures Invoke(Bounded(DataFactory(Nones), NotAGenerator), NoArgs, clock, fuel) == Err(TypeError)
    ensures Invoke(Bounded(DataFactory(Nones), Factory(Leaf(OnlyPrime))), NoArgs, clock, fuel) == Err(RuntimeError)
  {
  }

  /** test_invalid_predicate_early_at_init: the predicate fails before the
      data process (a plain function) is ever asked for a value. */
  lemma EarlyAtInit(clock: nat -> nat, fuel: nat)
    ensures Invoke(Bounded(DataFactory(PlainFunction), Factory(Leaf(OnlyPrime))), NoArgs, clock, fuel)
            == Err(RuntimeError)
  {
  }

  /** test_invalid_predicate_early_at_cycle: the predicate ends at the first
      cycle; the counter is closed after one value and never reaches its
      failing assertion. */
  lemma EarlyAtCycle(clock: nat -> nat, fuel: nat)
    requires fuel >= 1
    ensures var o := Run(DataFactory(CountUpTo(10)), Factory(Leaf(NeverStops)), NoArgs, clock, fuel);
            o.result == Failed(RuntimeError) && o.data == Some(DataProc(CountUpTo(10), Closed, 0, 0, NoneValue))
  {
  }

  /** test_args_are_passed: the predicate sees `(1, 2)` and stops at once;
      with other arguments its assertion fails. */
  lemma ArgsArePassed(clock: nat -> nat, fuel: nat, other: CallArgs)
    requires other != OneTwo
    ensures Invoke(Bounded(DataFactory(Ones), Factory(Leaf(Checker(OneTwo)))), OneTwo, clock, fuel) == Ok(None)
    ensures Invoke(Bounded(DataFactory(Ones), Factory(Leaf(Checker(OneTwo)))), other, clock, fuel) == Err(AssertionError)
  {
  }

  /** test_args_are_passed_to_all, test_plain_function, test_generators:
      every predicate of a combinator, factory or instance, sees the call
      arguments. */
  lemma ArgsArePassedToAll(clock: nat -> nat, fuel: nat)
    ensures Invoke(Bounded(DataFactory(Ones), Factory(AllOf([Factory(Leaf(Checker(OneTwoEgg))), Instance(Leaf(Checker(OneTwoEgg)))]))),
                   OneTwoEgg, clock, fuel) == Ok(None)
    ensures Invoke(Bounded(DataFactory(Ones), Factory(AnyOf([Instance(Leaf(Checker(OneTwoEgg))), Factory(Leaf(Checker(OneTwoEgg)))]))),
                   OneTwoEgg, clock, fuel) == Ok(None)
    ensures Invoke(Bounded(DataFactory(Ones), Factory(AllOf([Factory(Leaf(Checker(OneTwoEgg)))]))),
                   OneTwoEgg, clock, fuel) == Ok(None)
    ensures Invoke(Bounded(DataFactory(Ones), Factory(AllOf([Instance(Leaf(Checker(OneTwoEgg)))]))),
                   OneTwoEgg, clock, fuel) == Ok(None)
  {
    var c := LeafState(Checker(OneTwoEgg), Created, 0, 0, None);
    var f, i := Factory(Leaf(Checker(OneTwoEgg))), Instance(Leaf(Checker(OneTwoEgg)));
    InstantiateChildren(true, [f, i], [c, c]);
    InstantiateChildren(false, [i, f], [c, c]);
    InstantiateChildren(true, [f], [c]);
    InstantiateChildren(true, [i], [c]);
    CheckersStopAtOnce(true, [c, c], clock);
    CheckersStopAtOnce(false, [c, c], clock);
    CheckersStopAtOnce(true, [c], clock);
  }

  /** A combinator of `Checker(OneTwoEgg)` predicates says stop at the handshake. */
  lemma CheckersStopAtOnce(all: bool, cs: seq<PredState>, clock: nat -> nat)
    requires cs != [] && forall j | 0 <= j < |cs| :: cs[j] == LeafState(Checker(OneTwoEgg), Created, 0, 0, None)
    ensures Handshake(GroupState(all, cs, Created), OneTwoEgg, clock).1 == Signal(true)
  {
    GroupPrimeSignal(all, cs);
    var primed := seq(|cs|, j requires 0 <= j < |cs| => Advance(cs[j], Prime).0);
    var a := Args(OneTwoEgg, clock(0));
    GroupSignal(all, primed, a);
    assert Advance(primed[0], a).1 == Signal(true);
  }


  /** test_needs_args: `whenall(times)` with `times` never configured is a `TypeError`. */
  lemma NeedsArgs(clock: nat -> nat, fuel: nat)
    ensures Invoke(Bounded(DataFactory(Nones), Factory(AllOf([Unconfigured]))), NoArgs, clock, fuel) == Err(TypeError)
  {
    InstantiateChildFails(true, [Unconfigured], 0);
  }

  /** test_termination_when_exception: `forever()(magic_number)(0)` ends
      normally and `('invalid')` raises `TypeError`; either way `forever`
      is closed. */
  lemma TerminationWhenException(clock: nat -> nat, fuel: nat)
    requires fuel >= 2
    ensures var o := Run(DataFactory(MagicNumber), Factory(Leaf(Forever)), CallArgs([Num(0)], map[]), clock, fuel);
            o.result == Produced([Num(0)]) && o.pred.Some? && o.pred.value.phase == Closed
    ensures var o := Run(DataFactory(MagicNumber), Factory(Leaf(Forever)), CallArgs([Text("invalid")], map[]), clock, fuel);
            o.result == Failed(TypeError) && o.pred.Some? && o.pred.value.phase == Closed
  {
    var p := DataProc(MagicNumber, Created, 0, 0, Num(0));
    var s := LeafState(Forever, Suspended, 2, 0, Some(CallArgs([Num(0)], map[])));
    assert Handshake(LeafState(Forever, Created, 0, 0, None), CallArgs([Num(0)], map[]), clock) == (s, Signal(false));
    assert Next(p) == (p.(phase := Suspended), Yield(Num(0)));
    CyclesStep(p, s, [], clock, fuel);
    CyclesExhausted(p.(phase := Suspended), s.(steps := 3), [Num(0)], clock, fuel - 1);
  }
}
