// The container of container_test.go:57-111, resolved through the resolution model: a
// Transient A that depends on a Singleton Counter, and a Singleton B that depends on both.
// Every Init succeeds; the Init of A and of B each increment the counter they are given.

module Scenario {
  import opened Errors
  import opened Types
  import opened Environment
  import opened Resolution

  /** The linked sites, keyed by their names: each depends only on sites of lower rank. */
  function TestPlan(): (p: Plan<string>)
    ensures p.Keys == {"Counter", "A", "B"}
    ensures Ranked(p, TestRank())
  {
    map[
      "Counter" := SiteInfo("Counter", Singleton, []),
      "A" := SiteInfo("A", Transient, ["Counter"]),
      "B" := SiteInfo("B", Singleton, ["A", "Counter"])]
  }

  function TestRank(): map<string, nat>
  {
    map["Counter" := 0, "A" := 1, "B" := 2]
  }

  function Start(): State<string>
  {
    State(map["Counter" := None, "A" := None, "B" := None], 0, [])
  }

  /** Every Init returns nil. */
  function Succeed(): Oracle
  {
    (c: Call, calls: seq<Call>) => None
  }

  // The states the first resolution of B passes through.

  /** The three instances allocated, and the counter's Init called. */
  function AfterCounter(): State<string>
  {
    State(map["Counter" := Some(Ok(2)), "A" := None, "B" := None], 3, [InitCall("Counter", 2, [])])
  }

  function AfterA(): State<string>
  {
    AfterCounter().(calls := AfterCounter().calls + [InitCall("A", 1, [2])])
  }

  function AfterB(): State<string>
  {
    State(map["Counter" := Some(Ok(2)), "A" := None, "B" := Some(Ok(0))], 3,
          AfterA().calls + [InitCall("B", 0, [1, 2])])
  }

  /** The counter, first needed by A's argument loop, gets the third instance. */
  lemma CounterStep()
    ensures Build(TestPlan(), TestRank(), Succeed(), "Counter", NoScope, Start().(next := 2)) ==
            Step(AfterCounter(), NoScope, Ok(2))
  {
    var p, rank, answer := TestPlan(), TestRank(), Succeed();
    var st := Start().(next := 3);
    assert Deps(p, rank, answer, "Counter", 0, [], NoScope, st) == Step(st, NoScope, Ok([]));
    assert Construct(p, rank, answer, "Counter", NoScope, Start().(next := 2)) ==
           Step(st.(calls := [InitCall("Counter", 2, [])]), NoScope, Ok(2));
  }

  /** A, first argument of B, gets the second instance and the counter as its argument. */
  lemma AStep()
    ensures Build(TestPlan(), TestRank(), Succeed(), "A", NoScope, Start().(next := 1)) ==
            Step(AfterA(), NoScope, Ok(1))
  {
    var p, rank, answer := TestPlan(), TestRank(), Succeed();
    CounterStep();
    assert p["A"].deps[0] == "Counter" && [] + [2] == [2];
    assert Deps(p, rank, answer, "A", 1, [2], NoScope, AfterCounter()) == Step(AfterCounter(), NoScope, Ok([2]));
    assert Deps(p, rank, answer, "A", 0, [], NoScope, Start().(next := 2)) == Step(AfterCounter(), NoScope, Ok([2]));
  }

  /** B's argument loop builds A, then finds the counter already built. */
  lemma BArguments()
    ensures Deps(TestPlan(), TestRank(), Succeed(), "B", 0, [], NoScope, Start().(next := 1)) ==
            Step(AfterA(), NoScope, Ok([1, 2]))
  {
    var p, rank, answer := TestPlan(), TestRank(), Succeed();
    AStep();
    assert p["B"].deps[0] == "A" && p["B"].deps[1] == "Counter" && [] + [1] == [1] && [1] + [2] == [1, 2];
    SingletonCached(p, rank, answer, "Counter", NoScope, AfterA());
    assert Deps(p, rank, answer, "B", 2, [1, 2], NoScope, AfterA()) == Step(AfterA(), NoScope, Ok([1, 2]));
    assert Deps(p, rank, answer, "B", 1, [1], NoScope, AfterA()) == Step(AfterA(), NoScope, Ok([1, 2]));
  }

  /** B gets the first instance, and A and the (cached) counter as its arguments. */
  lemma BStep()
    ensures Build(TestPlan(), TestRank(), Succeed(), "B", NoScope, Start()) == Step(AfterB(), NoScope, Ok(0))
  {
    BArguments();
  }

  /**
   * Resolving B (TestSingleton): B's instance is allocated first, then A's, then the
   * counter's; Init runs on the counter, then on A, then on B, and A and B receive the same
   * counter, so A sees the count 1 and B the count 2 ("Only A 1 and B 2"). Resolving B again
   * returns the same instance and calls no Init at all: the counter is not incremented.
   */
  lemma ResolveSingletonTwice()
    ensures var b1 := Build(TestPlan(), TestRank(), Succeed(), "B", NoScope, Start());
      b1.result == Ok(0) &&
      b1.state.calls == [InitCall("Counter", 2, []), InitCall("A", 1, [2]), InitCall("B", 0, [1, 2])] &&
      Build(TestPlan(), TestRank(), Succeed(), "B", NoScope, b1.state) == Step(b1.state, NoScope, Ok(0))
  {
    BStep();
    SingletonCached(TestPlan(), TestRank(), Succeed(), "B", NoScope, AfterB());
  }
}
