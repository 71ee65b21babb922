/** Calls through the public surface, as a program using the library makes
    them: each method's contract is what the library promises for that use. */
module Usage {
  import opened Ruby
  import opened ExceptionTypeFilters
  import opened BinaryBackoff
  import opened AttemptSpec
  import opened AttemptObjects
  import opened AttemptThis

  const Boom: Exn := Exn(RuntimeError, "")

  /** A block that raises RuntimeError on every call. */
  function AlwaysRaises(): Block
  {
    k => Err(Boom)
  }

  /** A RuntimeError is retried under the default StandardError filter. */
  lemma BoomRetriable(s: Slots)
    requires s.filter.None? && s.reset.None?
    ensures forall j: nat :: Retriable(AlwaysRaises()(j), ConfigOf(AttemptSpec.ApplyDefaults(s)))
  {
    DefaultFilterSkipsException("");
  }

  /** Two executions on one configuration whose delay is a backoff from d,
      both on a block that always fails. */
  lemma BackoffTwice(n: nat, d: int)
    requires n >= 1 && d > 0
    ensures var s0 := Unconfigured.(delay := Some(Doubling(d)));
            var x1 := Execute(Some(n), Some(AlwaysRaises()), true, s0);
            var x2 := Execute(Some(n), Some(AlwaysRaises()), true, x1.slots);
            && Select(x1.trace, DelayTag) == DelaysFor(Schedule(d, n - 1))
            && Select(x2.trace, DelayTag) == DelaysFor(Schedule(d * Pow2(n - 1), n - 1))
            && x1.reply == Done(Err(Boom)) && x2.reply == Done(Err(Boom))
  {
    var b := AlwaysRaises();
    var s0 := Unconfigured.(delay := Some(Doubling(d)));
    BoomRetriable(s0);
    var cfg := ConfigOf(AttemptSpec.ApplyDefaults(s0));
    ReusedPolicyKeepsDoubling(n, b, b, s0, d);
    AlwaysFailing(n, b, cfg, Doubling(d));
    AlwaysFailing(n, b, cfg, Doubling(d * Pow2(n - 1)));
    DoublingDelays(n, b, cfg, d);
  }

  /** `attempt(n.times).with_binary_backoff(d).scenario(id)` on a new module
      state: the object is registered under id and holds only the backoff. */
  method BackoffScenario(n: nat, d: int, id: string) returns (m: AttemptThisModule, impl: AttemptObject)
    requires d > 0
    ensures fresh(m) && fresh(m.scenarios) && fresh(impl) && fresh(impl.Policies())
    ensures m.enabled.None? && m.scenarios.table == map[id := impl] && m.Valid()
    ensures impl.enumerator == Some(n) && impl.Slots() == Unconfigured.(delay := Some(Doubling(d)))
  {
    m := new AttemptThisModule();
    var r, t, obj := m.Attempt(Some(Budget(n)), None);
    r, t := obj.WithBinaryBackoff(Seconds(d), None, true);
    r := obj.Scenario(m.scenarios, Some(id));
    impl := obj;
  }

  /** The scenario above run twice on a block that always fails: the first
      execution sleeps d, 2d, ..., the second continues the doubling where
      the first stopped instead of starting over at d, and both raise the
      block's failure (RuntimeError passes the default filter, so every
      attempt is made). */
  method BackoffAcrossExecutions(n: nat, d: int, id: string) returns (first: seq<Event>, second: seq<Event>, r1: Reply, r2: Reply)
    requires n >= 1 && d > 0
    ensures Select(first, DelayTag) == DelaysFor(Schedule(d, n - 1))
    ensures Select(second, DelayTag) == DelaysFor(Schedule(d * Pow2(n - 1), n - 1))
    ensures r1 == Done(Err(Boom)) && r2 == Done(Err(Boom))
  {
    var m, impl := BackoffScenario(n, d, id);
    ghost var x1 := Execute(Some(n), Some(AlwaysRaises()), true, impl.Slots());
    var used;
    r1, first, used := m.Attempt(Some(Named(id)), Some(AlwaysRaises()));
    assert Response(r1, first, impl.Slots()) == x1;
    ghost var x2 := Execute(Some(n), Some(AlwaysRaises()), true, impl.Slots());
    r2, second, used := m.Attempt(Some(Named(id)), Some(AlwaysRaises()));
    assert Response(r2, second, impl.Slots()) == x2;
    BackoffTwice(n, d);
  }

  /** With `enabled = false` the block runs once, its failure passes straight
      through, and nothing else happens. */
  method DisabledRunsOnce() returns (r: Reply, trace: seq<Event>)
    ensures r == Done(Err(Boom)) && trace == [Work(0)]
  {
    var m := new AttemptThisModule();
    m.SetEnabled(Some(false));
    var impl;
    r, trace, impl := m.Attempt(Some(Budget(5)), Some(AlwaysRaises()));
  }

  /** `attempt(n.times).scenario(id)` on a new module state: the object is
      registered under id and nothing is configured. */
  method PlainScenario(n: nat, id: string) returns (m: AttemptThisModule, impl: AttemptObject)
    ensures fresh(m) && fresh(m.scenarios) && fresh(impl)
    ensures m.enabled.None? && m.scenarios.table == map[id := impl] && m.Valid()
    ensures impl.enumerator == Some(n) && impl.Slots() == Unconfigured && impl.Policies() == {}
  {
    m := new AttemptThisModule();
    var r, t, obj := m.Attempt(Some(Budget(n)), None);
    r := obj.Scenario(m.scenarios, Some(id));
    impl := obj;
  }

  /** Once a scenario has run, its delay slot holds the default and a later
      `with_delay` on it raises ArgumentError. */
  method LateDelayRefused(n: nat, seconds: nat, id: string, block: Block) returns (late: Reply)
    ensures late == Done(Err(ConfigError))
  {
    var m, impl := PlainScenario(n, id);
    var r, t, used := m.Attempt(Some(Named(id)), Some(block));
    FrozenAfterExecution(Some(n), block, Unconfigured, SetDelay(Seconds(seconds)));
    late, t := used.WithDelay(Seconds(seconds), None, true);
  }

  /** An `attempt` for an enumerator makes a new object that shares nothing
      with a registered scenario: it accepts a delay whatever the scenario
      has been through. */
  method FreshObjectAccepts(n: nat, seconds: nat, id: string, block: Block) returns (other: Reply)
    ensures other == Chain
  {
    var m, impl := PlainScenario(n, id);
    var r, t, used := m.Attempt(Some(Named(id)), Some(block));
    r, t, used := m.Attempt(Some(Budget(n)), None);
    other, t := used.WithDelay(Seconds(seconds), None, true);
  }

  /** An id can be registered once; after `reset` it can be registered again,
      and the empty string is an id like any other. */
  method ResetFreesIds(id: string) returns (again: Reply, afterReset: Reply, empty: Reply)
    requires id != ""
    ensures again == Done(Err(ConfigError))
    ensures afterReset == Chain && empty == Chain
  {
    var m, a := PlainScenario(1, id);
    var r, t, b := m.Attempt(Some(Budget(1)), None);
    again := b.Scenario(m.scenarios, Some(id));
    m.Reset();
    afterReset := b.Scenario(m.scenarios, Some(id));
    empty := b.Scenario(m.scenarios, Some(""));
  }
}
