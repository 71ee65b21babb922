/** The retry policy object: its configuration slots, the setters that fill
    them, the two-phase execution loop (retriable attempts, then a final one)
    and the registry of named scenarios. */
module AttemptObjects {
  import opened Ruby
  import opened ExceptionTypeFilters
  import opened BinaryBackoff
  import opened AttemptSpec

  /** What the delay slot holds: a random sleep over lo..hi, a binary backoff
      policy object, or the `lambda{}` installed by apply_defaults. */
  datatype DelayPolicy = Sleeper(lo: int, hi: int) | Backoff(policy: BinaryBackoffPolicy) | Idle

  /** How far each_retriable_attempt got through the enumerator. */
  datatype Phase = Empty | Skipped | Attempted

  /** How each_retriable_attempt ends: it runs out of elements in some phase,
      or an attempt leaves `attempt` early (the block's value returned from
      `attempt` itself, or an exception the filter does not accept). */
  datatype Exit = Finished(phase: Phase) | Returned(outcome: Outcome)

  /** What an id given to `attempt` is: an enumerator of n elements (never a
      registered id, since every call builds a new enumerator), or a scenario id. */
  datatype Target = Budget(count: nat) | Named(id: string)

  class AttemptObject {
    /** The enumerator's element count; None when the object was made for an
        id that is not an enumerator. */
    const enumerator: Option<nat>
    var delayPolicy: Option<DelayPolicy>
    var resetMethod: Option<Callable>
    var defaultMethod: Option<Callable>
    var exceptionFilter: Option<ExceptionTypeFilter>

    constructor (enumerator: Option<nat>)
      ensures this.enumerator == enumerator
      ensures delayPolicy.None? && resetMethod.None? && defaultMethod.None? && exceptionFilter.None?
      ensures Valid()
    {
      this.enumerator := enumerator;
      delayPolicy, resetMethod, defaultMethod, exceptionFilter := None, None, None, None;
    }

    /** A backoff policy in the delay slot was made by this object, so no two
        objects share one (with_binary_backoff always builds a new policy). */
    ghost predicate Valid()
      reads this
    {
      delayPolicy.Some? && delayPolicy.value.Backoff? ==> delayPolicy.value.policy.owner == this
    }

    /** The backoff policy object this object owns, if any. */
    function Policies(): set<object>
      reads this
    {
      if delayPolicy.Some? && delayPolicy.value.Backoff? then {delayPolicy.value.policy} else {}
    }

    function DelayNow(): DelayState
      requires delayPolicy.Some?
      reads this, Policies()
    {
      match delayPolicy.value
      case Sleeper(lo, hi) => Uniform(lo, hi)
      case Backoff(p) => Doubling(p.delay)
      case Idle => Silent
    }

    /** The configuration as values. */
    function Slots(): Slots
      reads this, Policies()
    {
      AttemptSpec.Slots(if delayPolicy.None? then None else Some(DelayNow()),
            resetMethod, defaultMethod, exceptionFilter)
    }

    /** Defaults have been applied: everything but the default method is set. */
    predicate Ready()
      reads this
    {
      delayPolicy.Some? && resetMethod.Some? && exceptionFilter.Some?
    }

    function Current(): Config
      requires Ready()
      reads this
    {
      Config(resetMethod.value, defaultMethod, exceptionFilter.value)
    }

    /** attempt(block): see Execute. `enabled` stands for
        `AttemptThis.enabled?` at the time of the call: the module passes its
        `IsEnabled()`; every setter below forwards its own `enabled`
        argument, and callers are to pass the module's `IsEnabled()`. */
    method Attempt(block: Option<Block>, enabled: bool) returns (r: Reply, trace: seq<Event>)
      requires Valid()
      modifies this, Policies()
      ensures Valid()
      ensures Policies() == old(Policies())
      ensures Response(r, trace, Slots()) == Execute(enumerator, block, enabled, old(Slots()))
    {
      if block.None? {
        return Chain, [];
      }
      if !enabled {
        return Done(block.value(0)), [Work(0)];
      }
      ApplyDefaults();
      if enumerator.None? {
        return Done(Err(NotEnumerable)), [];
      }
      ghost var cfg, ds0 := Current(), DelayNow();
      ghost var d := Slots();
      assert d == AttemptSpec.ApplyDefaults(old(Slots())) && ConfigOf(d) == cfg;
      var n := enumerator.value;
      ghost var whole := Run(n, block.value, cfg, ds0);
      var exit;
      exit, trace := EachRetriableAttempt(block.value);
      match exit
      case Returned(o) =>
        r := Done(o);
      case Finished(phase) =>
        if phase == Empty {
          r := Done(Ok(Nil));
        } else {
          ghost var ds, before := DelayNow(), trace;
          var lead: seq<Event> := [];
          if phase != Skipped {
            var s := CallDelay();
            lead := [Delay(s)];
          }
          var o, t := FinalAttempt(block.value, n - 1);
          FinalStep(whole, before, n, block.value, cfg, ds);
          trace := trace + (lead + t);
          r := Done(o);
        }
      assert whole == Execution(r.outcome, trace, DelayNow());
    }

    /** apply_defaults. */
    method ApplyDefaults()
      modifies this
      ensures Ready() && Slots() == AttemptSpec.ApplyDefaults(old(Slots()))
      ensures Policies() == old(Policies())
    {
      if delayPolicy.None? {
        delayPolicy := Some(Idle);
      }
      if resetMethod.None? {
        resetMethod := Some(NoOp);
      }
      if exceptionFilter.None? {
        exceptionFilter := Some(DefaultFilter);
      }
    }

    /** One call of the delay policy: the sleep it makes, and the policy moves on. */
    method CallDelay() returns (s: Sleep)
      requires delayPolicy.Some?
      modifies Policies()
      ensures s == SleepOf(old(DelayNow())) && DelayNow() == Advance(old(DelayNow()))
    {
      match delayPolicy.value
      case Sleeper(lo, hi) =>
        s := SleepWithin(lo, hi);
      case Backoff(p) =>
        var d := p.Call();
        s := SleepWithin(d, d);
      case Idle =>
        s := NoSleep;
    }

    /** attempt_with_reset: call the block; on failure call the reset method
        and raise again (the reset method's own exception, if it raises). */
    method AttemptWithReset(block: Block, i: nat) returns (o: Outcome, t: seq<Event>)
      requires Ready()
      ensures o == AttemptSpec.ResetOutcome(block(i), Current().reset)
      ensures t == [Work(i)] + (if block(i).Err? then [Reset] else [])
    {
      o := block(i);
      t := [Work(i)];
      if o.Err? {
        t := t + [Reset];
        var reset := resetMethod.value.result;
        if reset.Err? {
          o := reset;
        }
      }
    }

    /** final_attempt: a failure becomes the default method's result only when
        a default method is set and the filter accepts the failure. */
    method FinalAttempt(block: Block, i: nat) returns (o: Outcome, t: seq<Event>)
      requires Ready()
      ensures o == Verdict(block(i), true, Current())
      ensures t == [Work(i)] + (if block(i).Err? then [Reset] else [])
                   + (if Retriable(block(i), Current()) && defaultMethod.Some? then [Fallback] else [])
    {
      o, t := AttemptWithReset(block, i);
      if o.Err? && defaultMethod.Some? && Includes(exceptionFilter.value, o.error) {
        o := defaultMethod.value.result;
        t := t + [Fallback];
      }
    }

    /** The body of each_retriable_attempt for one element after the first:
        the delay (none before the first attempt), then attempt i with reset. */
    method RetriableAttempt(block: Block, i: nat) returns (o: Outcome, t: seq<Event>)
      requires Ready()
      modifies Policies()
      ensures Ready() && Current() == old(Current())
      ensures o == AttemptSpec.ResetOutcome(block(i), Current().reset)
      ensures o.Ok? || !Includes(exceptionFilter.value, o.error) <==> !Retriable(block(i), Current())
      ensures t == Round(i, old(DelayNow()), block(i).Err?)
      ensures DelayNow() == After(i, old(DelayNow()))
    {
      var lead: seq<Event> := [];
      if i > 0 {
        var s := CallDelay();
        lead := [Delay(s)];
      }
      var u;
      o, u := AttemptWithReset(block, i);
      t := lead + u;
    }

    /** each_retriable_attempt: the first element only moves the phase from
        Empty to Skipped; each later element is one retriable attempt, preceded
        by a delay unless it is the first attempt. A success or a rejected
        failure leaves early; when the elements run out, the final attempt is
        what remains of Run. */
    method EachRetriableAttempt(block: Block) returns (exit: Exit, trace: seq<Event>)
      requires enumerator.Some? && Ready()
      modifies Policies()
      ensures Ready()
      ensures var n := enumerator.value;
              var x := Run(n, block, Current(), old(DelayNow()));
              match exit
              case Returned(o) => Execution(o, trace, DelayNow()) == x
              case Finished(phase) =>
                && phase == (if n == 0 then Empty else if n == 1 then Skipped else Attempted)
                && (n == 0 ==> trace == [] && DelayNow() == old(DelayNow()))
                && (n > 0 ==> x == Then(trace, RunFrom(n - 1, n, block, Current(), DelayNow())))
    {
      var n := enumerator.value;
      ghost var cfg, ds0 := Current(), DelayNow();
      ghost var whole := Run(n, block, cfg, ds0);
      var phase := Empty;
      trace := [];
      var k := 0;
      while k < n
        invariant 0 <= k <= n
        invariant Ready() && Current() == cfg
        invariant phase == (if k == 0 then Empty else if k == 1 then Skipped else Attempted)
        invariant k == 0 ==> trace == [] && DelayNow() == ds0
        invariant k > 0 ==> whole == Then(trace, RunFrom(k - 1, n, block, cfg, DelayNow()))
      {
        if phase == Empty {
          phase := Skipped;
          k := k + 1;
          continue;
        }
        ghost var ds := DelayNow();
        var o, t := RetriableAttempt(block, k - 1);
        phase := Attempted;
        if o.Ok? || !Includes(exceptionFilter.value, o.error) {
          Stop(whole, trace, k - 1, n, block, cfg, ds);
          trace := trace + t;
          exit := Returned(o);
          return;
        }
        Carry(whole, trace, k, n, block, cfg, ds);
        assert block(k - 1).Err? && t == Round(k - 1, ds, true);
        trace := trace + t;
        k := k + 1;
      }
      exit := Finished(phase);
    }
  
    /** with_delay: a non-negative number of seconds, or an inclusive range of
        them, sleeps a random whole number of seconds within it; the delay
        slot must be unset. Then attempt with the block. */
    method WithDelay(arg: DelayArg, block: Option<Block>, enabled: bool) returns (r: Reply, trace: seq<Event>)
      requires Valid()
      modifies this, Policies()
      ensures Valid()
      ensures Response(r, trace, Slots()) == Setter(enumerator, old(Slots()), SetDelay(arg), block, enabled)
    {
      var lo, hi;
      match arg {
        case Seconds(s) =>
          if s < 0 {
            return Done(Err(ConfigError)), [];
          }
          lo, hi := s, s;
        case Interval(first, last) =>
          if !(first >= 0 && last >= 0) || !(first <= last) {
            return Done(Err(ConfigError)), [];
          }
          lo, hi := first, last;
        case NonNumeric =>
          return Done(Err(ConfigError)), [];
      }
      if delayPolicy.Some? {
        return Done(Err(ConfigError)), [];
      }
      delayPolicy := Some(Sleeper(lo, hi));
      r, trace := Attempt(block, enabled);
    }

    /** with_reset: a non-nil reset method, once. Then attempt with the block. */
    method WithReset(reset: Option<Callable>, block: Option<Block>, enabled: bool) returns (r: Reply, trace: seq<Event>)
      requires Valid()
      modifies this, Policies()
      ensures Valid()
      ensures Response(r, trace, Slots()) == Setter(enumerator, old(Slots()), SetReset(reset), block, enabled)
    {
      if reset.None? || resetMethod.Some? {
        return Done(Err(ConfigError)), [];
      }
      resetMethod := reset;
      r, trace := Attempt(block, enabled);
    }

    /** and_default_to: a non-nil default method, once. Then attempt with the block. */
    method AndDefaultTo(fallback: Option<Callable>, block: Option<Block>, enabled: bool) returns (r: Reply, trace: seq<Event>)
      requires Valid()
      modifies this, Policies()
      ensures Valid()
      ensures Response(r, trace, Slots()) == Setter(enumerator, old(Slots()), SetDefault(fallback), block, enabled)
    {
      if fallback.None? || defaultMethod.Some? {
        return Done(Err(ConfigError)), [];
      }
      defaultMethod := fallback;
      r, trace := Attempt(block, enabled);
    }

    /** with_binary_backoff: a positive number of seconds starts a new backoff
        policy; the delay slot must be unset. Then attempt with the block. */
    method WithBinaryBackoff(initial: DelayArg, block: Option<Block>, enabled: bool) returns (r: Reply, trace: seq<Event>)
      requires Valid()
      modifies this, Policies()
      ensures Valid()
      ensures Response(r, trace, Slots()) == Setter(enumerator, old(Slots()), SetBackoff(initial), block, enabled)
      ensures fresh(Policies() - old(Policies()))
    {
      if !initial.Seconds? || initial.seconds <= 0 || delayPolicy.Some? {
        return Done(Err(ConfigError)), [];
      }
      var policy := new BinaryBackoffPolicy(initial.seconds, this);
      delayPolicy := Some(Backoff(policy));
      r, trace := Attempt(block, enabled);
    }

    /** with_filter: a non-empty list, each member Exception or a subclass of
        it, once. Then attempt with the block. */
    method WithFilter(classes: seq<Klass>, block: Option<Block>, enabled: bool) returns (r: Reply, trace: seq<Event>)
      requires Valid()
      modifies this, Policies()
      ensures Valid()
      ensures Response(r, trace, Slots()) == Setter(enumerator, old(Slots()), SetFilter(classes), block, enabled)
    {
      if |classes| == 0 {
        return Done(Err(ConfigError)), [];
      }
      var i := 0;
      while i < |classes|
        invariant 0 <= i <= |classes|
        invariant forall j :: 0 <= j < i ==> IsA(classes[j], Exception)
      {
        if !IsA(classes[i], Exception) {
          return Done(Err(ConfigError)), [];
        }
        i := i + 1;
      }
      if exceptionFilter.Some? {
        return Done(Err(ConfigError)), [];
      }
      exceptionFilter := Some(ExceptionTypeFilter(classes));
      r, trace := Attempt(block, enabled);
    }

    /** scenario(id): register this object under a new, non-nil id; returns
        the object itself. */
    method Scenario(registry: Scenarios, id: Option<string>) returns (r: Reply)
      requires Valid() && registry.Valid()
      modifies registry
      ensures registry.Valid()
      ensures match Register(old(registry.table), id, this)
              case None => r == Done(Err(ConfigError)) && registry.table == old(registry.table)
              case Some(table) => r == Chain && registry.table == table
    {
      if id.None? || id.value in registry.table {
        return Done(Err(ConfigError));
      }
      registry.table := registry.table[id.value := this];
      r := Chain;
    }
  }

  /** The class-level table of scenarios, by id. */
  class Scenarios {
    var table: map<string, AttemptObject>

    constructor ()
      ensures table == map[] && Valid()
    {
      table := map[];
    }

    /** Every registered object keeps its own backoff policy. */
    ghost predicate Valid()
      reads this, table.Values
    {
      forall o :: o in table.Values ==> o.Valid()
    }

    /** The registered objects and the backoff policies they own. */
    function Footprint(): set<object>
      reads this, table.Values
    {
      table.Values + set o | o in table.Values && o.delayPolicy.Some? && o.delayPolicy.value.Backoff?
                             :: o.delayPolicy.value.policy
    }

    /** AttemptObject.reset: forget every scenario. */
    method Reset()
      modifies this
      ensures table == map[] && Valid()
    {
      table := map[];
    }

    /** get_object: the object registered under a scenario id, otherwise a new
        unconfigured object for the given enumerator or id. */
    method GetObject(target: Target) returns (impl: AttemptObject)
      ensures target.Named? && target.id in table ==> impl == table[target.id]
      ensures !(target.Named? && target.id in table) ==>
                && fresh(impl) && impl.Slots() == Unconfigured && impl.Policies() == {} && impl.Valid()
                && impl.enumerator == (if target.Budget? then Some(target.count) else None)
    {
      if target.Named? && target.id in table {
        impl := table[target.id];
      } else {
        impl := new AttemptObject(if target.Budget? then Some(target.count) else None);
      }
    }
  }
}
