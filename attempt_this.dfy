/** The module-level entry point: the process-wide enabled flag, `attempt`
    with its nil check and scenario lookup, and `reset`. */
module AttemptThis {
  import opened Ruby
  import opened AttemptSpec
  import opened AttemptObjects

  /** The state of the AttemptThis module: the `@enabled` flag (nil until
      assigned) and the scenario registry. */
  class AttemptThisModule {
    var enabled: Option<bool>
    const scenarios: Scenarios

    /** Every registered object keeps its own backoff policy. */
    ghost predicate Valid()
      reads this, scenarios, scenarios.table.Values
    {
      scenarios.Valid()
    }

    constructor ()
      ensures enabled.None? && scenarios.table == map[] && fresh(scenarios) && Valid()
    {
      enabled := None;
      scenarios := new Scenarios();
    }

    /** enabled?: retrying is off only after `enabled = false`. */
    function IsEnabled(): (b: bool)
      reads this
      ensures !b <==> enabled == Some(false)
    {
      enabled.None? || enabled.value
    }

    /** enabled=: the last assignment wins; assigning nil turns retrying back on. */
    method SetEnabled(value: Option<bool>)
      modifies this
      ensures enabled == value
    {
      enabled := value;
    }

    /** reset: forget every scenario. */
    method Reset()
      modifies scenarios
      ensures scenarios.table == map[] && Valid()
    {
      scenarios.Reset();
    }

    /** attempt(enumerator, &block): a nil argument raises ArgumentError before
        anything else; otherwise the object registered under a scenario id, or
        a new one, runs the block (see Execute), and is returned to chain
        setters on when there is no block. */
    method Attempt(target: Option<Target>, block: Option<Block>) returns (r: Reply, trace: seq<Event>, impl: AttemptObject?)
      requires Valid()
      modifies scenarios.Footprint()
      ensures Valid() && scenarios.table == old(scenarios.table)
      ensures impl != null ==> impl.Valid()
      ensures forall o :: o in old(scenarios.table.Values) && o != impl ==> unchanged(o) && o.Slots() == old(o.Slots())
      ensures target.None? ==> r == Done(Err(ConfigError)) && trace == [] && impl == null
      ensures target.Some? && target.value.Named? && target.value.id in old(scenarios.table) ==>
                && impl == old(scenarios.table)[target.value.id]
                && impl.Policies() == old(impl.Policies())
                && Response(r, trace, impl.Slots()) == Execute(impl.enumerator, block, IsEnabled(), old(impl.Slots()))
      ensures target.Some? && !(target.value.Named? && target.value.id in old(scenarios.table)) ==>
                && impl != null && fresh(impl) && impl.Policies() == {}
                && impl.enumerator == (if target.value.Budget? then Some(target.value.count) else None)
                && Response(r, trace, impl.Slots()) == Execute(impl.enumerator, block, IsEnabled(), Unconfigured)
    {
      if target.None? {
        return Done(Err(ConfigError)), [], null;
      }
      var obj := scenarios.GetObject(target.value);
      if target.value.Named? && target.value.id in scenarios.table {
        if obj.delayPolicy.Some? && obj.delayPolicy.value.Backoff? {
          assert obj.delayPolicy.value.policy in scenarios.Footprint();
        }
      }
      var on := IsEnabled();
      r, trace := obj.Attempt(block, on);
      impl := obj;
    }
  }
}
