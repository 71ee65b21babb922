# attempt_this in Dafny

A model of the retry engine of the Ruby gem `attempt_this`, with proofs about
it. `AttemptThis.attempt(enumerator) { ... }` runs a block, and retries it
when it raises. It makes at most as many attempts as the enumerator has
elements. Between attempts it waits, using the delay policy. After every
failure it calls a reset method. When every attempt has failed, it returns
what a default method gives.

Chained setters configure the policy object:

- `with_delay`
- `with_binary_backoff`
- `with_reset`
- `and_default_to`
- `with_filter`

`scenario(id)` registers a configured object under an id. Later calls of
`attempt(id)` reuse that object, its delay policy included.

Modules (one file each):

- `Ruby` (`ruby.dfy`): optional values, the single-inheritance class tree
  that `is_a?` and `e <= Exception` walk, and values, exceptions and outcomes.
- `ExceptionTypeFilters` (`exception_type_filter.dfy`): the type filter.
  It is a pure value.
- `BinaryBackoff` (`binary_backoff_policy.dfy`): the backoff policy. It is a
  class whose `Call` sleeps for the stored delay and then doubles it. The
  sequence of sleeps is given as `Schedule`.
- `AttemptSpec` (`attempt_spec.dfy`): the behaviour as a specification.
  - `Run` and `RunFrom` give one execution over a budget of n attempts as a
    plain recursive description. An execution is the result, the trace of
    effects and the delay policy afterwards. The trace records calls, resets,
    delays and the default method.
  - `Execute` is one call of `attempt`.
  - `Configure` and `Setter` are the setters' checks.
  - `Register` is the scenario table.
  - The lemmas prove what the gem promises about these.
- `AttemptObjects` (`attempt_object.dfy`): the class `AttemptObject`, with
  its four configuration fields and its methods.
  - The two-phase loop (`each_retriable_attempt`, then the final attempt) is
    proved equal to `Run`.
  - Each setter is proved equal to `Setter`.
  - The class `Scenarios` is the class-level `@@scenarios` table.
- `AttemptThis` (`attempt_this.dfy`): the module state. It holds the
  `@enabled` flag and the entry point `attempt`, which raises on a nil
  enumerator, then looks up or creates the object. It also holds `reset`.
- `Usage` (`usage.dfy`): whole-library uses, checked against their
  contracts:
  - backoff continues across executions of a scenario;
  - disabled mode runs the block once;
  - setters are refused after a run;
  - ids can be registered again after `reset`.

How the model represents the Ruby program:

- **The block.** A block is a function from the attempt number to an
  outcome: a value, or a raised exception.
- **Reset and default methods.** These are known by what calling them
  yields. When the reset method raises, that exception leaves
  `attempt_with_reset` from the call at `lib/attempt_this/attempt_object.rb:150`,
  and the re-raise at line 151 never runs, so the caller sees the reset's
  exception instead of the block's.
- **The enumerator.** Only its length matters (`Budget(n)`). `each` starts
  over on every execution, so a scenario makes n attempts every time.
- **Ids.** A scenario id is a string (`Named(id)`).
  - Looking up an id that is not registered makes an object whose
    "enumerator" is that id.
  - That object's `each` raises NoMethodError. The model has it fail with
    `NotEnumerable` before any call.
- **Sleeps.** A sleep is recorded as the interval it is drawn from:
  `SleepWithin(lo, hi)`, exact when `lo == hi`. `Kernel.sleep` itself is an
  effect in the trace.
- **Integers.** Integers are unbounded, as Ruby's are.
- **Policy ownership.** Each backoff policy carries a ghost `owner`, the
  object that made it. `AttemptObject.Valid()` says an object's policy is
  its own, so running one registered object cannot change another. This is
  bookkeeping for the proofs; the Ruby objects have no such field.
- **The enabled flag.** `AttemptObject.Attempt` and the setters take
  `enabled` as a parameter. `AttemptThisModule` passes its `IsEnabled()`,
  as `AttemptThis.enabled?` is read in `lib/attempt_this/attempt_object.rb:27`.

Behaviour of the code that the model pins down (only the empty id
contradicts one of the gem's own tests; the model follows the code there):

- The reset method is called after every failure, including one the filter
  rejects, before the failure propagates (`lib/attempt_this/attempt_object.rb:147-152`
  runs before the check at line 141).
- `scenario('')` is accepted: only `nil` and ids already taken raise.
  `spec/scenarios_spec.rb:15-17` expects an ArgumentError there.
  `Usage.ResetFreesIds` states the accepted behaviour.
- A scenario's backoff policy is never reset between executions.
  `ReusedPolicyKeepsDoubling` and `Usage.BackoffAcrossExecutions` state
  this.

## Model

| member | source | states |
|---|---|---|
| Ruby.IsA | lib/attempt_this/exception_type_filter.rb:11 | `is_a?`: the class is c or has c among its superclasses (a definition; its properties are the lemmas below) |
| Ruby.IsATransitive | lib/attempt_this/exception_type_filter.rb:11 | `is_a?` is transitive along the superclass chain |
| Ruby.IsADepth | lib/attempt_this/exception_type_filter.rb:11 | an ancestor is never deeper than its descendant, and equally deep only when it is the same class |
| Ruby.IsAAntisymmetric | lib/attempt_this/attempt_object.rb:95 | two classes that are each other's ancestor are the same: `<=` on classes is a partial order |
| ExceptionTypeFilters.AnyIsAMeaning | lib/attempt_this/exception_type_filter.rb:11 | `any?` over the list holds iff some listed class is the class or one of its ancestors |
| ExceptionTypeFilters.Includes | lib/attempt_this/exception_type_filter.rb:10-12 | `include?` as `any?` over the listed classes (a definition; `IncludesMeaning` states what it means) |
| ExceptionTypeFilters.IncludesMeaning | lib/attempt_this/exception_type_filter.rb:10-12 | `include?` holds iff the exception `is_a?` some listed class; an empty list matches nothing |
| ExceptionTypeFilters.SubclassMatches | lib/attempt_this/exception_type_filter.rb:10-12 | an exception of a subclass of a matched class is matched too |
| ExceptionTypeFilters.AncestorDoesNotMatch | lib/attempt_this/exception_type_filter.rb:10-12 | an exception whose class is a strict ancestor of every listed class is not matched |
| ExceptionTypeFilters.DefaultFilterSkipsException | lib/attempt_this/attempt_object.rb:126 | the default `[StandardError]` filter rejects a plain Exception and accepts a RuntimeError |
| ExceptionTypeFilters.IncludesMonotonic | lib/attempt_this/exception_type_filter.rb:5-12 | listing more classes never turns a match into a non-match |
| ExceptionTypeFilters.IncludesOrderIrrelevant | lib/attempt_this/exception_type_filter.rb:5-12 | two lists that name the same classes, in any order and with any repetition, give the same verdict |
| BinaryBackoff.Schedule | lib/attempt_this/binary_backoff_policy.rb:10-13 | the sleeps of k calls on a policy seeded with d; there are exactly k of them |
| BinaryBackoff.ScheduleAt | lib/attempt_this/binary_backoff_policy.rb:10-13 | the j-th sleep of a policy seeded with d lasts d * 2^j |
| BinaryBackoff.ScheduleIncreasing | lib/attempt_this/binary_backoff_policy.rb:10-13 | with a positive seed, successive sleeps strictly increase |
| BinaryBackoff.ScheduleSnoc | lib/attempt_this/binary_backoff_policy.rb:10-13 | one more call appends the current delay times 2^k to the sleeps so far |
| BinaryBackoff.BinaryBackoffPolicy.constructor | lib/attempt_this/binary_backoff_policy.rb:5-7 | the stored delay is the initial delay |
| BinaryBackoff.BinaryBackoffPolicy.Call | lib/attempt_this/binary_backoff_policy.rb:10-13 | sleeps for the stored delay and leaves it doubled |
| BinaryBackoff.DoublingExample | lib/attempt_this/binary_backoff_policy.rb:10-13 | three calls on a policy seeded with 1 sleep 1, 2 and 4 seconds, which is `Schedule(1, 3)` |
| AttemptSpec.Run | lib/attempt_this/attempt_object.rb:24-41 | one enabled execution over n attempts as a recursive description (a definition; the lemmas below state its properties) |
| AttemptSpec.RunFrom | lib/attempt_this/attempt_object.rb:129-152 | the execution from attempt i on: delay unless first, call, reset on failure, stop unless retriable and not last (a definition) |
| AttemptSpec.ResetOutcome | lib/attempt_this/attempt_object.rb:147-152 | a success passes through; a failure stays a failure; it stays the block's own unless the reset method raises |
| AttemptSpec.LastAttemptFacts | lib/attempt_this/attempt_object.rb:129-145 | every attempt before the last one made failed retriably, and a last attempt before the n-th did not |
| AttemptSpec.RunFromWorks | lib/attempt_this/attempt_object.rb:129-145 | the block is called for attempts i, i+1, ..., up to the last attempt, in order and once each |
| AttemptSpec.RunFromResets | lib/attempt_this/attempt_object.rb:147-152 | one reset per failed call: every attempt before the last, and the last unless it succeeded |
| AttemptSpec.RunFromDelays | lib/attempt_this/attempt_object.rb:136 | one delay per attempt after the first of the execution |
| AttemptSpec.RunFromFallbacks | lib/attempt_this/attempt_object.rb:115-121 | the default method runs at most once, and only after a retriable failure of attempt n |
| AttemptSpec.RunFromSeparates | lib/attempt_this/attempt_object.rb:129-145 | every delay is followed at once by a call, and every call but the first comes right after a delay |
| AttemptSpec.RunFromOutcome | lib/attempt_this/attempt_object.rb:115-121 | the result is the last call's value, the default method's result after a final retriable failure, or the last failure; the trace ends with that call, its reset or the default method, never with a delay |
| AttemptSpec.RunShape | lib/attempt_this/attempt_object.rb:24-41 | an empty budget calls nothing and returns nil; otherwise calls are in order and at most n, each delay is immediately followed by a call after the first, each such call is immediately preceded by a delay (so exactly one delay per gap), none before the first call or after the last, and at most one default method |
| AttemptSpec.FirstEventIsFirstCall | lib/attempt_this/attempt_object.rb:129-135 | no delay precedes the first call: the first element of the enumerator is only skipped |
| AttemptSpec.AlwaysFailing | lib/attempt_this/attempt_object.rb:24-41 | a block that always fails retriably is called n times, reset n times and separated by n-1 delays; the execution ends with the default method if set, else re-raises the last failure |
| AttemptSpec.FirstStopIsLast | lib/attempt_this/attempt_object.rb:129-145 | the first attempt that does not fail retriably is the last one made |
| AttemptSpec.SucceedsAt | lib/attempt_this/attempt_object.rb:32-34 | a success at attempt k after k retriable failures returns its value, after k resets and k delays, with no default method |
| AttemptSpec.RejectedFailureStops | lib/attempt_this/attempt_object.rb:138-142 | a failure the filter rejects ends the execution at once, re-raised after its reset, without the default method, whatever budget remains |
| AttemptSpec.FallbackOnlyAfterExhaustion | lib/attempt_this/attempt_object.rb:115-121 | the default method runs iff it is set and every attempt of a non-empty budget failed retriably; it then runs once, last, and gives the result |
| AttemptSpec.DoublingDelays | lib/attempt_this/binary_backoff_policy.rb:10-13 | under backoff from d, the delays an execution makes (attempt_object.rb:38 and 136) are d, 2d, 4d, ...; the policy leaves doubled once per delay |
| AttemptSpec.SteadyDelays | lib/attempt_this/attempt_object.rb:57 | a fixed, random-range or no-op policy sleeps within the same interval every time and never changes |
| AttemptSpec.BackoffOverFourAttempts | lib/attempt_this/attempt_object.rb:81-88 | four failing attempts with backoff seeded with 1 sleep exactly 1, 2 and 4 seconds |
| AttemptSpec.FixedDelaySleepsExactly | spec/attempt_spec.rb:98-101 | `attempt(3.times).with_delay(5)` (and `with_delay(5..5)`, lines 131-134) on a block that always raises RuntimeError sleeps exactly 5 seconds twice, calls the block three times and raises its failure |
| AttemptSpec.ApplyDefaults | lib/attempt_this/attempt_object.rb:123-127 | an unset delay becomes the no-op delay (`Silent`), an unset reset the no-op reset, an unset filter `[StandardError]`; a set slot keeps its value and the default method is untouched |
| AttemptSpec.Execute | lib/attempt_this/attempt_object.rb:24-41 | no block returns the receiver and changes nothing; disabled runs the block once, with no other effect; enabled applies the defaults and ends with an outcome; an id that is not an enumerator fails before any call |
| AttemptSpec.ReusedPolicyKeepsDoubling | lib/attempt_this/attempt_object.rb:81-88 | after an all-failing execution, a reused backoff policy stores d * 2^(n-1) and the next execution's delays double on from there |
| AttemptSpec.UniformFor | lib/attempt_this/attempt_object.rb:46-57 | `with_delay(s)` sleeps within [s, s] and `with_delay(a..b)` within [a, b]; for a valid argument the interval is non-negative |
| AttemptSpec.ValidDelay | lib/attempt_this/attempt_object.rb:46-55 | the checks `with_delay` makes: a non-negative number, or a range of non-negative numbers with start <= end (a definition) |
| AttemptSpec.ValidFilter | lib/attempt_this/attempt_object.rb:92-96 | the checks `with_filter` makes: a non-empty list of Exception or its subclasses (a definition) |
| AttemptSpec.ValidArg | lib/attempt_this/attempt_object.rb:44-102 | the argument checks of every setter: the delay, a positive backoff, a non-nil method, a valid filter (a definition) |
| AttemptSpec.Configure | lib/attempt_this/attempt_object.rb:44-102 | a setter succeeds iff its argument is valid and its slot is unset; it then stores exactly the value the setter builds (the uniform interval, a backoff from the initial delay, the method, the filter) and changes no other slot |
| AttemptSpec.Setter | lib/attempt_this/attempt_object.rb:44-102 | a refused setting raises ArgumentError and changes nothing; an accepted one without a block returns the receiver |
| AttemptSpec.SetAtMostOnce | lib/attempt_this/attempt_object.rb:56 | a second setting of the same slot is refused whatever its argument (likewise lines 65, 74, 84 and 98) |
| AttemptSpec.SettingsCommute | lib/attempt_this/attempt_object.rb:44-102 | settings of different slots chain in either order with the same result |
| AttemptSpec.FrozenAfterExecution | lib/attempt_this/attempt_object.rb:123-127 | after an enabled execution only a missing default method can still be set |
| AttemptSpec.Register | lib/attempt_this/attempt_object.rb:105-110 | registration succeeds iff the id is non-nil and not taken; it binds the id and keeps every other entry |
| AttemptSpec.RegisterKeepsFirst | lib/attempt_this/attempt_object.rb:107 | an id stays bound to the first object registered under it |
| AttemptObjects.AttemptObject.constructor | lib/attempt_this/attempt_object.rb:19-21 | a new object holds its enumerator and no configuration |
| AttemptObjects.AttemptObject.Attempt | lib/attempt_this/attempt_object.rb:24-41 | the reply, effects and new configuration are exactly `Execute` of the old configuration; the set of policy objects is unchanged |
| AttemptObjects.AttemptObject.ApplyDefaults | lib/attempt_this/attempt_object.rb:123-127 | the configuration becomes `ApplyDefaults` of the old one |
| AttemptObjects.AttemptObject.CallDelay | lib/attempt_this/attempt_object.rb:38 | one call of the delay policy sleeps as the policy says and advances it |
| AttemptObjects.AttemptObject.AttemptWithReset | lib/attempt_this/attempt_object.rb:147-152 | calls the block, then the reset method iff it failed; the outcome is `ResetOutcome` |
| AttemptObjects.AttemptObject.FinalAttempt | lib/attempt_this/attempt_object.rb:115-121 | the final attempt's outcome is the default method's result only when it is set and the filter accepts the failure |
| AttemptObjects.AttemptObject.RetriableAttempt | lib/attempt_this/attempt_object.rb:136-142 | delay unless first, then call and reset; leaving early happens iff the attempt is not a retriable failure |
| AttemptObjects.AttemptObject.EachRetriableAttempt | lib/attempt_this/attempt_object.rb:129-145 | an early return is all of `Run`; otherwise the phase matches the budget and what remains of `Run` is its last attempt |
| AttemptObjects.AttemptObject.WithDelay | lib/attempt_this/attempt_object.rb:44-60 | the response equals `Setter` with `SetDelay` |
| AttemptObjects.AttemptObject.WithReset | lib/attempt_this/attempt_object.rb:63-69 | the response equals `Setter` with `SetReset` |
| AttemptObjects.AttemptObject.AndDefaultTo | lib/attempt_this/attempt_object.rb:72-78 | the response equals `Setter` with `SetDefault` |
| AttemptObjects.AttemptObject.WithBinaryBackoff | lib/attempt_this/attempt_object.rb:81-88 | the response equals `Setter` with `SetBackoff`; the policy object is new |
| AttemptObjects.AttemptObject.WithFilter | lib/attempt_this/attempt_object.rb:91-102 | the response equals `Setter` with `SetFilter` |
| AttemptObjects.AttemptObject.Scenario | lib/attempt_this/attempt_object.rb:105-110 | the table becomes `Register` of the old one and the receiver is returned, or ArgumentError with the table unchanged |
| AttemptObjects.Scenarios.constructor | lib/attempt_this/attempt_object.rb:5 | the table starts empty |
| AttemptObjects.Scenarios.Reset | lib/attempt_this/attempt_object.rb:8-10 | every scenario is forgotten |
| AttemptObjects.Scenarios.GetObject | lib/attempt_this/attempt_object.rb:12-16 | a registered id yields its object; anything else yields a new unconfigured object for that enumerator |
| AttemptThis.AttemptThisModule.constructor | lib/attempt_this/attempt_this.rb:12-14 | `@enabled` starts nil and no scenario is registered |
| AttemptThis.AttemptThisModule.IsEnabled | lib/attempt_this/attempt_this.rb:12-14 | retrying is off iff the flag was last set to false |
| AttemptThis.AttemptThisModule.SetEnabled | lib/attempt_this/attempt_this.rb:16-18 | the flag becomes the assigned value |
| AttemptThis.AttemptThisModule.Reset | lib/attempt_this/attempt_this.rb:21-23 | the scenario table is emptied |
| AttemptThis.AttemptThisModule.Attempt | lib/attempt_this/attempt_this.rb:5-10 | nil raises ArgumentError; a registered id runs its object from its current configuration; anything else runs a new unconfigured object; the table is unchanged, every other registered object and its configuration are unchanged, and every object keeps a backoff policy of its own |
| Usage.BoomRetriable | lib/attempt_this/attempt_object.rb:126 | a RuntimeError is retriable under the default configuration |
| Usage.BackoffTwice | lib/attempt_this/attempt_object.rb:81-88 | two executions on one backoff configuration: delays d..d*2^(n-2), then d*2^(n-1) onwards; both re-raise |
| Usage.BackoffScenario | lib/attempt_this/attempt_object.rb:105-110 | `attempt(n.times).with_binary_backoff(d).scenario(id)` registers an object holding only that backoff |
| Usage.BackoffAcrossExecutions | lib/attempt_this/attempt_object.rb:81-88 | running that scenario twice on a failing block continues the doubling in the second run, and both runs raise the block's failure |
| Usage.DisabledRunsOnce | lib/attempt_this/attempt_object.rb:27 | when disabled, the block runs once and its failure passes straight through |
| Usage.PlainScenario | lib/attempt_this/attempt_object.rb:105-110 | `attempt(n.times).scenario(id)` registers an unconfigured object |
| Usage.LateDelayRefused | lib/attempt_this/attempt_object.rb:56 | `with_delay` on a scenario that has run raises ArgumentError |
| Usage.FreshObjectAccepts | lib/attempt_this/attempt_object.rb:12-16 | an `attempt` on an enumerator gets a new object that accepts a delay |
| Usage.ResetFreesIds | lib/attempt_this/attempt_object.rb:105-110 | a taken id is refused, is accepted again after `reset`, and the empty id is accepted |

## Left out

- Floating-point delays are left out. The model uses whole seconds, so a
  range's `count` is `last - first + 1`. Exclusive ranges (`a...b`) and
  ranges of non-numbers are left out too. A non-numeric argument is one
  `NonNumeric` case that is always refused.
- `rand` and `Kernel.sleep` are left out: a sleep is recorded with the
  interval it is drawn from, not the drawn duration.
- Exception messages are left out. Every refused configuration raises the
  same `ConfigError` (ArgumentError), and the not-enumerable case raises
  `NotEnumerable` (NoMethodError).
- Scenario ids that are symbols or other non-string objects are left out,
  and so are enumerators other than a fixed count of elements. The block
  does not see the element.
- A non-class argument to `with_filter` is left out. It would make `e <=
  Exception` raise or return nil; classes are values of `Klass`.
- Truthy non-boolean values of `enabled=` are left out. The flag is nil,
  true or false.
- Concurrency is left out: the class-level table and the module flag are
  process-wide.
- `lib/attempt_this.rb:3-10` defines a second `AttemptThis#attempt`. It
  raises on nil too, but always makes a new `AttemptObject` for the
  enumerator and never looks up a scenario. The model follows
  `lib/attempt_this/attempt_this.rb:5-10`, which looks the id up first.
  Which definition is in force depends on load order, which is not
  modelled. For an enumerator that is not a registered id the two agree.
- The block receives no arguments, and `return` or `break` inside the block
  are not modelled.
- AttemptSpec.ResetOutcome: a reset or default method is a `Callable` with one
  fixed outcome, the same on every call. A reset or default method whose
  outcome depends on how often it ran, or on state the block changed, is
  not modelled.
- `ExceptionTypeFilter` copies its array in the initializer. The model's
  filter is an immutable value, so later changes to the caller's array
  cannot reach it.
