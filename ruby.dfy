/** Ruby values the retry engine handles: optional arguments, the class tree of
    exceptions, the values a block returns and the exceptions it raises. */
module Ruby {

  datatype Option<+T> = None | Some(value: T)

  /** A Ruby class: a name and a single superclass; BasicObject is the root. */
  datatype Klass = BasicObject | Class(name: string, superclass: Klass)

  const Object: Klass := Class("Object", BasicObject)
  const Exception: Klass := Class("Exception", Object)
  const StandardError: Klass := Class("StandardError", Exception)
  const RuntimeError: Klass := Class("RuntimeError", StandardError)
  const ArgumentError: Klass := Class("ArgumentError", StandardError)
  const NameError: Klass := Class("NameError", StandardError)
  const NoMethodError: Klass := Class("NoMethodError", NameError)

  /** `x.is_a?(c)` for an instance x of class k: c is k itself or one of its ancestors. */
  predicate IsA(k: Klass, c: Klass)
    decreases k
  {
    k == c || (k.Class? && IsA(k.superclass, c))
  }

  /** Number of ancestors of k. */
  function Depth(k: Klass): nat
  {
    if k.BasicObject? then 0 else 1 + Depth(k.superclass)
  }

  /** A subclass of a subclass is a subclass. */
  lemma {:induction false} IsATransitive(a: Klass, b: Klass, c: Klass)
    requires IsA(a, b) && IsA(b, c)
    ensures IsA(a, c)
    decreases a
  {
    if a != b {
      IsATransitive(a.superclass, b, c);
    }
  }

  /** A class is never deeper than its descendants, and only itself is as deep. */
  lemma {:induction false} IsADepth(a: Klass, b: Klass)
    requires IsA(a, b)
    ensures Depth(a) >= Depth(b)
    ensures Depth(a) == Depth(b) ==> a == b
    decreases a
  {
    if a != b {
      IsADepth(a.superclass, b);
    }
  }

  /** Single inheritance has no cycles: a strict ancestor is not a descendant. */
  lemma IsAAntisymmetric(a: Klass, b: Klass)
    requires IsA(a, b) && IsA(b, a)
    ensures a == b
  {
    IsADepth(a, b);
    IsADepth(b, a);
  }

  /** What a block, a reset method or a default method returns. */
  datatype Value = Nil | Data(datum: int)

  /** A raised exception: its class and its message. */
  datatype Exn = Exn(klass: Klass, message: string)

  /** Calling something either returns a value or raises an exception. */
  datatype Outcome = Ok(value: Value) | Err(error: Exn)

  /** The ArgumentError every rejected configuration call raises (messages are not modelled). */
  const ConfigError: Exn := Exn(ArgumentError, "")

  /** The NoMethodError raised by calling `each` on an id that is not an enumerator. */
  const NotEnumerable: Exn := Exn(NoMethodError, "")
}
