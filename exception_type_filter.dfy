/** The type-based exception filter: a failure is retriable when it is an
    instance of at least one listed class. */
module ExceptionTypeFilters {
  import opened Ruby

  /** The filter keeps its own list: being a value, it cannot be changed
      through the array the caller passed to the initializer. */
  datatype ExceptionTypeFilter = ExceptionTypeFilter(classes: seq<Klass>)

  /** The filter applied when none is configured. */
  const DefaultFilter: ExceptionTypeFilter := ExceptionTypeFilter([StandardError])

  /** `any?` over the list: is k a subclass of some listed class? */
  function AnyIsA(classes: seq<Klass>, k: Klass): bool
  {
    |classes| > 0 && (IsA(k, classes[0]) || AnyIsA(classes[1..], k))
  }

  /** AnyIsA holds exactly when some listed class is an ancestor of k (or k itself). */
  lemma {:induction false} AnyIsAMeaning(classes: seq<Klass>, k: Klass)
    ensures AnyIsA(classes, k) <==> exists i :: 0 <= i < |classes| && IsA(k, classes[i])
  {
    if |classes| > 0 {
      AnyIsAMeaning(classes[1..], k);
      assert forall i :: 1 <= i < |classes| ==> classes[i] == classes[1..][i - 1];
      if exists i :: 1 <= i < |classes| && IsA(k, classes[i]) {
        var i :| 1 <= i < |classes| && IsA(k, classes[i]);
        assert IsA(k, classes[1..][i - 1]);
      }
    }
  }

  /** `include?`: the exception is_a at least one listed class. */
  function Includes(f: ExceptionTypeFilter, e: Exn): bool
  {
    AnyIsA(f.classes, e.klass)
  }

  /** A filter matches an exception exactly when one of its classes is the
      exception's class or an ancestor of it; an empty list matches nothing. */
  lemma IncludesMeaning(f: ExceptionTypeFilter, e: Exn)
    ensures Includes(f, e) <==> exists c :: c in f.classes && IsA(e.klass, c)
    ensures |f.classes| == 0 ==> !Includes(f, e)
  {
    AnyIsAMeaning(f.classes, e.klass);
    if Includes(f, e) {
      var i :| 0 <= i < |f.classes| && IsA(e.klass, f.classes[i]);
      assert f.classes[i] in f.classes;
    }
    if exists c :: c in f.classes && IsA(e.klass, c) {
      var c :| c in f.classes && IsA(e.klass, c);
      var i :| 0 <= i < |f.classes| && f.classes[i] == c;
    }
  }

  /** An exception of a subclass of a matched class matches too. */
  lemma SubclassMatches(f: ExceptionTypeFilter, e: Exn, sub: Klass)
    requires Includes(f, e)
    requires IsA(sub, e.klass)
    ensures Includes(f, Exn(sub, e.message))
  {
    IncludesMeaning(f, e);
    IncludesMeaning(f, Exn(sub, e.message));
    var c :| c in f.classes && IsA(e.klass, c);
    IsATransitive(sub, e.klass, c);
  }

  /** An exception whose class is a strict ancestor of every listed class does not match. */
  lemma AncestorDoesNotMatch(f: ExceptionTypeFilter, e: Exn)
    requires forall c :: c in f.classes ==> IsA(c, e.klass) && c != e.klass
    ensures !Includes(f, e)
  {
    IncludesMeaning(f, e);
    if Includes(f, e) {
      var c :| c in f.classes && IsA(e.klass, c);
      IsAAntisymmetric(c, e.klass);
    }
  }

  /** Exception itself is not retried by the default StandardError filter. */
  lemma DefaultFilterSkipsException(message: string)
    ensures !Includes(DefaultFilter, Exn(Exception, message))
    ensures Includes(DefaultFilter, Exn(RuntimeError, message))
  {
    AncestorDoesNotMatch(DefaultFilter, Exn(Exception, message));
    assert IsA(RuntimeError, StandardError);
    IncludesMeaning(DefaultFilter, Exn(RuntimeError, message));
  }

  /** Listing more classes never turns a match into a non-match. */
  lemma IncludesMonotonic(f: ExceptionTypeFilter, g: ExceptionTypeFilter, e: Exn)
    requires forall c :: c in f.classes ==> c in g.classes
    requires Includes(f, e)
    ensures Includes(g, e)
  {
    IncludesMeaning(f, e);
    IncludesMeaning(g, e);
    var c :| c in f.classes && IsA(e.klass, c);
    assert c in g.classes;
  }

  /** The order and the repetition of the listed classes are irrelevant:
      only which classes are listed matters. */
  lemma IncludesOrderIrrelevant(f: ExceptionTypeFilter, g: ExceptionTypeFilter, e: Exn)
    requires forall c :: c in f.classes <==> c in g.classes
    ensures Includes(f, e) == Includes(g, e)
  {
    if Includes(f, e) { IncludesMonotonic(f, g, e); }
    if Includes(g, e) { IncludesMonotonic(g, f, e); }
  }
}
