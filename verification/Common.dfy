/** Failure-compatible results used for every `throw` and `undefined` of the source. */
module Common {
  datatype Option<+T> = None | Some(value: T) {
    predicate IsFailure() { None? }
    function PropagateFailure<U>(): Option<U>
      requires None?
    {
      None
    }
    function Extract(): T
      requires Some?
    {
      value
    }
  }

  /** The outcome of an operation that returns nothing but may throw. */
  datatype Outcome = Pass | Fail {
    predicate IsFailure() { Fail? }
    function PropagateFailure<U>(): Option<U>
      requires Fail?
    {
      None
    }
  }

  /** `xs[i]` in JavaScript: `undefined` outside the bounds. */
  function At<T>(xs: seq<T>, i: int): (r: Option<T>)
  {
    if 0 <= i < |xs| then Some(xs[i]) else None
  }

  predicate IsPrefix<T(==)>(a: seq<T>, b: seq<T>)
  {
    |a| <= |b| && a == b[..|a|]
  }

  lemma PrefixTransitive<T>(a: seq<T>, b: seq<T>, c: seq<T>)
    requires IsPrefix(a, b) && IsPrefix(b, c)
    ensures IsPrefix(a, c)
  {
    assert c[..|b|][..|a|] == c[..|a|];
  }
}
