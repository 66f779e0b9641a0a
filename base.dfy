/** The optional-value wrapper and a sequence fact shared by every module of the model. */
module Base {

  /** A value that may be absent: Python's `Optional[T]`, where `None` is absence. */
  datatype Option<+T> = None | Some(value: T) {
    predicate IsFailure() { None? }

    function PropagateFailure<U>(): Option<U>
      requires None?
    {
      None
    }

    function Extract(): T
      requires Some?
    {
      value
    }
  }

  /** Concatenation regroups freely; stated once so proofs that build a sequence piece by piece can cite it. */
  lemma AppendAssoc<T>(a: seq<T>, b: seq<T>, c: seq<T>)
    ensures (a + b) + c == a + (b + c)
  {
  }
}
