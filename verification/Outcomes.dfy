/** Result types shared by the models. */
module Outcomes {

  /** A step either goes through, or breaks an assert of the source or touches what it no longer owns. */
  datatype Outcome<+T> = Ok(value: T) | Fault {
    predicate IsFailure() { Fault? }
    function PropagateFailure<U>(): Outcome<U> requires Fault? { Fault }
    function Extract(): T requires Ok? { value }
  }

  datatype Option<+T> = None | Some(value: T)
}

/** Sizes of sets. */
module Sizes {

  lemma {:induction false} SubsetSize<T>(x: set<T>, y: set<T>)
    requires x <= y
    ensures |x| <= |y|
    decreases x
  {
    if x != {} {
      var e :| e in x;
      SubsetSize(x - {e}, y - {e});
    }
  }

  lemma SingletonIs<T>(s: set<T>, x: T)
    requires |s| == 1 && x in s
    ensures s == {x}
  {
    assert |s - {x}| == 0;
  }
}
