/** What every module shares of the model. */
module Common {

  datatype Option<+T> = None | Some(value: T)

  /** Success with a value, or the reason a call was refused. */
  datatype Result<+T, +E> = Ok(value: T) | Err(error: E)

  lemma {:induction false} SubsetSize<T>(a: set<T>, b: set<T>)
    requires a <= b
    ensures |a| <= |b|
  {
    if a != {} {
      var x :| x in a;
      SubsetSize(a - {x}, b - {x});
    }
  }
}
