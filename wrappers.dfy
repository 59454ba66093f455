/** The optional-value datatype used throughout the model for values that the
    source represents with `None` (a task that has never run, a missing
    store key, an absent "run at hour" setting). */
module Wrappers {

  datatype Option<+T> = None | Some(value: T)

  function Min(a: int, b: int): int
  {
    if a <= b then a else b
  }
}
