/** Definitions shared by all parts of the model. */
module Basics {
  datatype Option<+T> = None | Some(value: T)

  predicate Distinct(xs: seq<string>) {
    forall i, j :: 0 <= i < j < |xs| ==> xs[i] != xs[j]
  }
}
