/** Shared vocabulary. */
module Basics {

  datatype Option<+T> = None | Some(value: T)

  /** Times are in nanoseconds. */
  const SECOND: int := 1_000_000_000

  function Least(a: nat, b: nat): (least: nat) {
    if a < b then a else b
  }

  predicate NoDuplicates(ids: seq<nat>) {
    forall i, j :: 0 <= i < j < |ids| ==> ids[i] != ids[j]
  }
}
