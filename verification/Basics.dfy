/** Small definitions that all modules share. */
module Basics {

  datatype Option<T> = None | Some(value: T)

  function Min(a: int, b: int): int { if a <= b then a else b }

  function Max(a: int, b: int): int { if a <= b then b else a }

  /** Nodes numbered so that 0 is the root and every other node has a lower-numbered parent. */
  predicate IsTree(parent: seq<nat>) { |parent| > 0 && forall n :: 0 < n < |parent| ==> parent[n] < n }
}
