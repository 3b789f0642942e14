/** What several modules share: lists without repetition, flags as numbers, bytes, limits and error numbers of C. */
module Basics {

  /** A byte that is only ever copied. */
  type Byte = int

  ghost predicate NoDup<T>(s: seq<T>) { forall i, j :: 0 <= i < j < |s| ==> s[i] != s[j] }

  function Bit(b: bool): int { if b then 1 else 0 }

  const INT_MAX := 0x7fff_ffff

  const ENOENT := 2
  const ENXIO := 6
  const ENOMEM := 12
  const EEXIST := 17
  const EINVAL := 22
}
