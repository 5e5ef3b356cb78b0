/** What several modules share: optional values, sequences without repetition, sizes. */
module Basics {

  datatype Option<+T> = None | Some(value: T)

  ghost predicate NoDup<T>(s: seq<T>) {
    forall i, j :: 0 <= i < j < |s| ==> s[i] != s[j]
  }

  /** Bytes of a page. */
  const PGSIZE: nat := 4096

  /** bytes_to_sectors() */
  function Sectors(length: nat): nat {
    (length + 511) / 512
  }
}
