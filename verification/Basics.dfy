/** Bytes and the sizes of the source's counters. */
module Widths {

  const WRAP16: nat := 0x1_0000
  const WRAP32: nat := 0x1_0000_0000

  type Byte = x: int | 0 <= x < 256
}

module Wrappers {

  datatype Option<T> = None | Some(value: T)
}

/** Pointers to cells at addresses, and the lists they make. */
module Pointers {

  datatype Ptr = Null | At(a: nat)

  /** Where a list is after `i` steps; Null before its first cell and behind its last. */
  function Place(order: seq<nat>, i: int): Ptr
  {
    if 0 <= i < |order| then At(order[i]) else Null
  }
}
