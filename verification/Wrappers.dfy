/** A value that may be absent: a null pointer, a failed allocation, a step that cannot be taken. */
module Wrappers {
  datatype Option<+T> = None | Some(value: T)
}

/** Sequences that list things. */
module Sequences {
  predicate Distinct<T(==)>(s: seq<T>) {
    forall i, j :: 0 <= i < j < |s| ==> s[i] != s[j]
  }
}

/** Words made of bits. */
module Bits {
  /** The value of one bit. */
  function Weight(b: bool, n: nat): nat {
    if b then n else 0
  }
}

/** enum procstate of kernel/proc.h */
module Procs {
  datatype ProcState = UNUSED | USED | SLEEPING | RUNNABLE | RUNNING | ZOMBIE
}
