/** Small vocabulary shared by the modules: optional values, sequences without
    repetition, and the stop state in which ASSERT and PANIC leave the kernel. */
module Basics {

  datatype Option<+T> = None | Some(value: T) {
    function UnwrapOr(d: T): T { if Some? then value else d }
  }

  /** Where an ASSERT or PANIC fired; `panic_spin` never returns, so this is final.  `Looping` is
      a loop of the source whose condition never changes: as final. */
  datatype Halt = Live | Stopped(file: string, line: nat) | Looping(file: string, line: nat)

  ghost predicate Distinct<T(!new)>(s: seq<T>) {
    forall i, j :: 0 <= i < j < |s| ==> s[i] != s[j]
  }
}
