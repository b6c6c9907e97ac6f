/** How one effect of a command can end, and how the command itself can end. */
module Faults {

  datatype Option<+T> = None | Some(value: T)

  /** An effect is carried out, or raises an exception and changes nothing, or the
      process dies before it. `:-` passes anything but `Done` to the caller. */
  datatype Status = Done | Raised | Crashed {

    predicate IsFailure() {
      !Done?
    }

    function PropagateFailure(): Status
      requires IsFailure()
    {
      this
    }
  }

  /** A command returns an exit code, or ends without one: the process died, or an
      exception left the last handler. */
  datatype Exit = Code(n: int) | Aborted
}
