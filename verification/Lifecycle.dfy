/** The lifecycle contract a server owes its supervisor, as a small machine of its own. */
module Lifecycle {
  import opened Wrappers

  /** The two errors the supervisor makes itself, and those it is given. */
  datatype Error = SupervisorClosed | NilServer | Reported(code: nat)

  /** done: the terminal broadcast has been closed. err: the terminal result, fixed from then on.
      shutdown: what Shutdown has returned, once some caller got an answer. */
  datatype Instance = Instance(stopRequested: bool, done: bool, err: Option<Error>, shutdown: Option<Option<Error>>)

  const FRESH: Instance := Instance(false, false, None, None)

  datatype Event = StopRequested | Ended(err: Option<Error>) | ShutdownReturned(result: Option<Error>)

  /** A started instance may end at any time, asked or not; Shutdown only answers after the end,
      and always with the same answer. */
  function Apply(i: Instance, e: Event): Option<Instance> {
    match e
    case StopRequested => Some(i.(stopRequested := true))
    case Ended(err) => if i.done then None else Some(i.(done := true, err := err))
    case ShutdownReturned(r) =>
      if i.done && i.stopRequested && (i.shutdown.Some? ==> i.shutdown.value == r) then Some(i.(shutdown := Some(r))) else None
  }
}
