/** Errors as the callers inspect them: what errors.Is and errors.As find in the whole tree. */
module Failures {
  import opened Collections

  /** A worker run that has to be fenced and whose container has to be isolated. */
  datatype Target = Target(run: string, generation: int)

  datatype Failure = Failure(
    credential: bool,
    rejected: bool,
    noPlan: bool,
    superseded: bool,
    inProgress: bool,
    paused: bool,
    uncertain: bool,
    unconfirmedWrite: bool,
    fencing: bool,
    isolation: Option<seq<Target>>,
    retryAt: Option<int>)

  /** An error that nothing asks about. */
  const OTHER := Failure(false, false, false, false, false, false, false, false, false, None, None)
  const FENCING := OTHER.(fencing := true)
  const IN_PROGRESS := OTHER.(inProgress := true)
  const REJECTED := OTHER.(rejected := true)
  const SUPERSEDED := OTHER.(superseded := true)
  const UNCERTAIN := OTHER.(uncertain := true)
  const PAUSED := OTHER.(paused := true)

  /** The error for a repository without an active plan wraps the rejection error. */
  predicate IsRejection(f: Failure) { f.rejected || f.noPlan }

  /** errors.Join: everything either side is; errors.As takes the first that fits. */
  function Join(a: Failure, b: Failure): Failure {
    Failure(a.credential || b.credential, a.rejected || b.rejected, a.noPlan || b.noPlan, a.superseded || b.superseded,
            a.inProgress || b.inProgress, a.paused || b.paused, a.uncertain || b.uncertain,
            a.unconfirmedWrite || b.unconfirmedWrite, a.fencing || b.fencing,
            if a.isolation.Some? then a.isolation else b.isolation,
            if a.retryAt.Some? then a.retryAt else b.retryAt)
  }

  /** errors.Join where either side may be nil. */
  function JoinAny(a: Option<Failure>, b: Option<Failure>): Option<Failure> {
    if a.None? then b else if b.None? then a else Some(Join(a.value, b.value))
  }
}
