/**
 * The structured loading errors of the serialization core, and the
 * result types through which the model propagates them.
 *
 * The source raises a `LoadingError` exception whose message is formatted
 * printf-style; here each message becomes a constructor that carries the
 * kind of failure and the integer amounts that the message would print.
 */
module LoadErrors {

  datatype LoadingError =
    /** "Version mismatch: Found version %u, supported version is %u" */
    | VersionMismatch(found: nat, supported: nat)
    /** "Length too short for %s (at least %d bytes missing)" */
    | LengthTooShort(what: string, missing: int)
    /** "Length mismatch at %s (%d bytes missing)" */
    | LengthMissing(what: string, missing: int)
    /** "Length mismatch at %s (%d trailing bytes)" */
    | LengthTrailing(what: string, trailing: int)
    /** "Unknown objective type %u" */
    | UnknownObjectiveType(objType: nat)
    /** "Mission without scenarios" */
    | MissionWithoutScenarios
    /** "Reading scenario bytes %u failed" */
    | ScenarioBytesFailed(index: nat)
    /** "Preloading scenario %u failed" */
    | PreloadFailed(index: nat)
    /** The save-game stream did not hold the item the loader asked for next. */
    | StreamMismatch(position: nat)

  /** A check that either passes or raises a loading error. */
  datatype Outcome = Pass | Fail(error: LoadingError) {
    predicate IsFailure() { Fail? }
    function PropagateFailure<U>(): Result<U>
      requires Fail?
    {
      Err(error)
    }
  }

  /** A loaded value, or the loading error that aborted the load. */
  datatype Result<T> = Ok(value: T) | Err(error: LoadingError) {
    predicate IsFailure() { Err? }
    function PropagateFailure<U>(): Result<U>
      requires Err?
    {
      Err(error)
    }
    function Extract(): T
      requires Ok?
    {
      value
    }
  }
}
