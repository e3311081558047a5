/** Shared vocabulary of the model: optional values, the outcome of a creation
    function, the outcome of a state transition, identifiers and time. */
module Outcomes {

  /** A value that may be absent; stands for a C# reference that may be null. */
  datatype Option<+T> = None | Some(value: T)

  /** Outcome of a factory (`Crear`): a new entity or a validation failure.
      Factories never run an invariant check, so they cannot be fatal. */
  datatype Result<+T, +E> = Success(value: T) | Failure(error: E)

  /** Outcome of a state transition: the new state, an ordinary validation
      failure (no state change), or the fatal path where the entity's private
      invariant check throws `InvarianteVioladaException`. */
  datatype Outcome<+S, +E> = Ok(value: S) | Fail(error: E) | InvariantViolated

  /** A Guid; 0 stands for `Guid.Empty`. */
  type Guid = nat

  const EmptyGuid: Guid := 0

  /** The identity of an entity created by `EntityBase`, which draws it from
      `Guid.NewGuid()` and so is never `Guid.Empty`. */
  type EntityId = g: Guid | g != EmptyGuid witness 1

  /** An instant, in `DateTime` ticks (100 ns). */
  type Instant = int

  const TicksPerMinute: int := 600_000_000

  /** `DateTime.AddMinutes` for a whole number of minutes. */
  function AddMinutes(t: Instant, minutes: int): Instant {
    t + minutes * TicksPerMinute
  }
}
