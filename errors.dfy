/** Failures of the game engine. Each constructor stands for one exception the
    engine throws; `IsLogicError` tells which of them derive from
    std::logic_error (out_of_range is one), the others derive from
    std::runtime_error. */
module Errors {

  datatype Error =
    | InvalidShipSize        // logic_error("Invalid ship size"/"Invalid ship length")
    | InvalidFieldSize       // logic_error("Invalid field size")
    | OutOfRange             // std::out_of_range (bounds, indexes, failed placement)
    | LengthError            // std::length_error (std::vector given a negative size)
    | OutOfFieldAttack       // OutOfFieldAttackException
    | NoAvailableAbilities   // NoAvailableAbilitiesException
    | InvalidShipData        // runtime_error("Invalid ship data format")
    | UnknownAbilityName     // runtime_error("Unknown ability name in JSON")

  /** True for the errors a `catch (const logic_error&)` handler catches. */
  predicate IsLogicError(e: Error) {
    e.InvalidShipSize? || e.InvalidFieldSize? || e.OutOfRange? || e.LengthError?
  }

  datatype Option<+T> = None | Some(value: T)

  /** A value or the exception that prevented it. */
  datatype Result<+T> = Ok(value: T) | Err(error: Error)

  /** The outcome of an operation that returns nothing but may throw. */
  datatype Outcome = Pass | Fail(error: Error)
}
