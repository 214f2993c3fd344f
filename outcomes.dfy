/** The failures the generation pipeline can raise, as values. */
module Outcomes {

  /** The exceptions the pipeline raises on its own inputs. */
  datatype Error =
    | UnknownSymbol(symbol: string)      // `KeyError` from a `note_to_int` lookup
    | EmptyStartRange                    // `ValueError` from `randint(0, len(network_input) - 1)` when low >= high
    | InvalidPitchToken(token: string)   // `ValueError` from `int(...)` on a chord token

  datatype Result<+T> = Success(value: T) | Failure(error: Error)
}
