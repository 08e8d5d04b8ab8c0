/** Failure-carrying values shared by every module of the model. */
module Results {

  /** An optional value; `None` stands for JavaScript's `undefined` where the source reads a missing entry. */
  datatype Option<+T> = None | Some(value: T)

  /** The errors the container throws, each named after the situation that raises it. */
  datatype Error =
    | NameConflict(name: string)     // a Store whose name is already a key of the state
    | TargetNotFound(name: string)   // a dispatch aimed at a name that is not a key of the state
    | InvalidPath                    // Store.get called with neither a string nor an array
    | InvalidKeyPath                 // Immutable's setIn walking through a value that is not a map
    | NotAMap                        // `merge` called on a slice that is missing or not a map
    | NullishData                    // key enumeration of an undefined or null initial data argument
    | AccessorRedefined              // `Object.defineProperty` on a key a store already has an accessor for
    | NotCallable                    // calling a subscriber's notify function that is undefined

  /** A computation that either yields a value or throws an Error. */
  datatype Result<+T> = Success(value: T) | Failure(error: Error)

  /** A computation with no value that either completes or throws an Error. */
  datatype Outcome = Pass | Fail(error: Error)
}
