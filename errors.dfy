/** The error classes the joke store can report. */
module Errors {
  import Redis

  datatype Error =
    | InputValidation(message: string)  // InputValidationError: the request itself is unacceptable
    | NoJokeWithId                       // "There is no joke associated with that ID"
    | Store(cause: Redis.RedisError)     // a Redis command failed, passed on unchanged
    | IdSpaceExhausted                   // the supplied random draws ran out before a fresh id was found

  /** The message writeJoke puts in the InputValidationError for an over-long joke. */
  const JokeTooLong: string := "Joke is too long, should be 256 characters or less"
}
