/** The Python exceptions the modelled operations raise. Callers that catch
    them use only `str(e)`, which for these is the message. */
module Errors {
  datatype Raised =
    | FileNotFoundError(message: string)
    | ValueError(message: string)
    | RuntimeError(message: string)
}
