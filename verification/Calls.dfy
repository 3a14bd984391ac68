/** Calls to a store, any of which can be lost. */
module Calls {
  /** A call is answered, refused before it commits, or committed and its answer lost. */
  datatype Fate = Answered | Refused | Unheard
}
