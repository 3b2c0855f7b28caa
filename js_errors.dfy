/** What an awaited call can throw, and the pages' `catch` blocks that turn
    it into the text they show. */
module JsErrors {

  /** A thrown value: an `Error` with its message, or anything else. */
  datatype Thrown = ErrorValue(message: string) | OtherValue

  /** `err instanceof Error ? err.message : fallback`. */
  function MessageOr(t: Thrown, fallback: string): (m: string)
    ensures t.ErrorValue? ==> m == t.message
    ensures t.OtherValue? ==> m == fallback
  {
    if t.ErrorValue? then t.message else fallback
  }

  /** How an identity-provider call that reports failure by an error object
      ended: the pages throw that object, so a reported error and a thrown
      one reach the same `catch`. */
  datatype Answer = Succeeded | Failed(thrown: Thrown)
}
