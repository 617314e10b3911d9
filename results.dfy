/** Optional values, failure kinds and a failure-compatible result type. */
module Results {

  datatype Option<T> = None | Some(value: T)

  /** The kinds of exception the message synthesizer can raise. */
  datatype Failure =
    | KeyNotFound          // a mapping step whose key is absent (KeyError)
    | IndexOutOfRange      // a list or string step past either end (IndexError)
    | NotAnInteger         // int() of a list step that is not a number (ValueError)
    | NotSubscriptable     // a step into a scalar, or a string key into a string (TypeError)
    | ReferenceNotString   // a "$ref" whose value is not a string
    | ReferenceTooDeep     // "$ref" chains deeper than the recursion limit (RecursionError)
    | AlternativeNotMapping  // a dereferenced alternative has no .get (AttributeError)
    | TitleUnhashable      // a list or mapping title used as a dictionary key (TypeError)
    | TitleNotString       // a number or boolean title reaches ", ".join (TypeError)
    | AlternativesNotList  // the value of "oneOf" is not an array
    | ContextEmpty         // the none-satisfied case is reached without context errors
    | AltIndexMissing      // a context error's schema path is too short (IndexError)
    | AltIndexNotInteger   // the alternative index is a string token (AssertionError)
    | AltIndexOutOfRange   // the alternative index names no alternative (IndexError)

  datatype Result<T> = Ok(value: T) | Err(failure: Failure) {
    predicate IsFailure() { Err? }

    function PropagateFailure<U>(): Result<U>
      requires Err?
    {
      Err(failure)
    }

    function Extract(): T
      requires Ok?
    {
      value
    }
  }
}
