/** The outcome of a call into the platform that may throw, and the
    `try { … } catch (e: Exception) { … }` expression that absorbs the throw.

    The page-size detection and the garbage-collection request both call the
    host runtime; what that call does is not visible to the model, so each is
    given to the model as an `Attempt` value: it returned, or it raised an
    `Exception` (the only kind of throwable the source's `catch` clauses
    handle). */
module Attempts {

  /** How a call completed: it returned `value`, or it raised an `Exception`. */
  datatype Attempt<T> = Returned(value: T) | Threw {

    /** Code that runs after a call that returned, in the same `try` block:
        it runs only if this call returned; a throw skips it. */
    function Then<U>(next: T -> Attempt<U>): Attempt<U> {
      match this
      case Returned(v) => next(v)
      case Threw => Threw
    }

    /** The value a `try` expression with this body yields when its `catch`
        clause yields `handler`. */
    function Recover(handler: T): T {
      match this
      case Returned(v) => v
      case Threw => handler
    }
  }
}
