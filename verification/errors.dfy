/** The Python exceptions the trivia core can raise, by class. */
module Errors {
  import opened Wrappers

  datatype Exception =
    | AssertionError(what: string)
    | RuntimeError(what: string)
    | TypeError(what: string)
    | KeyError(key: string)
    | IndexError(what: string)
    | AttributeError(attr: string)

  /**
   * The state an operation leaves behind together with the exception it
   * raised, if any: the source mutates its objects before some of its raises.
   */
  datatype Outcome<+T> = Outcome(state: T, raised: Option<Exception>)
}
