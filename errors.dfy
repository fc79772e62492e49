/**
 * The exceptions xplore raises or lets escape.  Every `ValidationException`
 * carries one of the `Problem`s below; the other constructors stand for the
 * Python built-in exceptions the modelled code can raise.
 */
module Errors {
  import opened Base
  import Format

  datatype Problem =
    | InvalidColumns(bad: seq<int>)   // a column width outside 1..12
    | BadContent                      // `content` of an unsupported type
    | ContentLengthNotFactor          // `Row` content whose length does not divide 12
    | NoLayoutSource                  // a Block with no way to build its layout
    | BadIndexPageType                // `index_page_type` outside the known options
    | NoPageLayout                    // a Page class without a `layout`
    | BadSettings                     // a `settings` argument of an unsupported type
    | Raised(msg: Option<string>)     // raised by user code (`get_layout`)

  datatype Error =
    | Validation(problem: Problem)    // ValidationException
    | MissingId(key: string)          // KeyError from `layout[key] = ...`
    | ZeroDivision                    // ZeroDivisionError (`12 % 0`)
    | Unsized                         // TypeError from `len()` of a non-sized value
    | NoPages                         // AttributeError closing the ring of an empty story
    | FallbackUnbound                 // UnboundLocalError in the router callback
    | NotIterable                     // TypeError from iterating over a non-iterable setting

  datatype Result<+T> = Ok(value: T) | Err(error: Error) {
    predicate IsFailure() { Err? }
    function PropagateFailure<U>(): Result<U>
      requires Err?
    {
      Err(error)
    }
    function Extract(): T
      requires Ok?
    {
      value
    }
  }

  const VALID_COLS_REPR := "{1, 2, 3, 4, 5, 6, 7, 8, 9, 10, 11, 12}"

  /** `str(e)` of a ValidationException raised with problem `p`. */
  function Message(p: Problem): string
  {
    match p
    case InvalidColumns(bad) =>
      "Invalid column value(s): " + Format.IntListRepr(bad) + ". Valid column values are: " + VALID_COLS_REPR
    case BadContent =>
      "'content' param must be a dict-like object, iterable, or Dash Component"
    case ContentLengthNotFactor =>
      "length of 'content' param must be a factor of 12"
    case NoLayoutSource =>
      "Block subclasses must either define a 'layout' attribute, a 'get_layout' method, or both 'shape' and 'content' attributes."
    case BadIndexPageType =>
      "'index_page_type' param must be one of ('outline', 'first', 'vertical')"
    case NoPageLayout =>
      "Page classes must define a 'layout' attribute"
    case BadSettings =>
      "'settings' parameter must a string containing the name of a settings module or a dict-like object containing setting names and values."
    case Raised(m) =>
      if m.Some? then m.value else "An exception in xplore occurred."
  }
}
