/** Small value types shared by the whole model. */
module Base {

  /** An optional value; `None` plays the part of Python's `None`. */
  datatype Option<+T> = None | Some(value: T) {
    function GetOr(default: T): T {
      match this
      case Some(v) => v
      case None => default
    }
  }

  /**
   * Whether a Python class defines an attribute at all (`hasattr`), and
   * if so its value.  An attribute that is defined but set to `None` is
   * `Present(None)` when the value type is itself an `Option`.
   */
  datatype Attr<+T> = Absent | Present(value: T)

  /** The Dash app a block or page is built for: an opaque handle that is only passed on. */
  datatype App = App(handle: nat)
}
