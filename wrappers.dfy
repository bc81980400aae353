/** Optional values and JavaScript-style outcomes (a value or a thrown error). */
module Wrappers {

  /** `null`/`undefined` versus a present value. */
  datatype Option<+T> = None | Some(value: T) {

    /** The value, or `default` when there is none (JavaScript's `x ?? default`). */
    function GetOr(default: T): T {
      match this
      case Some(v) => v
      case None => default
    }
  }

  /** The result of evaluating a JavaScript expression that may throw. */
  datatype Outcome<+T> = Value(value: T) | Throws(error: string)
}

/** The browser globals the core reads. `None` is the server side, where neither `window` nor `document` exists. */
module Runtime {
  import opened Wrappers

  /**
   * A page loaded in a browser: `window.location.hostname`, the value of the `brand`
   * query parameter as `URLSearchParams.get` returns it, and `document.cookie`.
   */
  datatype Browser = Browser(hostname: string, brandParam: Option<string>, cookie: string)

  type Env = Option<Browser>
}
