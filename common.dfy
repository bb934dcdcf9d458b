/** Failure-carrying values shared by every module: Python's `None` and raised exceptions. */
module Common {

  datatype Option<+T> = None | Some(value: T)

  /** The exceptions the modelled Python code can raise, by kind. */
  datatype Error =
    | UnknownPrefix(prefix: string)        // URI.__init__: 'Unknown prefix "..."!'
    | UnknownPrefixIn(uri: string)         // URI.parse on an http:// string no prefix IRI matches
    | AmbiguousUri(uri: string)            // URI.parse without prefix and without fallback
    | KeyError(key: string)                // a dict lookup of an absent key
    | ValueError(text: string)             // int() of a malformed string
    | TypeError(what: string)              // '{:d}'.format(None)
    | ZeroDivisionError                    // frequency / 0
    | IndexError(index: int)               // a list index outside the list
    | InvalidTask(length: nat)             // a task descriptor of length 0 or > 2

  datatype Result<+T> = Ok(value: T) | Err(error: Error)
}
