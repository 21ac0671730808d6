/** Option and Result, the two failure-carrying wrappers the model uses for
    Python's `None` and for the exceptions the core raises. */
module Wrappers {

  datatype Option<+T> = None | Some(value: T)

  datatype Result<+R, +E> = Success(value: R) | Failure(error: E)

  /** The exceptions raised by the modelled core. */
  datatype Error =
    | CircularDependency(model: string)   // ValueError from resolve_model_alias
    | NotImplemented(model: string)       // NotImplementedError for an unsupported model
    | TimeoutExceeded                     // TimeoutError in the stream loop
    | MissingChoices                      // IndexError on `chunk.choices[0]` outside Azure
    | FunctionDispatchFailed(name: string) // import/getattr/json.loads/the call itself failed
    | StreamsExhausted                    // the finite supply of sub-streams of the model ran out
}

/** Character classes of Python's `str` that the core relies on. */
module Chars {

  /** `str.isspace()`, which is also what the regular-expression class `\s`
      matches in a `str` pattern: the Unicode whitespace characters. */
  predicate IsSpace(c: char) {
    || ('\t' <= c <= '\r')                  // \t \n \v \f \r
    || ('\U{1C}' <= c <= '\U{1F}')          // file, group, record and unit separators
    || c == ' ' || c == '\U{85}' || c == '\U{A0}' || c == '\U{1680}'
    || ('\U{2000}' <= c <= '\U{200A}')
    || c == '\U{2028}' || c == '\U{2029}' || c == '\U{202F}' || c == '\U{205F}' || c == '\U{3000}'
  }

  /** `unicodedata.east_asian_width(c) in ("W", "F")` is a table lookup in a
      foreign library; the model takes it as a parameter of this type. */
  type WidthTable = char -> bool

  /** Text containing no character of `cs`. */
  predicate NoneOf(s: string, cs: set<char>) {
    forall k :: 0 <= k < |s| ==> s[k] !in cs
  }
}
