/** The two pieces of JavaScript value semantics the bot's handlers rely on:
    a field that may be `undefined`, and how a template literal renders it. */
module Js {

  /** A value that may be `undefined` (a missing object property). */
  datatype Opt<+T> = Undefined | Defined(value: T)

  /** `${x}` inside a template literal: an undefined value renders as the text "undefined". */
  function Show(x: Opt<string>): (r: string)
  {
    match x
    case Undefined => "undefined"
    case Defined(s) => s
  }
}
