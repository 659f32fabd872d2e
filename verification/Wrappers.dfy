/** The two result shapes used by every other module. */
module Wrappers {

  datatype Option<+T> = None | Some(value: T)

  /** A source function either returns a value or raises; `why` names the refusal. */
  datatype Result<+T, +E> = Ok(value: T) | Raised(why: E)

  /** Z3 does not re-associate concatenations by itself. */
  lemma Assoc<T>(a: seq<T>, b: seq<T>, c: seq<T>)
    ensures (a + b) + c == a + (b + c)
  {
  }
}
