/** The nullable values of the original (`number | null`, `Challenge | null`). */
module Wrappers {

  datatype Option<+T> = None | Some(value: T)
}
