/** The optional value used for the calculator's nullable fields
    (`number | null` and the `null` member of `Operator`). */
module Wrappers {

  datatype Option<+T> = None | Some(value: T)
}
