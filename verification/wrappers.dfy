/** The optional-value datatype used for Swift optionals (`Date?`, query sums)
    and for the result of parsing a displayed clock. */
module Wrappers {

  datatype Option<+T> = None | Some(value: T)
}
