/** A missing-or-present value: the dashboard's table cells may be missing (NaN / None). */
module Wrappers {

  datatype Option<+T> = None | Some(value: T)
}
