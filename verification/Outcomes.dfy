/** The failure-carrying results shared by every component: Python's `None` and its
    raised exceptions become ordinary values. */
module Outcomes {

  datatype Option<+T> = None | Some(value: T)

  datatype Result<+T, +E> = Ok(value: T) | Err(error: E)

}
