/** The optional value used for the detector's last alarm time. */
module Wrappers {

  datatype Option<+T> = None | Some(value: T)
}
