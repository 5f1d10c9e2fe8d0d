/** The optional value used where the firmware has "no entry" or "nothing parsed". */
module Wrappers {
  datatype Option<+T> = None | Some(value: T)
}
