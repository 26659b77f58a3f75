/** An optional value, used for the slots of the wave table (a null shared pointer is None)
    and for the optional tessellation-stage file names. */
module Wrappers {
  datatype Option<+T> = None | Some(value: T)
}
