/** Option, used for the source's null returns, falsy values and rejections. */
module Wrappers {

  datatype Option<+T> = None | Some(value: T)
}
