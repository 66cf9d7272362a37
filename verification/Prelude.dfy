/** Values that may be absent: a missing key, a JSON null, or a file that does not exist. */
module Prelude {
  datatype Option<+T> = None | Some(value: T)
}
