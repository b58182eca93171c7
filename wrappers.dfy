/** Option: the absence of a value (a Java null, a failed parse, an escaped exception). */
module Wrappers {

  datatype Option<+T> = None | Some(value: T)

}
