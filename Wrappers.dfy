/** The optional value returned by the script's `Array.prototype.find`
    look-ups (`undefined` when nothing matches). */
module Wrappers {

  datatype Option<+T> = None | Some(value: T)
}
