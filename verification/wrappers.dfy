/** A value that may be absent: models TypeScript's optional fields and `undefined`. */
module Wrappers {

  datatype Option<+T> = None | Some(value: T)

}
