/** The optional values the component keeps in its state (`T | null` in the source). */
module Wrappers {

  datatype Option<+T> = None | Some(value: T)

}
