/** Values that may be missing: the source's None, or a refusal whose text does not matter. */
module Wrappers {

  datatype Option<+T> = None | Some(value: T)
}
