/** Optional values. In this model `None` also stands for a pandas NaN result:
    an indicator value that is not defined yet. */
module Wrappers {

  datatype Option<+T> = None | Some(value: T)

}
