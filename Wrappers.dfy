/** Optional values: `None` stands for JavaScript's NaN / "absent" where the app checks for it. */
module Wrappers {

  datatype Option<+T> = None | Some(value: T)

}
