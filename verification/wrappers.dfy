/** Optional values: `None` stands for "absent" (a missing screen) or for a
    computation that would trap at run time (an out-of-range subscript, a
    remainder by zero). */
module Wrappers {

  datatype Option<+T> = None | Some(value: T)

}
