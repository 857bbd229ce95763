/** What most parts of the model share: block pointers, replacing one by another, and optional values. */
module Pointers {

  // 0 is the pointer that was never set.
  type Ptr = nat

  datatype Update = Update(unref: Ptr, ref: Ptr)

  datatype Option<T> = None | Some(value: T)
}
