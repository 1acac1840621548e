/** Optional values: `None` stands for Java's `null` or for an exception that ends an operation. */
module Wrappers {

  datatype Option<+T> = None | Some(value: T)
}
