/** Optional values: `None` stands for TypeScript's `null`. */
module Options {

  datatype Option<+T> = None | Some(value: T)
}
