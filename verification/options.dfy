/** Optional values: the model's rendering of JavaScript's `null` and `undefined`. */
module Options {

  datatype Option<+T> = None | Some(value: T)
}
