/** Optional values: JavaScript `null` / `undefined` fields and absent records. */
module Options {

  datatype Option<+T> = None | Some(value: T)
}
