/** Values that may be missing (`null` or `undefined` in the application). */
module Common {

  datatype Option<+T> = None | Some(value: T)
}
