/** The optional value used for "no stroke this step", "no image loaded" and "no canvas size yet". */
module Options {
  datatype Option<T> = None | Some(value: T)
}
