/** An optional value, used for the parse and decode results of the model. */
module Optional {

  datatype Option<+T> = None | Some(value: T)
}
