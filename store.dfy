/** Values shared by every part of the model: optional values and the reply
    of the hosted data store, whose queries themselves are not modelled. */
module Store {

  datatype Option<+T> = None | Some(value: T)

  /** What a store query hands back: the selected rows, or an error. */
  datatype Reply<+T> = Rows(data: T) | Failed(message: string)
}
