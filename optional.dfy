/** An optional value: the panel's nullable upload session token and retry delays. */
module Optional {

  datatype Option<+T> = None | Some(value: T)

}
