/** Values that may be absent: a query-string parameter the client did not
    send, a table row that does not exist. */
module Common {

  datatype Option<+T> = None | Some(value: T)

}
