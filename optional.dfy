/** The absent-or-present wrapper used for PHP's nullable values. */
module Optional {

  datatype Option<+T> = None | Some(value: T)
}
