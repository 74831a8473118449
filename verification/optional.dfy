/** A value that may be absent: the tracker id of a detection, the alert of one person. */
module Optional {

  datatype Option<+T> = None | Some(value: T)
}
