/** A value that may be missing: an empty spreadsheet cell, or a scoring run that failed. */
module Optional {

  datatype Option<+T> = None | Some(value: T)

}
