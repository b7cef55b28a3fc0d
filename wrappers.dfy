/** The optional value the pager hands back: `None` is the "no result" signal,
    distinct from a successful empty list. */
module Wrappers {

  datatype Option<+T> = None | Some(value: T)
}
