/** Values that may be absent: a query answer that is `null`, a lookup that found nothing. */
module Wrappers {

  datatype Option<+T> = None | Some(value: T)
}
