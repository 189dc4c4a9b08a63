/** The optional value every nullable column and every absent row is. */
module Basics {
  datatype Option<+T> = None | Some(value: T)
  {
    function Or(default: T): T {
      if Some? then value else default
    }
  }
}
