/** The optional value that `Graphable::f` returns: present where the plotted
    function is defined at `x`, absent where it is not. */
module Wrappers {

  datatype Option<+T> = None | Some(value: T)
}
