/** The optional-value wrapper shared by the other modules: Rust's `Option`
    and JavaScript's "field may be absent". */
module Wrappers {

  datatype Option<+T> = None | Some(value: T)

}
