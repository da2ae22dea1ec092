module Wrappers {

  datatype Option<+T> = None | Some(value: T)

  function B2N(b: bool): nat { if b then 1 else 0 }
}
