/** Small definitions shared by the fleet and wallet models: a value that may
    be missing (a nullable field, an absent lookup result or an input that did
    not parse), and the absolute value of an amount or offset. */
module Wrappers {
  datatype Option<+T> = None | Some(value: T)

  function Abs(x: real): real {
    if x < 0.0 then -x else x
  }
}
