/** Shared failure-carrying datatypes. A C++ `throw` in the modelled code
    becomes an `Err` carrying the thrown message. */
module Outcomes {

  datatype Option<+T> = None | Some(value: T)

  datatype Result<+T> = Ok(value: T) | Err(msg: string)
}
