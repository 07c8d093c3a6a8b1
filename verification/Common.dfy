/** Small datatypes shared by every module. */
module Common {
  datatype Option<+T> = None | Some(value: T)

  /** A text that is only compared as a whole: an identifier, a tenant, a canonical result. */
  datatype Name = Name(text: string)

  datatype Result<+T, +E> = Ok(value: T) | Err(error: E)

  type Byte = n: nat | n < 256

  /** A number in network byte order. */
  function NetworkOrder(s: seq<Byte>): nat { if s == [] then 0 else NetworkOrder(s[..|s| - 1]) * 256 + s[|s| - 1] }
}
