// Types that several modules share.
module Common {

  datatype Option<T> = None | Some(value: T)

  datatype Result<T> = Ok(value: T) | Err(message: string)

  type Bits2 = x: int | 0 <= x < 4
}
