/** What several modules share. */
module Common {

  datatype Option<+T> = None | Some(value: T)

  type Byte = b: int | 0 <= b < 256

  type S16 = x: int | -0x8000 <= x < 0x8000
}
