/** What every module works on. */
module Bytes {
  type byte = x: int | 0 <= x < 256

  /** One disk sector. */
  type Sector = s: seq<byte> | |s| == 512 witness seq(512, i => 0)

  const SPACE: byte := 0x20

  datatype Option<+T> = None | Some(value: T)
}
