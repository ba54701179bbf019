/** Types shared by every part of the model. */
module Base {

  /** One octet, as packets, streams and header bytes carry it. */
  type byte = x: int | 0 <= x < 256

  /** No IP datagram is longer, headers included. */
  const MAX_DATAGRAM := 65535

  datatype Option<+T> = None | Some(value: T)
}
