/** Byte strings and the small wrappers shared by every component. */
module Wire {
  newtype byte = b: int | 0 <= b < 0x100

  type Bytes = seq<byte>

  datatype Option<+T> = None | Some(value: T)

  datatype Result<+R, +E> = Success(value: R) | Failure(error: E)

  /** The identity slot that a worker fills in to announce that it is free: b"ready". */
  const WORKER_READY: Bytes := [114, 101, 97, 100, 121]
}
