/** Shared vocabulary of the Hue+ driver model: octets, optional values and the
    errors the driver raises. */
module Base {

  /** One octet on the serial wire. */
  type Byte = x: int | 0 <= x < 256

  datatype Option<T> = None | Some(value: T)

  /** The exceptions the driver throws or rejects with. */
  datatype Error =
    | IndexOutOfBounds   // "LED index out of bounds"
    | ColourOutOfRange   // "Colour must be in the range 0-255"
    | NotConnected       // update() before the handshake completed
    | PortOpenFailed     // the serial port refused to open

  datatype Result<T> = Ok(value: T) | Err(error: Error)

  /** Whether an operation returned normally or threw. */
  datatype Outcome = Done | Failed(error: Error)
}
