/** Fixed-width integer types of the C sources, an Option wrapper, and the
    constants the library takes from its public header. */
module Common {

  /** The C integer widths the library uses, as ranges of unbounded integers. */
  type u8 = x: int | 0 <= x < 0x100
  type u16 = x: int | 0 <= x < 0x1_0000
  type u32 = x: int | 0 <= x < 0x1_0000_0000
  type i16 = x: int | -0x8000 <= x < 0x8000
  type i32 = x: int | -0x8000_0000 <= x < 0x8000_0000

  datatype Option<+T> = None | Some(value: T)

  /** Truncation of an integer to `uint16_t` (assignment of an `int`
      expression to a 16-bit unsigned field). */
  function ToU16(x: int): (r: u16)
    ensures 0 <= x < 0x1_0000 ==> r == x
    ensures (r - x) % 0x1_0000 == 0
  {
    x % 0x1_0000
  }

  /** A 32-bit word read back as a two's-complement `int`. */
  function ToInt32(w: u32): (r: i32)
    ensures r < 0 <==> w >= 0x8000_0000
    ensures (r - w) % 0x1_0000_0000 == 0
  {
    if w < 0x8000_0000 then w else w - 0x1_0000_0000
  }

  // Error codes of the public header. The libusb-derived ones carry the
  // libusb values they alias.
  const ErrorUsbIo: int := -1
  const ErrorUsbNoDevice: int := -4
  const ErrorUsbNotFound: int := -5
  const ErrorUsbBusy: int := -6
  const ErrorInvalidParameter: int := -150
  const ErrorChirp: int := -151
  const ErrorInvalidCommand: int := -152

  /** Returned by the interpreter when its service thread is not running. */
  const ErrorNotRunning: int := -201
  /** Returned by a frame request while an earlier one is still outstanding. */
  const ErrorFramePending: int := -202
  /** Returned by every per-uid entry point when the uid is not registered. */
  const UnknownUid: int := -1

  /** USB vendor and product id of the camera. */
  const PixyVid: int := 0xB1AC
  const PixyPid: int := 0xF000
}
