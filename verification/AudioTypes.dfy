/** Values shared by every part of the server: bytes, addresses, compressions and the sizes that tie them together. */
module AudioTypes {

  datatype Option<+T> = None | Some(value: T)

  newtype byte = x: int | 0 <= x < 0x100
  type Bytes = seq<byte>

  type UInt16 = x: int | 0 <= x < 0x1_0000
  type UInt32 = x: int | 0 <= x < 0x1_0000_0000

  const TWO_TO_THE_32 := 0x1_0000_0000

  datatype Address = Address(bits: UInt32)

  datatype Compression = Uncompressed | Kbps64 | Kbps128 | Kbps192 | Kbps256 | Kbps320

  /** In bits per second; 0 stands for no compression. */
  function BitRate(c: Compression): nat {
    match c
    case Uncompressed => 0
    case Kbps64 => 64_000
    case Kbps128 => 128_000
    case Kbps192 => 192_000
    case Kbps256 => 256_000
    case Kbps320 => 320_000
  }

  // 10 ms of 48 kHz audio, two channels of two bytes each.
  const SAMPLES_PER_FRAME := 10 * 48_000 / 1000
  const FRAME_SIZE := SAMPLES_PER_FRAME * 2 * 2

  // Room for one encoded frame: twice the highest bit rate over 10 ms.
  const MAX_PACKET_SIZE := 2 * 320_000 * 10 / (1000 * 8)
}
