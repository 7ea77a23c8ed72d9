/** The datagram format: big-endian fields behind a five-byte header (signature, category, size). */
module Packets {
  import opened AudioTypes

  const PROTOCOL_SIGNATURE: UInt16 := 0xA571
  const PROTOCOL_VERSION: byte := 1

  const CATEGORY_OFFSET := 2
  const SIZE_OFFSET := 3
  const DATA_OFFSET := 5
  const AUDIO_DATA_OFFSET := DATA_OFFSET + 4
  const ACK_CUSTOM_DATA_OFFSET := DATA_OFFSET + 2
  const ACK_SIZE := 2 + 4

  const ERROR: byte := 0x00
  const CONNECT: byte := 0x01
  const DISCONNECT: byte := 0x02
  const SET_FORMAT: byte := 0x03
  const KEYSTROKE: byte := 0x10
  const AUDIO_UNCOMPRESSED: byte := 0x20
  const AUDIO_OPUS: byte := 0x21
  const CLIENT_KEEP_ALIVE: byte := 0x30
  const SERVER_KEEP_ALIVE: byte := 0x31
  const SERVER_ADVERTISE: byte := 0x40
  const ACK: byte := 0xF0

  datatype ConnectData = ConnectData(protocol: byte, requestId: UInt16, compression: byte)
  datatype SetFormatData = SetFormatData(requestId: UInt16, compression: byte)
  datatype KeyPress = KeyPress(key: byte, mods: byte)

  // ---- What the fields look like on the wire -------------------------------------------------

  function Big16(value: UInt16): (b: Bytes)
    ensures |b| == 2
  {
    [(value / 0x100) as byte, (value % 0x100) as byte]
  }

  function Big32(value: UInt32): (b: Bytes)
    ensures |b| == 4
  {
    [(value / 0x100_0000) as byte, (value / 0x1_0000 % 0x100) as byte,
     (value / 0x100 % 0x100) as byte, (value % 0x100) as byte]
  }

  function Little16(value: UInt16): (b: Bytes)
    ensures |b| == 2
  {
    [(value % 0x100) as byte, (value / 0x100) as byte]
  }

  function Header(category: byte, size: nat): (h: Bytes)
    ensures |h| == DATA_OFFSET
  {
    Big16(PROTOCOL_SIGNATURE) + [category] + Big16(size % 0x1_0000)
  }

  function AudioPacket(category: byte, number: UInt32, payload: Bytes): Bytes {
    Header(category, AUDIO_DATA_OFFSET + |payload|) + Big32(number) + payload
  }

  function BarePacket(category: byte): Bytes {
    Header(category, DATA_OFFSET)
  }

  function AckConnectPacket(requestId: UInt16): Bytes {
    Header(ACK, DATA_OFFSET + ACK_SIZE) + Big16(requestId) + [PROTOCOL_VERSION, 0, 0, 0]
  }

  function AckSetFormatPacket(requestId: UInt16): Bytes {
    Header(ACK, DATA_OFFSET + ACK_SIZE) + Big16(requestId) + [0, 0, 0, 0]
  }

  // ---- Readers -------------------------------------------------------------------------------

  function ReadUInt8(data: Bytes, offset: nat): byte
    requires offset + 1 <= |data|
  {
    data[offset]
  }

  function ReadUInt16B(data: Bytes, offset: nat): UInt16
    requires offset + 2 <= |data|
  {
    data[offset] as int * 0x100 + data[offset + 1] as int
  }

  function ReadUInt16L(data: Bytes, offset: nat): UInt16
    requires offset + 2 <= |data|
  {
    data[offset] as int + data[offset + 1] as int * 0x100
  }

  function ReadUInt32B(data: Bytes, offset: nat): UInt32
    requires offset + 4 <= |data|
  {
    data[offset] as int * 0x100_0000 + data[offset + 1] as int * 0x1_0000
    + data[offset + 2] as int * 0x100 + data[offset + 3] as int
  }

  function CompressionFromNetworkValue(value: byte): Option<Compression> {
    match value as int
    case 0 => Some(Uncompressed)
    case 1 => Some(Kbps64)
    case 2 => Some(Kbps128)
    case 3 => Some(Kbps192)
    case 4 => Some(Kbps256)
    case 5 => Some(Kbps320)
    case _ => None
  }

  function GetPacketCategory(packet: Bytes): byte {
    if |packet| < DATA_OFFSET then ERROR
    else if ReadUInt16B(packet, 0) != PROTOCOL_SIGNATURE then ERROR
    else ReadUInt8(packet, CATEGORY_OFFSET)
  }

  function GetKeystroke(packet: Bytes): Option<KeyPress> {
    if |packet| < DATA_OFFSET + 2 then None
    else Some(KeyPress(ReadUInt8(packet, DATA_OFFSET), ReadUInt8(packet, DATA_OFFSET + 1)))
  }

  function GetConnectData(packet: Bytes): Option<ConnectData> {
    if |packet| < DATA_OFFSET + 4 then None
    else Some(ConnectData(ReadUInt8(packet, DATA_OFFSET), ReadUInt16B(packet, DATA_OFFSET + 1),
                          ReadUInt8(packet, DATA_OFFSET + 3)))
  }

  function GetSetFormatData(packet: Bytes): Option<SetFormatData> {
    if |packet| < DATA_OFFSET + 3 then None
    else Some(SetFormatData(ReadUInt16B(packet, DATA_OFFSET), ReadUInt8(packet, DATA_OFFSET + 2)))
  }

  // ---- In-place writers ----------------------------------------------------------------------

  method WriteUInt8(value: byte, dest: array<byte>, offset: nat)
    requires offset + 1 <= dest.Length
    modifies dest
    ensures dest[..] == old(dest[..offset]) + [value] + old(dest[offset + 1..])
  {
    dest[offset] := value;
  }

  method WriteUInt16B(value: UInt16, dest: array<byte>, offset: nat)
    requires offset + 2 <= dest.Length
    modifies dest
    ensures dest[..] == old(dest[..offset]) + Big16(value) + old(dest[offset + 2..])
  {
    dest[offset] := (value / 0x100) as byte;
    dest[offset + 1] := (value % 0x100) as byte;
  }

  method WriteUInt16L(value: UInt16, dest: array<byte>, offset: nat)
    requires offset + 2 <= dest.Length
    modifies dest
    ensures dest[..] == old(dest[..offset]) + Little16(value) + old(dest[offset + 2..])
  {
    dest[offset] := (value % 0x100) as byte;
    dest[offset + 1] := (value / 0x100) as byte;
  }

  method WriteUInt32B(value: UInt32, dest: array<byte>, offset: nat)
    requires offset + 4 <= dest.Length
    modifies dest
    ensures dest[..] == old(dest[..offset]) + Big32(value) + old(dest[offset + 4..])
  {
    dest[offset] := (value / 0x100_0000) as byte;
    dest[offset + 1] := (value / 0x1_0000 % 0x100) as byte;
    dest[offset + 2] := (value / 0x100 % 0x100) as byte;
    dest[offset + 3] := (value % 0x100) as byte;
  }

  method WriteHeader(category: byte, dest: array<byte>)
    requires DATA_OFFSET <= dest.Length
    modifies dest
    ensures dest[..] == Header(category, dest.Length) + old(dest[DATA_OFFSET..])
  {
    WriteUInt16B(PROTOCOL_SIGNATURE, dest, 0);
    WriteUInt8(category, dest, CATEGORY_OFFSET);
    WriteUInt16B(dest.Length % 0x1_0000, dest, SIZE_OFFSET);
  }

  // A new buffer is zero-initialised.
  method NewPacket(size: nat) returns (packet: array<byte>)
    ensures fresh(packet) && packet.Length == size
    ensures forall i :: 0 <= i < size ==> packet[i] == 0
  {
    packet := new byte[size](_ => 0);
  }

  method CreateAudioPacket(category: byte, number: UInt32, payload: Bytes) returns (packet: array<byte>)
    ensures fresh(packet) && packet[..] == AudioPacket(category, number, payload)
  {
    packet := NewPacket(AUDIO_DATA_OFFSET + |payload|);
    WriteHeader(category, packet);
    WriteUInt32B(number, packet, DATA_OFFSET);
    ghost var head := packet[..AUDIO_DATA_OFFSET];
    for i := 0 to |payload|
      invariant packet[..AUDIO_DATA_OFFSET] == head
      invariant packet[AUDIO_DATA_OFFSET..AUDIO_DATA_OFFSET + i] == payload[..i]
    {
      packet[AUDIO_DATA_OFFSET + i] := payload[i];
    }
    assert packet[..] == head + packet[AUDIO_DATA_OFFSET..];
  }

  method CreateBarePacket(category: byte) returns (packet: array<byte>)
    ensures fresh(packet) && packet[..] == BarePacket(category)
  {
    packet := NewPacket(DATA_OFFSET);
    WriteHeader(category, packet);
  }

  method CreateAckConnectPacket(requestId: UInt16) returns (packet: array<byte>)
    ensures fresh(packet) && packet[..] == AckConnectPacket(requestId)
  {
    packet := NewPacket(DATA_OFFSET + ACK_SIZE);
    WriteHeader(ACK, packet);
    WriteUInt16B(requestId, packet, DATA_OFFSET);
    ghost var head := packet[..ACK_CUSTOM_DATA_OFFSET];
    assert packet[ACK_CUSTOM_DATA_OFFSET..] == [0, 0, 0, 0];
    WriteUInt8(PROTOCOL_VERSION, packet, ACK_CUSTOM_DATA_OFFSET);
    assert packet[..] == head + [PROTOCOL_VERSION, 0, 0, 0];
  }

  method CreateAckSetFormatPacket(requestId: UInt16) returns (packet: array<byte>)
    ensures fresh(packet) && packet[..] == AckSetFormatPacket(requestId)
  {
    packet := NewPacket(DATA_OFFSET + ACK_SIZE);
    WriteHeader(ACK, packet);
    WriteUInt16B(requestId, packet, DATA_OFFSET);
  }

  // ---- Reading undoes writing ----------------------------------------------------------------

  lemma Split32(v: UInt32)
    ensures v == v / 0x100_0000 * 0x100_0000 + v / 0x1_0000 % 0x100 * 0x1_0000 + v / 0x100 % 0x100 * 0x100 + v % 0x100
  {
    var a, b := v / 0x100, v / 0x1_0000;
    assert b == a / 0x100 && v / 0x100_0000 == b / 0x100;
  }

  /** Reading a field back from any place it was written to gives the value, for every value of the width. */
  lemma FieldRoundTrip(before: Bytes, after: Bytes, v16: UInt16, v32: UInt32)
    ensures ReadUInt16B(before + Big16(v16) + after, |before|) == v16
    ensures ReadUInt16L(before + Little16(v16) + after, |before|) == v16
    ensures ReadUInt32B(before + Big32(v32) + after, |before|) == v32
  {
    var n := |before|;
    assert (before + Big16(v16) + after)[n..n + 2] == Big16(v16);
    assert (before + Little16(v16) + after)[n..n + 2] == Little16(v16);
    assert (before + Big32(v32) + after)[n..n + 4] == Big32(v32);
    Split32(v32);
  }

  /** The other way round: a field is determined by its value, so no two byte strings read alike. */
  lemma FieldDetermined(data: Bytes, offset: nat)
    requires offset + 4 <= |data|
    ensures Big32(ReadUInt32B(data, offset)) == data[offset..offset + 4]
    ensures Big16(ReadUInt16B(data, offset)) == data[offset..offset + 2]
    ensures Little16(ReadUInt16L(data, offset)) == data[offset..offset + 2]
  {
    var v := ReadUInt32B(data, offset);
    var b0, b1, b2, b3 := data[offset] as int, data[offset + 1] as int, data[offset + 2] as int, data[offset + 3] as int;
    assert v / 0x100_0000 == b0 && v / 0x1_0000 == b0 * 0x100 + b1 && v / 0x100 == b0 * 0x1_0000 + b1 * 0x100 + b2;
  }

  /** The digits of a number, the highest first. */
  lemma BigEndian32(b0: byte, b1: byte, b2: byte, b3: byte)
    ensures Big32(b0 as int * 0x100_0000 + b1 as int * 0x1_0000 + b2 as int * 0x100 + b3 as int) == [b0, b1, b2, b3]
  {
    var x0, x1, x2, x3 := b0 as int, b1 as int, b2 as int, b3 as int;
    var v := x0 * 0x100_0000 + x1 * 0x1_0000 + x2 * 0x100 + x3;
    assert v / 0x100_0000 == x0 && v / 0x1_0000 == x0 * 0x100 + x1 && v / 0x100 == x0 * 0x1_0000 + x1 * 0x100 + x2;
  }

  lemma BigEndian16(hi: byte, lo: byte)
    ensures Big16(hi as int * 0x100 + lo as int) == [hi, lo] && Little16(hi as int * 0x100 + lo as int) == [lo, hi]
  {
  }

  lemma HeaderFields(category: byte, size: nat, rest: Bytes)
    ensures GetPacketCategory(Header(category, size) + rest) == category
    ensures ReadUInt16B(Header(category, size) + rest, SIZE_OFFSET) == size % 0x1_0000
  {
    var p := Header(category, size) + rest;
    var sig, len := Big16(PROTOCOL_SIGNATURE), Big16(size % 0x1_0000);
    assert p == [] + sig + ([category] + len + rest);
    FieldRoundTrip([], [category] + len + rest, PROTOCOL_SIGNATURE, 0);
    assert p == (sig + [category]) + len + rest;
    FieldRoundTrip(sig + [category], rest, size % 0x1_0000, 0);
  }

  /** What a client reads back from an audio packet. */
  function AudioNumber(packet: Bytes): UInt32
    requires AUDIO_DATA_OFFSET <= |packet|
  {
    ReadUInt32B(packet, DATA_OFFSET)
  }

  function AudioPayload(packet: Bytes): Bytes
    requires AUDIO_DATA_OFFSET <= |packet|
  {
    packet[AUDIO_DATA_OFFSET..]
  }

  predicate IsAudio(packet: Bytes) {
    AUDIO_DATA_OFFSET <= |packet| && GetPacketCategory(packet) in {AUDIO_UNCOMPRESSED, AUDIO_OPUS}
  }

  /** Category, number and payload come back unchanged, and the size field is the true length exactly while
      the payload leaves room for it in 16 bits. */
  lemma AudioPacketRoundTrip(category: byte, number: UInt32, payload: Bytes)
    ensures var p := AudioPacket(category, number, payload);
            && |p| == AUDIO_DATA_OFFSET + |payload|
            && GetPacketCategory(p) == category && AudioNumber(p) == number && AudioPayload(p) == payload
            && (ReadUInt16B(p, SIZE_OFFSET) == |p| <==> |payload| < 0x1_0000 - AUDIO_DATA_OFFSET)
  {
    var head := Header(category, AUDIO_DATA_OFFSET + |payload|);
    var p := AudioPacket(category, number, payload);
    assert p == head + (Big32(number) + payload);
    HeaderFields(category, AUDIO_DATA_OFFSET + |payload|, Big32(number) + payload);
    FieldRoundTrip(head, payload, 0, number);
    assert p == (head + Big32(number)) + payload;
  }

  /** Every packet without audio is recognised by its category, and an acknowledgement carries its request id. */
  lemma OtherPacketsRoundTrip(category: byte, requestId: UInt16)
    ensures GetPacketCategory(BarePacket(category)) == category
    ensures GetPacketCategory(AckConnectPacket(requestId)) == ACK
    ensures ReadUInt16B(AckConnectPacket(requestId), DATA_OFFSET) == requestId
    ensures ReadUInt8(AckConnectPacket(requestId), ACK_CUSTOM_DATA_OFFSET) == PROTOCOL_VERSION
    ensures GetPacketCategory(AckSetFormatPacket(requestId)) == ACK
    ensures ReadUInt16B(AckSetFormatPacket(requestId), DATA_OFFSET) == requestId
    ensures AckConnectPacket(requestId) != AckSetFormatPacket(requestId)
  {
    HeaderFields(category, DATA_OFFSET, []);
    assert BarePacket(category) + [] == BarePacket(category);
    var head := Header(ACK, DATA_OFFSET + ACK_SIZE);
    var tail: Bytes := [PROTOCOL_VERSION, 0, 0, 0];
    assert AckConnectPacket(requestId) == head + (Big16(requestId) + tail);
    HeaderFields(ACK, DATA_OFFSET + ACK_SIZE, Big16(requestId) + tail);
    FieldRoundTrip(head, tail, requestId, 0);
    var zeros: Bytes := [0, 0, 0, 0];
    assert AckSetFormatPacket(requestId) == head + (Big16(requestId) + zeros);
    HeaderFields(ACK, DATA_OFFSET + ACK_SIZE, Big16(requestId) + zeros);
    FieldRoundTrip(head, zeros, requestId, 0);
    assert AckConnectPacket(requestId)[ACK_CUSTOM_DATA_OFFSET] == PROTOCOL_VERSION;
    assert AckSetFormatPacket(requestId)[ACK_CUSTOM_DATA_OFFSET] == 0;
  }
}
