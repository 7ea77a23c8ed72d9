/** The advertisement packet: the server's own IPv4 addresses, without the loopback address, four bytes each. */
module Advertising {
  import opened AudioTypes
  import opened Packets

  const LOOPBACK: UInt32 := 16777343
  const SLOT_SIZE := 4

  // ---- What the packet is meant to hold ------------------------------------------------------

  function Others(table: seq<UInt32>): seq<UInt32> {
    if table == [] then []
    else Others(table[..|table| - 1]) + (if table[|table| - 1] == LOOPBACK then [] else [table[|table| - 1]])
  }

  function Slots(addresses: seq<UInt32>): Bytes {
    if addresses == [] then [] else Slots(addresses[..|addresses| - 1]) + Big32(addresses[|addresses| - 1])
  }

  function Advertisement(addresses: seq<UInt32>): Bytes {
    Header(SERVER_ADVERTISE, DATA_OFFSET + SLOT_SIZE * |addresses|) + Slots(addresses)
  }

  /** The index of the last loopback entry, or -1. */
  function LoopbackIndex(table: seq<UInt32>): (i: int)
    ensures -1 <= i < |table|
    ensures i >= 0 ==> table[i] == LOOPBACK
    ensures forall j :: i < j < |table| ==> table[j] != LOOPBACK
  {
    if table == [] then -1
    else if table[|table| - 1] == LOOPBACK then |table| - 1
    else LoopbackIndex(table[..|table| - 1])
  }

  lemma {:induction false} SlotsLength(addresses: seq<UInt32>)
    ensures |Slots(addresses)| == SLOT_SIZE * |addresses|
  {
    if addresses != [] {
      SlotsLength(addresses[..|addresses| - 1]);
    }
  }

  lemma {:induction false} OthersOfNone(table: seq<UInt32>)
    requires LOOPBACK !in table
    ensures Others(table) == table
  {
    if table != [] {
      OthersOfNone(table[..|table| - 1]);
    }
  }

  lemma {:induction false} OthersLength(table: seq<UInt32>)
    ensures |Others(table)| <= |table| && (|Others(table)| == |table| <==> LOOPBACK !in table)
  {
    if table != [] {
      OthersLength(table[..|table| - 1]);
      assert table == table[..|table| - 1] + [table[|table| - 1]];
    }
  }

  // ---- What the code does --------------------------------------------------------------------

  function Least(a: nat, b: nat): nat {
    if a <= b then a else b
  }

  /** What the packet holds when it is built: the table without its last entry if that is the last loopback. */
  function Advertised(table: seq<UInt32>): seq<UInt32> {
    if LoopbackIndex(table) == -1 then table else table[..|table| - 1]
  }

  /** `table` is None if the address table could not be read. The result is None when a slot falls outside the packet,
      which the writer's own assertion rules out. */
  method CreateAdvertisePacket(table: Option<seq<UInt32>>) returns (packet: Option<array<byte>>)
    ensures table == None ==> packet.Some? && packet.value[..] == Advertisement([])
    ensures table.Some? ==> (packet.Some? <==> LoopbackIndex(table.value) in {-1, |table.value| - 1})
    ensures table.Some? && packet.Some? ==> packet.value[..] == Advertisement(Advertised(table.value))
  {
    var entries := if table.Some? then table.value else [];
    var loopbackIndex := FindLoopback(entries);
    var count := |entries| - (if loopbackIndex >= 0 then 1 else 0);
    var buffer := NewPacket(DATA_OFFSET + count * SLOT_SIZE);
    WriteHeader(SERVER_ADVERTISE, buffer);
    assert buffer[..DATA_OFFSET] == Header(SERVER_ADVERTISE, buffer.Length);
    assert entries[..|entries|] == entries && |Advertised(entries)| <= |entries|;
    var ok := WriteSlots(entries, loopbackIndex, count, buffer);
    packet := if ok then Some(buffer) else None;
  }

  /** Writes each address to the slot of its table index, skipping the loopback entry. */
  method WriteSlots(entries: seq<UInt32>, loopbackIndex: int, count: nat, buffer: array<byte>) returns (ok: bool)
    requires loopbackIndex == LoopbackIndex(entries)
    requires count == |entries| - (if loopbackIndex >= 0 then 1 else 0)
    requires buffer.Length == DATA_OFFSET + count * SLOT_SIZE
    modifies buffer
    ensures ok <==> loopbackIndex in {-1, |entries| - 1}
    ensures ok ==> buffer[..] == old(buffer[..DATA_OFFSET]) + Slots(entries[..count])
  {
    ghost var head := buffer[..DATA_OFFSET];
    for i := 0 to |entries|
      invariant loopbackIndex in {-1, |entries| - 1} || i < |entries|
      invariant loopbackIndex in {-1, |entries| - 1} ==>
                  buffer[..DATA_OFFSET + Least(i, count) * SLOT_SIZE] == head + Slots(entries[..Least(i, count)])
    {
      if i != loopbackIndex {
        if DATA_OFFSET + i * SLOT_SIZE + 4 > buffer.Length {
          return false;
        }
        assert entries[..i + 1][..i] == entries[..i];
        WriteSlot(entries[i], buffer, i);
      }
    }
    assert buffer[..buffer.Length] == buffer[..];
    ok := true;
  }

  method WriteSlot(address: UInt32, buffer: array<byte>, i: nat)
    requires DATA_OFFSET + (i + 1) * SLOT_SIZE <= buffer.Length
    modifies buffer
    ensures buffer[..DATA_OFFSET + (i + 1) * SLOT_SIZE] == old(buffer[..DATA_OFFSET + i * SLOT_SIZE]) + Big32(address)
  {
    WriteUInt32B(address, buffer, DATA_OFFSET + i * SLOT_SIZE);
    assert buffer[..][..DATA_OFFSET + (i + 1) * SLOT_SIZE] == buffer[..DATA_OFFSET + (i + 1) * SLOT_SIZE];
  }

  method FindLoopback(entries: seq<UInt32>) returns (index: int)
    ensures index == LoopbackIndex(entries)
  {
    index := -1;
    for i := 0 to |entries|
      invariant index == LoopbackIndex(entries[..i])
    {
      assert entries[..i + 1][..i] == entries[..i];
      if entries[i] == LOOPBACK {
        index := i;
      }
    }
    assert entries[..|entries|] == entries;
  }

  /** The packet is built and holds all other addresses, in order and without a gap, exactly when no entry before the
      last one is the loopback address: the slot index is the table index although one entry is left out. */
  lemma AdvertisesOthersIff(table: seq<UInt32>)
    requires table != []
    ensures (LoopbackIndex(table) in {-1, |table| - 1} && Advertised(table) == Others(table))
            <==> LOOPBACK !in table[..|table| - 1]
  {
    var front, last := table[..|table| - 1], table[|table| - 1];
    assert table == front + [last];
    OthersLength(front);
    if LOOPBACK !in front {
      OthersOfNone(front);
    } else {
      assert LoopbackIndex(front) >= 0;
    }
  }

  /** A table on which it does not work: with the loopback address first, the only other address belongs into a packet
      of one slot, but its slot is the second and lies outside. */
  method LoopbackFirst(other: UInt32) returns (packet: Option<array<byte>>)
    requires other != LOOPBACK
    ensures packet == None
    ensures Others([LOOPBACK, other]) == [other]
    ensures |Advertisement([other])| < DATA_OFFSET + SLOT_SIZE * (1 + 1)
  {
    var table := [LOOPBACK, other];
    assert table[..1] == [LOOPBACK];
    assert Others([LOOPBACK]) == [];
    SlotsLength([other]);
    packet := CreateAdvertisePacket(Some(table));
  }

  /** Reading the slots back gives the advertised addresses. */
  lemma {:induction false} SlotsRoundTrip(addresses: seq<UInt32>, i: nat)
    requires i < |addresses|
    ensures |Slots(addresses)| == SLOT_SIZE * |addresses|
    ensures ReadUInt32B(Slots(addresses), SLOT_SIZE * i) == addresses[i]
  {
    SlotsLength(addresses);
    var n := |addresses| - 1;
    SlotsLength(addresses[..n]);
    if i == n {
      FieldRoundTrip(Slots(addresses[..n]), [], 0, addresses[n]);
      assert Slots(addresses) == Slots(addresses[..n]) + Big32(addresses[n]) + [];
    } else {
      SlotsRoundTrip(addresses[..n], i);
      assert Slots(addresses)[..SLOT_SIZE * n] == Slots(addresses[..n]);
    }
  }

  /** The advertisement byte by byte: its header with its true length, and the address of each slot, high byte first.
      The loopback address is 127.0.0.1 with its first byte lowest. */
  lemma AdvertisementBytes(addresses: seq<UInt32>, hi: byte, lo: byte, i: nat, b0: byte, b1: byte, b2: byte, b3: byte)
    requires 5 + 4 * |addresses| == hi as int * 0x100 + lo as int && i < |addresses|
    requires addresses[i] == b0 as int * 0x100_0000 + b1 as int * 0x1_0000 + b2 as int * 0x100 + b3 as int
    ensures var packet := Advertisement(addresses);
            && |packet| == 5 + 4 * |addresses| && packet[..5] == [0xA5, 0x71, 0x40, hi, lo]
            && packet[5 + 4 * i..9 + 4 * i] == [b0, b1, b2, b3]
    ensures LOOPBACK == 127 + 0 * 0x100 + 0 * 0x1_0000 + 1 * 0x100_0000
  {
    SlotsLength(addresses);
    SlotsRoundTrip(addresses, i);
    FieldDetermined(Slots(addresses), 4 * i);
    BigEndian32(b0, b1, b2, b3);
    var packet := Advertisement(addresses);
    assert packet[..5] == Header(SERVER_ADVERTISE, 5 + 4 * |addresses|);
    assert packet[5 + 4 * i..9 + 4 * i] == Slots(addresses)[4 * i..4 * i + 4];
  }
}
