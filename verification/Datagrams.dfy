/** The datagrams byte by byte, as a client sees them: what each one does to the registry, what is answered, and what
    the server sends of its own accord. The statements are about literal bytes only. */
module Datagrams {
  import opened AudioTypes
  import opened Registry
  import opened Packets
  import opened Machine
  import opened Runs
  import opened Registrations

  // ---- What clients send ---------------------------------------------------------------------

  ghost predicate Is(d: Bytes, category: byte) {
    5 <= |d| && d[0] == 0xA5 && d[1] == 0x71 && d[2] == category
  }

  /** The bit rates by their codes. */
  const RATES: seq<nat> := [0, 64_000, 128_000, 192_000, 256_000, 320_000]

  ghost predicate AsksToConnect(d: Bytes) {
    Is(d, 0x01) && 9 <= |d| && d[8] <= 5
  }

  ghost predicate AsksForFormat(d: Bytes) {
    Is(d, 0x03) && 8 <= |d| && d[7] <= 5
  }

  ghost predicate Keystrikes(d: Bytes) {
    Is(d, 0x10) && 7 <= |d|
  }

  /** `a` is registered at a bit rate, last heard from at `now`; for everybody else nothing changed. */
  ghost predicate Registers(reg: ClientMap, after: ClientMap, a: Address, rate: nat, now: int) {
    && a in after && BitRate(after[a].compression) == rate && after[a].lastContact == now
    && after - {a} == reg - {a}
  }

  lemma CategoryOf(d: Bytes, category: byte)
    requires category != 0
    ensures GetPacketCategory(d) == category <==> Is(d, category)
  {
    if 5 <= |d| {
      var hi, lo := d[0] as int, d[1] as int;
      assert hi * 0x100 + lo == 0xA571 <==> hi == 0xA5 && lo == 0x71;
    }
  }

  lemma CompressionCodes(code: byte)
    ensures CompressionFromNetworkValue(code).Some? <==> code <= 5
    ensures code <= 5 ==> BitRate(CompressionFromNetworkValue(code).value) == RATES[code as int]
  {
  }

  lemma Categories(d: Bytes)
    ensures GetPacketCategory(d) == CONNECT <==> Is(d, 0x01)
    ensures GetPacketCategory(d) == DISCONNECT <==> Is(d, 0x02)
    ensures GetPacketCategory(d) == SET_FORMAT <==> Is(d, 0x03)
    ensures GetPacketCategory(d) == KEYSTROKE <==> Is(d, 0x10)
    ensures GetPacketCategory(d) == CLIENT_KEEP_ALIVE <==> Is(d, 0x30)
  {
    CategoryOf(d, 0x01);
    CategoryOf(d, 0x02);
    CategoryOf(d, 0x03);
    CategoryOf(d, 0x10);
    CategoryOf(d, 0x30);
  }

  /** The packets without audio, byte by byte; an acknowledgement carries the two bytes of the request id. */
  lemma PacketBytes(category: byte, hi: byte, lo: byte)
    ensures BarePacket(category) == [0xA5, 0x71, category, 0, 5]
    ensures AckConnectPacket(hi as int * 0x100 + lo as int) == [0xA5, 0x71, 0xF0, 0, 11, hi, lo, 1, 0, 0, 0]
    ensures AckSetFormatPacket(hi as int * 0x100 + lo as int) == [0xA5, 0x71, 0xF0, 0, 11, hi, lo, 0, 0, 0, 0]
  {
    assert Header(category, 5) == [0xA5, 0x71, category, 0, 5];
    assert Header(0xF0, 11) == [0xA5, 0x71, 0xF0, 0, 11];
    BigEndian16(hi, lo);
  }

  /** What any byte string at all does to the registry. */
  lemma RegistryMeaning(reg: ClientMap, from: Address, d: Bytes, now: int)
    ensures var after := AfterDatagram(reg, from, d, now);
            if AsksToConnect(d) then Registers(reg, after, from, RATES[d[8] as int], now)
            else if AsksForFormat(d) && from in reg then
              Registers(reg, after, from, RATES[d[7] as int], reg[from].lastContact)
            else if Is(d, 0x02) then after == reg - {from}
            else if Is(d, 0x30) && from in reg then
              Registers(reg, after, from, BitRate(reg[from].compression), now)
            else after == reg
  {
    Categories(d);
    if Is(d, 0x01) && 9 <= |d| {
      CompressionCodes(d[8]);
    }
    if Is(d, 0x03) && 8 <= |d| {
      CompressionCodes(d[7]);
    }
  }

  /** What is answered to it, and what is typed. */
  lemma AnswerMeaning(d: Bytes)
    ensures Answer(d) == if AsksToConnect(d) then [[0xA5, 0x71, 0xF0, 0, 11, d[6], d[7], 1, 0, 0, 0]]
                         else if AsksForFormat(d) then [[0xA5, 0x71, 0xF0, 0, 11, d[5], d[6], 0, 0, 0, 0]]
                         else []
    ensures Typed(d) == if Keystrikes(d) then [KeyPress(d[5], d[6])] else []
  {
    Categories(d);
    if Is(d, 0x01) && 9 <= |d| {
      CompressionCodes(d[8]);
      PacketBytes(0, d[6], d[7]);
    }
    if Is(d, 0x03) && 8 <= |d| {
      CompressionCodes(d[7]);
      PacketBytes(0, d[5], d[6]);
    }
  }

  /** A datagram ends the program exactly if, while a pipe runs, it brings a compression into use that nobody used
      before and for which the library refuses an encoder. */
  lemma EndsProgram(s: State, from: Address, d: Bytes, w: World, timeout: int)
    requires Consistent(s) && s.Running?
    ensures Step(s, Receive(from, d), w, timeout).Stopped?
       <==> s.pipe.Some? && exists c :: c != Uncompressed && c in w.brokenEncoders && c !in InUse(s.registry)
                                        && c in InUse(AfterDatagram(s.registry, from, d, w.now))
  {
  }

  // ---- What the server sends -----------------------------------------------------------------

  /** Every tick greets every registered client, shutting down takes leave of them, and a datagram is answered to its
      sender alone unless the step ends the program. */
  lemma SentMeaning(s: State, e: Event, w: World, served: set<Compression>, timeout: int, a: Address)
    requires s.Running? && !e.Capture?
    ensures Sent(s, e, w, served, a)
         == if e.Tick? && a in s.registry then [[0xA5, 0x71, 0x31, 0, 5]]
            else if e.Shutdown? && a in s.registry then [[0xA5, 0x71, 0x02, 0, 5]]
            else if e.Receive? && a == e.from && Step(s, e, w, timeout).Running? then Answer(e.datagram)
            else []
  {
    PacketBytes(0x31, 0, 0);
    PacketBytes(0x02, 0, 0);
  }

  /** An audio packet byte by byte: `b0` to `b3` are the digits of its number, `hi` and `lo` those of its length. */
  lemma AudioPacketBytes(category: byte, b0: byte, b1: byte, b2: byte, b3: byte, hi: byte, lo: byte, payload: Bytes)
    requires 9 + |payload| == hi as int * 0x100 + lo as int
    ensures AudioPacket(category, b0 as int * 0x100_0000 + b1 as int * 0x1_0000 + b2 as int * 0x100 + b3 as int, payload)
         == [0xA5, 0x71, category, hi, lo, b0, b1, b2, b3] + payload
  {
    BigEndian32(b0, b1, b2, b3);
    BigEndian16(hi, lo);
  }

  // ---- Whole runs ----------------------------------------------------------------------------

  /** The code that `a` last asked for, by connecting or later. */
  ghost function LastAsked(run: seq<Moment>, a: Address): Option<byte> {
    if run == [] then None
    else
      var n := |run| - 1;
      var e := run[n].event;
      if e.Receive? && e.from == a && AsksToConnect(e.datagram) then Some(e.datagram[8])
      else if e.Receive? && e.from == a && AsksForFormat(e.datagram) then Some(e.datagram[7])
      else LastAsked(run[..n], a)
  }

  /** Over every run a registered client has the bit rate it asked for last: nothing else ever changes it. */
  lemma {:induction false} RateIsLastAsked(run: seq<Moment>, timeout: int, a: Address)
    ensures var s := After(INITIAL, run, timeout);
            s.Running? && a in s.registry ==>
              && LastAsked(run, a).Some? && LastAsked(run, a).value <= 5
              && BitRate(s.registry[a].compression) == RATES[LastAsked(run, a).value as int]
  {
    if run != [] {
      var n := |run| - 1;
      RateIsLastAsked(run[..n], timeout, a);
      var before, e := After(INITIAL, run[..n], timeout), run[n].event;
      if before.Running? && e.Receive? {
        RegistryMeaning(before.registry, e.from, e.datagram, run[n].world.now);
      }
    }
  }

  /** Over every run the keystrokes reported are those of the complete keystroke datagrams, in order. */
  ghost function Keystruck(run: seq<Moment>): seq<KeyPress> {
    if run == [] then []
    else
      var n := |run| - 1;
      var e := run[n].event;
      Keystruck(run[..n])
      + (if e.Receive? && Keystrikes(e.datagram) then [KeyPress(e.datagram[5], e.datagram[6])] else [])
  }

  lemma {:induction false} TypedIsKeystruck(run: seq<Moment>, timeout: int)
    ensures var s := After(INITIAL, run, timeout); s.Running? ==> s.typed == Keystruck(run)
  {
    if run != [] {
      var n := |run| - 1;
      TypedIsKeystruck(run[..n], timeout);
      if run[n].event.Receive? {
        AnswerMeaning(run[n].event.datagram);
      }
    }
  }
}
