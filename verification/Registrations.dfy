/** How long a client stays registered, over whole runs, and what a single datagram can do. */
module Registrations {
  import opened AudioTypes
  import opened Registry
  import opened Packets
  import opened Machine

  // ---- Datagrams -----------------------------------------------------------------------------

  ghost predicate IsConnect(d: Bytes) {
    GetPacketCategory(d) == CONNECT && DATA_OFFSET + 4 <= |d| && d[DATA_OFFSET + 3] <= 5
  }

  ghost predicate IsSetFormat(d: Bytes) {
    GetPacketCategory(d) == SET_FORMAT && DATA_OFFSET + 3 <= |d| && d[DATA_OFFSET + 2] <= 5
  }

  ghost predicate IsKeystroke(d: Bytes) {
    GetPacketCategory(d) == KEYSTROKE && DATA_OFFSET + 2 <= |d|
  }

  /** A datagram is acknowledged exactly if it is a complete Connect or SetFormat with a known compression; any
      datagram that is neither of those nor a Disconnect, KeepAlive or complete Keystroke has no effect at all. */
  lemma DatagramEffects(reg: ClientMap, from: Address, d: Bytes, now: int)
    ensures |Answer(d)| == if IsConnect(d) || IsSetFormat(d) then 1 else 0
    ensures !IsConnect(d) && !IsSetFormat(d) && GetPacketCategory(d) !in {DISCONNECT, CLIENT_KEEP_ALIVE} ==>
              AfterDatagram(reg, from, d, now) == reg
    ensures |Typed(d)| == if IsKeystroke(d) then 1 else 0
    ensures |d| < DATA_OFFSET ==> AfterDatagram(reg, from, d, now) == reg && Answer(d) == [] && Typed(d) == []
    ensures forall a :: a != from ==>
              (a in AfterDatagram(reg, from, d, now) <==> a in reg)
              && (a in reg ==> AfterDatagram(reg, from, d, now)[a] == reg[a])
  {
  }

  /** The requests as a client writes them. */
  function ConnectDatagram(protocol: byte, id: UInt16, code: byte): Bytes {
    Header(CONNECT, DATA_OFFSET + 4) + ([protocol] + Big16(id) + [code])
  }

  function SetFormatDatagram(id: UInt16, code: byte): Bytes {
    Header(SET_FORMAT, DATA_OFFSET + 3) + (Big16(id) + [code])
  }

  function KeystrokeDatagram(k: KeyPress): Bytes {
    Header(KEYSTROKE, DATA_OFFSET + 2) + [k.key, k.mods]
  }

  /** A well-formed Connect registers its sender with the compression it names and is acknowledged once, with its own
      request id; whatever protocol version it announces. */
  lemma ConnectRoundTrip(reg: ClientMap, from: Address, protocol: byte, id: UInt16, code: byte, c: Compression, now: int)
    requires CompressionFromNetworkValue(code) == Some(c)
    ensures var d := ConnectDatagram(protocol, id, code);
            && AfterDatagram(reg, from, d, now) == reg[from := Client(c, now)]
            && Answer(d) == [AckConnectPacket(id)] && Typed(d) == []
  {
    var head, body := Header(CONNECT, DATA_OFFSET + 4), [protocol] + Big16(id) + [code];
    var d := ConnectDatagram(protocol, id, code);
    HeaderFields(CONNECT, DATA_OFFSET + 4, body);
    assert d == (head + [protocol]) + Big16(id) + [code];
    FieldRoundTrip(head + [protocol], [code], id, 0);
    assert d[DATA_OFFSET + 3] == code;
  }

  /** A well-formed SetFormat changes the sender's compression and nothing else, has no effect on a stranger, and is
      acknowledged either way. */
  lemma SetFormatRoundTrip(reg: ClientMap, from: Address, id: UInt16, code: byte, c: Compression, now: int)
    requires CompressionFromNetworkValue(code) == Some(c)
    ensures var d := SetFormatDatagram(id, code);
            && AfterDatagram(reg, from, d, now)
               == (if from in reg then reg[from := Client(c, reg[from].lastContact)] else reg)
            && Answer(d) == [AckSetFormatPacket(id)] && Typed(d) == []
  {
    var head, body := Header(SET_FORMAT, DATA_OFFSET + 3), Big16(id) + [code];
    var d := SetFormatDatagram(id, code);
    HeaderFields(SET_FORMAT, DATA_OFFSET + 3, body);
    assert d == head + Big16(id) + [code];
    FieldRoundTrip(head, [code], id, 0);
    assert d[DATA_OFFSET + 2] == code;
  }

  lemma KeystrokeRoundTrip(reg: ClientMap, from: Address, k: KeyPress, now: int)
    ensures var d := KeystrokeDatagram(k);
            AfterDatagram(reg, from, d, now) == reg && Answer(d) == [] && Typed(d) == [k]
  {
    HeaderFields(KEYSTROKE, DATA_OFFSET + 2, [k.key, k.mods]);
    var d := KeystrokeDatagram(k);
    assert d[DATA_OFFSET] == k.key && d[DATA_OFFSET + 1] == k.mods;
  }

  // ---- The registry's own history ------------------------------------------------------------

  function RegistryStep(reg: ClientMap, m: Moment, timeout: int): ClientMap {
    match m.event
    case Receive(from, datagram) => AfterDatagram(reg, from, datagram, m.world.now)
    case Tick => Maintained(reg, m.world.now, timeout)
    case _ => reg
  }

  function RegistryAfter(reg: ClientMap, run: seq<Moment>, timeout: int): ClientMap {
    if run == [] then reg
    else RegistryStep(RegistryAfter(reg, run[..|run| - 1], timeout), run[|run| - 1], timeout)
  }

  /** While the server runs its registry depends on nothing but datagrams and ticks. */
  lemma {:induction false} RegistryOfRun(s: State, run: seq<Moment>, timeout: int)
    requires After(s, run, timeout).Running?
    ensures s.Running? && After(s, run, timeout).registry == RegistryAfter(s.registry, run, timeout)
  {
    if run != [] {
      RegistryOfRun(s, run[..|run| - 1], timeout);
    }
  }

  // ---- Who is heard from when ----------------------------------------------------------------

  /** A contact of a registered client: its keep-alive or a well-formed Connect. */
  ghost predicate Contacts(m: Moment, a: Address) {
    && m.event.Receive? && m.event.from == a
    && (GetPacketCategory(m.event.datagram) == CLIENT_KEEP_ALIVE || IsConnect(m.event.datagram))
  }

  ghost predicate Leaves(m: Moment, a: Address) {
    m.event.Receive? && m.event.from == a && GetPacketCategory(m.event.datagram) == DISCONNECT
  }

  ghost predicate Joins(m: Moment, a: Address) {
    m.event.Receive? && m.event.from == a && IsConnect(m.event.datagram)
  }

  /** The last time `a` was in contact, if the last time before the run was `start`. */
  ghost function LastHeard(start: int, run: seq<Moment>, a: Address): int {
    if run == [] then start
    else
      var n := |run| - 1;
      if Contacts(run[n], a) then run[n].world.now else LastHeard(start, run[..n], a)
  }

  /** No tick of the run comes later than the timeout after the last contact before it. */
  ghost predicate Punctual(start: int, run: seq<Moment>, a: Address, timeout: int) {
    forall i :: 0 <= i < |run| && run[i].event.Tick? ==> run[i].world.now - LastHeard(start, run[..i], a) <= timeout
  }

  ghost predicate NoneLeaves(run: seq<Moment>, a: Address) {
    forall i :: 0 <= i < |run| ==> !Leaves(run[i], a)
  }

  ghost predicate NoneJoins(run: seq<Moment>, a: Address) {
    forall i :: 0 <= i < |run| ==> !Joins(run[i], a)
  }

  lemma StepOfClient(reg: ClientMap, m: Moment, timeout: int, a: Address)
    ensures var after := RegistryStep(reg, m, timeout);
            && (a in reg && !Leaves(m, a) && (m.event.Tick? ==> m.world.now - reg[a].lastContact <= timeout) ==>
                  a in after && after[a].lastContact == (if Contacts(m, a) then m.world.now else reg[a].lastContact))
            && (a in reg && m.event.Tick? && m.world.now - reg[a].lastContact > timeout ==> a !in after)
            && (a in reg && Leaves(m, a) ==> a !in after)
            && (a !in reg && !Joins(m, a) ==> a !in after)
            && (Joins(m, a) ==> a in after && after[a].lastContact == m.world.now)
  {
  }

  lemma PunctualPrefix(start: int, run: seq<Moment>, a: Address, timeout: int)
    requires run != []
    ensures var n := |run| - 1;
            Punctual(start, run, a, timeout)
            <==> Punctual(start, run[..n], a, timeout)
                 && (run[n].event.Tick? ==> run[n].world.now - LastHeard(start, run[..n], a) <= timeout)
  {
    var n := |run| - 1;
    assert forall i :: 0 <= i < n ==> run[..n][..i] == run[..i] && run[..n][i] == run[i];
    if Punctual(start, run[..n], a, timeout)
       && (run[n].event.Tick? ==> run[n].world.now - LastHeard(start, run[..n], a) <= timeout) {
      forall i | 0 <= i < |run| && run[i].event.Tick?
        ensures run[i].world.now - LastHeard(start, run[..i], a) <= timeout
      {
        if i < n {
          assert run[..n][i].event.Tick?;
        }
      }
    }
  }

  /** A client that does not disconnect and is heard from within the timeout before every tick is never dropped, and
      its last contact is exactly its last keep-alive or Connect: nothing else counts. */
  lemma {:induction false} PunctualStays(reg: ClientMap, run: seq<Moment>, timeout: int, a: Address)
    requires a in reg && NoneLeaves(run, a) && Punctual(reg[a].lastContact, run, a, timeout)
    ensures var after := RegistryAfter(reg, run, timeout);
            a in after && after[a].lastContact == LastHeard(reg[a].lastContact, run, a)
  {
    if run != [] {
      var n := |run| - 1;
      PunctualPrefix(reg[a].lastContact, run, a, timeout);
      assert NoneLeaves(run[..n], a);
      PunctualStays(reg, run[..n], timeout, a);
      StepOfClient(RegistryAfter(reg, run[..n], timeout), run[n], timeout, a);
    }
  }

  /** Exactly those stay: without a disconnect or a new Connect, a client is still registered at the end if and only
      if every tick found it punctual. */
  lemma {:induction false} StaysIffPunctual(reg: ClientMap, run: seq<Moment>, timeout: int, a: Address)
    requires a in reg && NoneLeaves(run, a) && NoneJoins(run, a)
    ensures a in RegistryAfter(reg, run, timeout) <==> Punctual(reg[a].lastContact, run, a, timeout)
  {
    if run != [] {
      var n := |run| - 1;
      PunctualPrefix(reg[a].lastContact, run, a, timeout);
      assert NoneLeaves(run[..n], a) && NoneJoins(run[..n], a);
      StaysIffPunctual(reg, run[..n], timeout, a);
      StepOfClient(RegistryAfter(reg, run[..n], timeout), run[n], timeout, a);
      if Punctual(reg[a].lastContact, run[..n], a, timeout) {
        PunctualStays(reg, run[..n], timeout, a);
      }
    }
  }

  /** Hearing from a client at least once in every `timeout` before each tick is enough, whatever the gaps between
      the messages themselves. Times never go back. */
  lemma RegularContactStays(reg: ClientMap, run: seq<Moment>, timeout: int, a: Address)
    requires a in reg && NoneLeaves(run, a)
    requires forall i, j :: 0 <= i < j < |run| ==> run[i].world.now <= run[j].world.now
    requires forall i :: 0 <= i < |run| && run[i].event.Tick? ==>
               || run[i].world.now - reg[a].lastContact <= timeout
               || exists j :: 0 <= j < i && Contacts(run[j], a) && run[i].world.now - run[j].world.now <= timeout
    requires forall i :: 0 <= i < |run| ==> reg[a].lastContact <= run[i].world.now
    ensures a in RegistryAfter(reg, run, timeout)
  {
    forall i | 0 <= i < |run| && run[i].event.Tick?
      ensures run[i].world.now - LastHeard(reg[a].lastContact, run[..i], a) <= timeout
    {
      LastHeardIsLatest(reg[a].lastContact, run[..i], a);
    }
    PunctualStays(reg, run, timeout, a);
  }

  lemma {:induction false} LastHeardIsLatest(start: int, run: seq<Moment>, a: Address)
    requires forall i, j :: 0 <= i < j < |run| ==> run[i].world.now <= run[j].world.now
    requires forall i :: 0 <= i < |run| ==> start <= run[i].world.now
    ensures start <= LastHeard(start, run, a)
    ensures forall j :: 0 <= j < |run| && Contacts(run[j], a) ==> run[j].world.now <= LastHeard(start, run, a)
  {
    if run != [] {
      LastHeardIsLatest(start, run[..|run| - 1], a);
    }
  }

  ghost predicate TickWithin(run: seq<Moment>, t: int, period: int) {
    exists i :: 0 <= i < |run| && run[i].event.Tick? && t < run[i].world.now <= t + period
  }

  /** Ticks come at most `period` apart from `start` until `end`. */
  ghost predicate TicksEvery(run: seq<Moment>, period: int, start: int, end: int) {
    forall t :: start <= t && t + period <= end ==> TickWithin(run, t, period)
  }

  /** A client that falls silent is gone by the time `timeout + period` has passed since its last contact. */
  lemma SilentIsDropped(reg: ClientMap, run: seq<Moment>, timeout: int, period: int, end: int, a: Address)
    requires a in reg && 0 <= timeout && forall i :: 0 <= i < |run| ==> !Contacts(run[i], a)
    requires TicksEvery(run, period, reg[a].lastContact, end) && reg[a].lastContact + timeout + period <= end
    ensures a !in RegistryAfter(reg, run, timeout)
  {
    var t := reg[a].lastContact + timeout;
    assert TickWithin(run, t, period);
    var i :| 0 <= i < |run| && run[i].event.Tick? && t < run[i].world.now <= t + period;
    SilentLastContact(reg, run[..i], timeout, a);
    assert run[..i + 1][..i] == run[..i];
    StepOfClient(RegistryAfter(reg, run[..i], timeout), run[i], timeout, a);
    GoneStaysGone(reg, run, i + 1, timeout, a);
  }

  lemma {:induction false} SilentLastContact(reg: ClientMap, run: seq<Moment>, timeout: int, a: Address)
    requires a in reg && forall i :: 0 <= i < |run| ==> !Contacts(run[i], a)
    ensures var after := RegistryAfter(reg, run, timeout); a in after ==> after[a].lastContact == reg[a].lastContact
  {
    if run != [] {
      var n := |run| - 1;
      SilentLastContact(reg, run[..n], timeout, a);
      var before := RegistryAfter(reg, run[..n], timeout);
      StepOfClient(before, run[n], timeout, a);
      assert a !in before ==> !Joins(run[n], a);
      if a in before && Leaves(run[n], a) {
        assert a !in RegistryStep(before, run[n], timeout);
      }
    }
  }

  lemma {:induction false} GoneStaysGone(reg: ClientMap, run: seq<Moment>, k: nat, timeout: int, a: Address)
    requires k <= |run| && a !in RegistryAfter(reg, run[..k], timeout)
    requires forall i :: 0 <= i < |run| ==> !Contacts(run[i], a)
    ensures a !in RegistryAfter(reg, run, timeout)
    decreases |run|
  {
    if k == |run| {
      assert run[..k] == run;
    } else {
      var n := |run| - 1;
      assert run[..n][..k] == run[..k];
      GoneStaysGone(reg, run[..n], k, timeout, a);
      StepOfClient(RegistryAfter(reg, run[..n], timeout), run[n], timeout, a);
      assert !Joins(run[n], a);
    }
  }

  /** Whoever is registered has connected, and its last contact is the last one in the run. */
  lemma {:induction false} LastContactIsHeard(run: seq<Moment>, timeout: int, a: Address, start: int)
    ensures var after := RegistryAfter(map[], run, timeout);
            a in after ==> after[a].lastContact == LastHeard(start, run, a) && HeardAt(run, a, LastHeard(start, run, a))
  {
    if run != [] {
      var n := |run| - 1;
      LastContactIsHeard(run[..n], timeout, a, start);
      StepOfClient(RegistryAfter(map[], run[..n], timeout), run[n], timeout, a);
      if HeardAt(run[..n], a, LastHeard(start, run[..n], a)) {
        var j :| 0 <= j < n && Contacts(run[..n][j], a) && run[..n][j].world.now == LastHeard(start, run[..n], a);
        assert Contacts(run[j], a);
      }
    }
  }

  ghost predicate HeardAt(run: seq<Moment>, a: Address, t: int) {
    exists j :: 0 <= j < |run| && Contacts(run[j], a) && run[j].world.now == t
  }

  /** Over every run from start-up that ends in a tick: nobody is registered whose last Connect or keep-alive in the run
      lies further back than the timeout, and the tick drops nobody else. */
  lemma TickBound(run: seq<Moment>, timeout: int, a: Address)
    requires run != [] && run[|run| - 1].event.Tick?
    ensures var n := |run| - 1;
            var heard := LastHeard(0, run, a);
            && (a in RegistryAfter(map[], run, timeout)
                <==> a in RegistryAfter(map[], run[..n], timeout) && run[n].world.now - heard <= timeout)
            && (a in RegistryAfter(map[], run, timeout) ==> HeardAt(run, a, heard))
  {
    LastContactIsHeard(run, timeout, a, 0);
    LastContactIsHeard(run[..|run| - 1], timeout, a, 0);
  }
}
