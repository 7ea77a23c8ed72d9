/** The running server: the client registry with its listeners, the network server, the capture pipe and the
    application that owns them. Hash maps are visited in an order the program does not control, so every loop over
    one picks its next key arbitrarily. A method that lets an `Audio::Error` escape returns `thrown == true`. */
module FanOut {
  import opened AudioTypes
  import opened Registry
  import opened Packets
  import opened Machine
  import Keystrokes

  // ---- Listeners -----------------------------------------------------------------------------

  /** A registered callback, told apart by the object kind it is bound to. */
  datatype Listener =
    | ViewListener(view: ClientsView)
    | ServerListener(server: Server)
    | PipeListener(pipe: CapturePipe)
  {
    predicate SameKind(other: Listener) {
      ViewListener? == other.ViewListener? && ServerListener? == other.ServerListener?
    }
  }

  datatype Notification = Notification(listener: Listener, infos: seq<ClientInfo>)

  ghost function Views(ls: seq<Listener>): set<ClientsView> {
    set l | l in ls && l.ViewListener? :: l.view
  }

  ghost function Servers(ls: seq<Listener>): set<Server> {
    set l | l in ls && l.ServerListener? :: l.server
  }

  ghost function Pipes(ls: seq<Listener>): set<CapturePipe> {
    set l | l in ls && l.PipeListener? :: l.pipe
  }

  ghost function ViewOf(l: Listener): set<ClientsView> {
    if l.ViewListener? then {l.view} else {}
  }

  ghost function ServerOf(l: Listener): set<Server> {
    if l.ServerListener? then {l.server} else {}
  }

  ghost function PipeOf(l: Listener): set<CapturePipe> {
    if l.PipeListener? then {l.pipe} else {}
  }

  ghost predicate AllValid(pipes: set<CapturePipe>)
    reads pipes, set p, e | p in pipes && e in p.encoders.Values :: e
  {
    forall p :: p in pipes ==> p.Valid()
  }

  ghost function Broadcast(ls: seq<Listener>, infos: seq<ClientInfo>): seq<Notification> {
    seq(|ls|, i requires 0 <= i < |ls| => Notification(ls[i], infos))
  }

  lemma BroadcastSnoc(ls: seq<Listener>, l: Listener, infos: seq<ClientInfo>)
    ensures Broadcast(ls + [l], infos) == Broadcast(ls, infos) + [Notification(l, infos)]
  {
  }

  /** The list `l` was last called with. */
  ghost function LastSeen(log: seq<Notification>, l: Listener): Option<seq<ClientInfo>> {
    if log == [] then None
    else if log[|log| - 1].listener == l then Some(log[|log| - 1].infos)
    else LastSeen(log[..|log| - 1], l)
  }

  lemma LastSeenAfter(log: seq<Notification>, n: Notification, l: Listener)
    ensures LastSeen(log + [n], l) == if n.listener == l then Some(n.infos) else LastSeen(log, l)
  {
  }

  /** After a broadcast every listener has last seen the list that was broadcast. */
  lemma {:induction false} BroadcastSeen(log: seq<Notification>, ls: seq<Listener>, infos: seq<ClientInfo>, l: Listener)
    requires l in ls
    ensures LastSeen(log + Broadcast(ls, infos), l) == Some(infos)
  {
    var n := |ls| - 1;
    assert Broadcast(ls, infos) == Broadcast(ls[..n], infos) + [Notification(ls[n], infos)];
    assert log + Broadcast(ls, infos) == (log + Broadcast(ls[..n], infos)) + [Notification(ls[n], infos)];
    LastSeenAfter(log + Broadcast(ls[..n], infos), Notification(ls[n], infos), l);
    if ls[n] != l {
      BroadcastSeen(log, ls[..n], infos, l);
    }
  }

  /** What removal by kind leaves. */
  function WithoutKind(ls: seq<Listener>, l: Listener): seq<Listener> {
    if ls == [] then []
    else (if ls[0].SameKind(l) then [] else [ls[0]]) + WithoutKind(ls[1..], l)
  }

  lemma {:induction false} WithoutKindAppend(ls: seq<Listener>, x: Listener, l: Listener)
    ensures WithoutKind(ls + [x], l) == WithoutKind(ls, l) + (if x.SameKind(l) then [] else [x])
  {
    if ls != [] {
      assert (ls + [x])[1..] == ls[1..] + [x];
      WithoutKindAppend(ls[1..], x, l);
    }
  }

  lemma OthersStay(server: Server, view: ClientsView, pipe: CapturePipe)
    ensures WithoutKind([ServerListener(server), ViewListener(view)], PipeListener(pipe))
         == [ServerListener(server), ViewListener(view)]
  {
    var l := PipeListener(pipe);
    assert [] + [ServerListener(server)] == [ServerListener(server)];
    WithoutKindAppend([], ServerListener(server), l);
    assert [ServerListener(server)] + [ViewListener(view)] == [ServerListener(server), ViewListener(view)];
    WithoutKindAppend([ServerListener(server)], ViewListener(view), l);
  }

  // ---- The clients list in the main window ---------------------------------------------------

  function AddressesOf(infos: seq<ClientInfo>): seq<Address> {
    seq(|infos|, i requires 0 <= i < |infos| => infos[i].address)
  }

  class ClientsView {
    var lines: seq<Address>

    constructor ()
      ensures lines == []
    {
      lines := [];
    }

    method OnClientsUpdate(infos: seq<ClientInfo>)
      modifies this`lines
      ensures lines == AddressesOf(infos)
    {
      lines := [];
      for i := 0 to |infos|
        invariant lines == AddressesOf(infos)[..i]
      {
        lines := lines + [infos[i].address];
      }
    }
  }

  // ---- Encoders and the frame counter --------------------------------------------------------

  /** `history` stands for the state the Opus library keeps for this encoder. */
  class Encoder {
    const compression: Compression
    var history: seq<Bytes>

    constructor (compression: Compression)
      ensures this.compression == compression && history == []
    {
      this.compression := compression;
      history := [];
    }

    method Encode(frame: Bytes, w: World) returns (r: Option<Bytes>)
      modifies this
      ensures history == old(history) + [frame]
      ensures var answer := w.opus(compression, old(history), frame);
              && (r == None <==> answer.result < 0 || answer.result > MAX_PACKET_SIZE)
              && (r == Some([]) <==> 0 <= answer.result <= 2)
              && (3 <= answer.result <= MAX_PACKET_SIZE ==>
                    r.Some? && |r.value| == answer.result && r.value <= answer.buffer)
    {
      var answer := w.opus(compression, history, frame);
      history := history + [frame];
      if 0 <= answer.result <= 2 {
        return Some([]);
      }
      if answer.result < 0 || answer.result > MAX_PACKET_SIZE {
        return None;
      }
      r := Some(answer.buffer[..answer.result]);
    }
  }

  /** The sequence number shared by all pipes there will ever be. */
  class SequenceCounter {
    var next: UInt32

    constructor ()
      ensures next == 1
    {
      next := 1;
    }
  }

  // ---- The capture pipe ----------------------------------------------------------------------

  class CapturePipe {
    const server: Server
    const counter: SequenceCounter
    const resamples: bool
    var muted: bool
    var buffer: Bytes
    var encoders: map<Compression, Encoder?>
    ghost var history: map<Compression, seq<Bytes>>

    constructor (server: Server, counter: SequenceCounter, resamples: bool)
      ensures this.server == server && this.counter == counter && this.resamples == resamples
      ensures encoders == map[] && State() == FreshPipe(resamples, {}) && Valid()
    {
      this.server, this.counter, this.resamples := server, counter, resamples;
      muted, buffer, encoders, history := false, [], map[], map[];
    }

    /** Uncompressed has no encoder, every other key has one of its own bit rate, and `history` is what they were fed. */
    ghost predicate Valid()
      reads this`encoders, this`history, encoders.Values
    {
      && history.Keys == encoders.Keys
      && forall c :: c in encoders ==>
           if c == Uncompressed then encoders[c] == null && history[c] == []
           else encoders[c] != null && encoders[c].compression == c && encoders[c].history == history[c]
    }

    ghost function State(): PipeState
      reads this
    {
      PipeState(muted, resamples, buffer, history)
    }

    /** Encoders wanted before and after are the same objects; the others are new. */
    twostate predicate Reconciles(wanted: set<Compression>)
      reads this`encoders, this`history
    {
      && encoders.Keys == wanted
      && history == Reconciled(old(history), wanted)
      && (forall c :: c in encoders && c in old(encoders) ==> encoders[c] == old(encoders)[c])
      && (forall c :: c in encoders && c !in old(encoders) && encoders[c] != null ==> fresh(encoders[c]))
    }

    twostate lemma StateFollows(new reg: ClientMap)
      requires Reconciles(InUse(reg)) && Valid() && unchanged(this`muted) && unchanged(this`buffer)
      ensures Some(State()) == Listening(Some(old(State())), reg)
      ensures fresh(encoders.Values - {null} - old(encoders.Values))
    {
    }

    method OnClientsUpdate(infos: seq<ClientInfo>, w: World) returns (thrown: bool)
      requires Valid()
      modifies this`encoders, this`history
      ensures Valid()
      ensures thrown <==> Breaks(old(encoders).Keys, Wanted(infos), w)
      ensures !thrown ==> Reconciles(Wanted(infos))
      ensures old(encoders).Keys == Wanted(infos) ==> encoders == old(encoders) && history == old(history)
    {
      var newCompressions, existingCompressions := Classify(infos);
      ShortcutIsExact(encoders.Keys, Wanted(infos));
      assert encoders.Keys * Wanted(infos) == Wanted(infos) * encoders.Keys;
      if newCompressions == {} && |existingCompressions| == |encoders.Keys| {
        ReconciledInTwoSteps(history, Wanted(infos));
        return false;
      }
      ReconciledInTwoSteps(history, Wanted(infos));
      encoders := map c | c in encoders && c in existingCompressions :: encoders[c];
      history := map c | c in history && c in Wanted(infos) :: history[c];
      assert encoders.Keys == existingCompressions;
      assert existingCompressions + newCompressions == Wanted(infos);
      thrown := CreateEncoders(newCompressions, w);
    }

    method Classify(infos: seq<ClientInfo>) returns (newOnes: set<Compression>, existing: set<Compression>)
      ensures newOnes == Wanted(infos) - encoders.Keys
      ensures existing == Wanted(infos) * encoders.Keys
    {
      newOnes, existing := {}, {};
      for i := 0 to |infos|
        invariant newOnes == Wanted(infos[..i]) - encoders.Keys
        invariant existing == Wanted(infos[..i]) * encoders.Keys
      {
        assert infos[..i + 1] == infos[..i] + [infos[i]];
        WantedSnoc(infos[..i], infos[i]);
        var c := infos[i].compression;
        if c in encoders {
          existing := existing + {c};
        } else {
          newOnes := newOnes + {c};
        }
      }
      assert infos[..|infos|] == infos;
    }

    method CreateEncoders(compressions: set<Compression>, w: World) returns (thrown: bool)
      requires Valid() && compressions !! encoders.Keys
      modifies this`encoders, this`history
      ensures Valid()
      ensures thrown <==> exists c :: c in compressions && c != Uncompressed && c in w.brokenEncoders
      ensures !thrown ==> Reconciles(old(encoders).Keys + compressions)
    {
      var remaining := compressions;
      while remaining != {}
        invariant Valid() && remaining <= compressions
        invariant Reconciles(old(encoders).Keys + (compressions - remaining))
        invariant forall c :: c in compressions - remaining && c != Uncompressed ==> c !in w.brokenEncoders
      {
        var c :| c in remaining;
        ReconciledMore(old(history), old(encoders).Keys + (compressions - remaining), c);
        thrown := CreateEncoder(c, w);
        if thrown {
          return;
        }
        assert old(encoders).Keys + (compressions - remaining) + {c}
            == old(encoders).Keys + (compressions - (remaining - {c}));
        remaining := remaining - {c};
      }
      thrown := false;
    }

    method CreateEncoder(c: Compression, w: World) returns (thrown: bool)
      requires Valid() && c !in encoders
      modifies this`encoders, this`history
      ensures Valid()
      ensures thrown <==> c != Uncompressed && c in w.brokenEncoders
      ensures !thrown ==> c in encoders && encoders == old(encoders)[c := encoders[c]] && history == old(history)[c := []]
      ensures !thrown && encoders[c] != null ==> fresh(encoders[c])
    {
      if c == Uncompressed {
        encoders := encoders[c := null];
      } else if c in w.brokenEncoders {
        return true;
      } else {
        var encoder := new Encoder(c);
        encoders := encoders[c := encoder];
      }
      history := history[c := []];
      thrown := false;
    }

    /** The frame goes to every encoder and on to every client of that encoder, under the counter's current number.
        `formats` is the map that the server's cache partitions; `served` says which encoders got their turn. */
    method ServeEncoders(frame: Bytes, w: World, ghost formats: map<Address, Compression>)
      returns (thrown: bool, ghost served: set<Compression>)
      requires Valid() && Partitions(server.clientsCache, formats) && encoders.Keys == formats.Values
      modifies this`history, encoders.Values, server`outbox, server`clientsCache
      ensures Valid()
      ensures server.clientsCache == old(server.clientsCache)
      ensures thrown <==> FrameFails(old(history), frame, w)
      ensures !thrown ==> history == Fed(old(history), frame) && served == formats.Values
      ensures Served(old(server.outbox), server.outbox, formats, served, old(history), frame, counter.next, w)
    {
      ghost var before, out := history, server.outbox;
      var remaining := encoders.Keys;
      served := {};
      while remaining != {}
        invariant Valid() && served == encoders.Keys - remaining && remaining <= encoders.Keys
        invariant server.clientsCache == old(server.clientsCache)
        invariant history == FedTo(before, frame, served)
        invariant forall c :: c in served && c != Uncompressed ==> Encoded(before, frame, w, c) != None
        invariant Served(out, server.outbox, formats, served, before, frame, counter.next, w)
      {
        var c :| c in remaining;
        thrown := ServeEncoder(c, frame, w, formats, before, served, out);
        if thrown {
          return;
        }
        remaining, served := remaining - {c}, served + {c};
      }
      FedToAll(before, frame, served);
      thrown := false;
    }

    /** One turn of that loop; `before`, `served` and `out` are where the loop started and how far it is. */
    method ServeEncoder(c: Compression, frame: Bytes, w: World, ghost formats: map<Address, Compression>,
                        ghost before: map<Compression, seq<Bytes>>, ghost served: set<Compression>, ghost out: seq<Send>)
      returns (failed: bool)
      requires Valid() && Partitions(server.clientsCache, formats) && encoders.Keys == formats.Values
      requires c in encoders && c !in served && history == FedTo(before, frame, served)
      requires Served(out, server.outbox, formats, served, before, frame, counter.next, w)
      modifies this`history, encoders[c], server`outbox, server`clientsCache
      ensures Valid() && server.clientsCache == old(server.clientsCache)
      ensures c in before && (failed <==> c != Uncompressed && Encoded(before, frame, w, c) == None)
      ensures history == FedTo(before, frame, served + {c})
      ensures failed ==> server.outbox == old(server.outbox)
      ensures !failed ==> Served(out, server.outbox, formats, served + {c}, before, frame, counter.next, w)
    {
      FedToMore(before, frame, served, c);
      var payload := EncodeFrame(c, frame, w);
      if payload == None {
        return true;
      }
      assert payload == Payload(before, frame, w, c);
      ghost var sent := server.outbox;
      Deliver(c, payload.value, formats);
      ServedMore(out, sent, server.outbox, formats, served, before, frame, counter.next, w, c);
      failed := false;
    }

    method EncodeFrame(c: Compression, frame: Bytes, w: World) returns (payload: Option<Bytes>)
      requires Valid() && c in encoders
      modifies this`history, encoders[c]
      ensures Valid()
      ensures payload == Payload(old(history), frame, w, c)
      ensures history == FedTo(old(history), frame, {c})
    {
      if c == Uncompressed {
        assert history == FedTo(history, frame, {c});
        return Some(frame);
      }
      assert forall d :: d in encoders && d != c ==> encoders[d] != encoders[c];
      payload := encoders[c].Encode(frame, w);
      OutcomeIs(w.opus(c, history[c], frame), payload);
      history := FedTo(history, frame, {c});
    }

    method Deliver(c: Compression, payload: Bytes, ghost formats: map<Address, Compression>)
      requires Valid() && Partitions(server.clientsCache, formats) && c in formats.Values
      modifies server`outbox, server`clientsCache
      ensures Valid() && server.clientsCache == old(server.clientsCache)
      ensures SentTo(old(server.outbox), server.outbox, formats, c, PacketsOf(Some(payload), counter.next, c))
    {
      if c == Uncompressed || |payload| > 0 {
        assert forall a :: Files(server.clientsCache, a, c) <==> Uses(formats, a, c);
        server.SendAudio(c, counter.next, payload);
      }
    }

    /** Send frames while a whole one is buffered. */
    method SendFrames(w: World, ghost formats: map<Address, Compression>)
      returns (thrown: bool, ghost served: set<Compression>)
      requires Valid() && Partitions(server.clientsCache, formats) && encoders.Keys == formats.Values
      modifies this`buffer, this`history, encoders.Values, server`outbox, server`clientsCache, counter
      ensures Valid()
      ensures server.clientsCache == old(server.clientsCache)
      ensures var d := Drain(old(State()), old(counter.next), w);
              thrown == d.failed && counter.next == d.next && (!thrown ==> State() == d.pipe)
      ensures Drains(old(server.outbox), server.outbox, formats, old(State()), old(counter.next), w, served)
    {
      ghost var p, number, out := State(), counter.next, server.outbox;
      served := {};
      while |buffer| >= FRAME_SIZE
        invariant Valid() && server.clientsCache == old(server.clientsCache)
        invariant Continues(out, p, number, server.outbox, State(), counter.next, formats, w)
        decreases |buffer|
      {
        thrown, served := SendFrame(w, formats);
        if thrown {
          return;
        }
      }
      thrown := false;
    }

    /** One pass of that loop: serve all encoders, count the frame and take it out of the buffer. */
    method SendFrame(w: World, ghost formats: map<Address, Compression>)
      returns (thrown: bool, ghost served: set<Compression>)
      requires Valid() && Partitions(server.clientsCache, formats) && encoders.Keys == formats.Values
      requires FRAME_SIZE <= |buffer|
      modifies this`buffer, this`history, encoders.Values, server`outbox, server`clientsCache, counter
      ensures Valid()
      ensures server.clientsCache == old(server.clientsCache)
      ensures thrown ==> Drain(old(State()), old(counter.next), w) == Drained(old(State()), old(counter.next), true)
      ensures thrown ==> counter.next == old(counter.next)
      ensures thrown ==> Drains(old(server.outbox), server.outbox, formats, old(State()), old(counter.next), w, served)
      ensures !thrown ==> |buffer| < |old(buffer)|
      ensures !thrown ==>
                Continues(old(server.outbox), old(State()), old(counter.next), server.outbox, State(), counter.next, formats, w)
    {
      ghost var p, number, out := State(), counter.next, server.outbox;
      thrown, served := ServeEncoders(buffer[..FRAME_SIZE], w, formats);
      if thrown {
        DrainStops(out, server.outbox, formats, p, number, w, served);
        return;
      }
      DrainGoesOn(out, server.outbox, formats, p, number, w);
      counter.next := Next(counter.next);
      buffer := buffer[FRAME_SIZE..];
    }

    /** Append the capture, then send the frames it completes. */
    method Process(pcm: Bytes, w: World, ghost formats: map<Address, Compression>)
      returns (thrown: bool, ghost served: set<Compression>)
      requires Valid() && Partitions(server.clientsCache, formats) && encoders.Keys == formats.Values
      modifies this`buffer, this`history, encoders.Values, server`outbox, server`clientsCache, counter
      ensures Valid()
      ensures server.clientsCache == old(server.clientsCache)
      ensures Accepted(old(State()), pcm, w) == None ==>
                thrown && server.outbox == old(server.outbox) && counter.next == old(counter.next)
      ensures Accepted(old(State()), pcm, w) != None ==>
                var p := old(State()).(buffer := old(buffer) + Accepted(old(State()), pcm, w).value);
                var d := Drain(p, old(counter.next), w);
                && thrown == d.failed && counter.next == d.next && (!thrown ==> State() == d.pipe)
                && Drains(old(server.outbox), server.outbox, formats, p, old(counter.next), w, served)
    {
      if resamples {
        match w.resample(pcm) {
          case None =>
            return true, {};
          case Some(resampled) =>
            buffer := buffer + resampled;
        }
      } else {
        buffer := buffer + pcm;
      }
      thrown, served := SendFrames(w, formats);
    }
  }

  // ---- The network server --------------------------------------------------------------------

  class Server {
    const clients: Clients
    var clientsCache: map<Compression, seq<Address>>
    var outbox: seq<Send>
    var typed: seq<KeyPress>
    var keyboard: seq<Keystrokes.Input>

    constructor (clients: Clients)
      ensures this.clients == clients && clientsCache == map[] && outbox == [] && typed == [] && keyboard == []
    {
      this.clients := clients;
      clientsCache, outbox, typed, keyboard := map[], [], [], [];
    }

    /** What was put into the keyboard input is what the keystrokes received call for. */
    ghost predicate TypesAll()
      reads this`typed, this`keyboard
    {
      Keystrokes.Types([], keyboard, typed)
    }

    method OnClientsUpdate(infos: seq<ClientInfo>)
      modifies this`clientsCache
      ensures clientsCache == Grouped(infos)
    {
      var newClients: map<Compression, seq<Address>> := map[];
      for i := 0 to |infos|
        invariant newClients == Grouped(infos[..i])
      {
        assert infos[..i + 1][..i] == infos[..i];
        var c := infos[i].compression;
        if c !in newClients {
          newClients := newClients[c := []];
        }
        newClients := newClients[c := [infos[i].address] + newClients[c]];
      }
      assert infos[..|infos|] == infos;
      clientsCache := newClients;
    }

    method Send(address: Address, packet: Bytes)
      modifies this`outbox
      ensures outbox == old(outbox) + [Machine.Send(address, packet)]
    {
      outbox := outbox + [Machine.Send(address, packet)];
    }

    /** Looking the compression up inserts an empty list when it is missing. */
    method SendAudio(c: Compression, number: UInt32, data: Bytes)
      requires c in clientsCache ==> NoDuplicates(clientsCache[c])
      modifies this`outbox, this`clientsCache
      ensures clientsCache == if c in old(clientsCache) then old(clientsCache) else old(clientsCache)[c := []]
      ensures forall a :: StreamTo(outbox, a) == StreamTo(old(outbox), a)
                + (if Files(old(clientsCache), a, c)
                   then [AudioPacket(AudioCategory(c), number, data)] else [])
    {
      var category := if c == Uncompressed then AUDIO_UNCOMPRESSED else AUDIO_OPUS;
      var packet := CreateAudioPacket(category, number, data);
      if c !in clientsCache {
        clientsCache := clientsCache[c := []];
      }
      SendAll(clientsCache[c], packet[..]);
    }

    method SendAll(addresses: seq<Address>, packet: Bytes)
      requires NoDuplicates(addresses)
      modifies this`outbox
      ensures forall a :: StreamTo(outbox, a) == StreamTo(old(outbox), a) + (if a in addresses then [packet] else [])
    {
      for i := 0 to |addresses|
        invariant forall a :: StreamTo(outbox, a) ==
                    StreamTo(old(outbox), a) + (if a in addresses[..i] then [packet] else [])
      {
        ghost var before := outbox;
        assert addresses[i] !in addresses[..i];
        assert addresses[..i + 1] == addresses[..i] + [addresses[i]];
        Send(addresses[i], packet);
        forall a ensures StreamTo(outbox, a) == StreamTo(before, a) + (if a == addresses[i] then [packet] else []) {
          StreamOne(before, Machine.Send(addresses[i], packet), a);
        }
      }
      assert addresses[..|addresses|] == addresses;
    }

    /** Used for keep-alive and disconnect packets: one to every client, whatever its compression. */
    method SendToClients(packet: Bytes, ghost formats: map<Address, Compression>)
      requires Partitions(clientsCache, formats)
      modifies this`outbox
      ensures forall a :: StreamTo(outbox, a) == StreamTo(old(outbox), a) + (if a in formats then [packet] else [])
    {
      var remaining := clientsCache.Keys;
      while remaining != {}
        invariant remaining <= clientsCache.Keys
        invariant forall a :: StreamTo(outbox, a) == StreamTo(old(outbox), a)
                    + (if a in formats && formats[a] !in remaining then [packet] else [])
      {
        var c :| c in remaining;
        SendAll(clientsCache[c], packet);
        forall a ensures a in clientsCache[c] <==> a in formats && formats[a] == c {
          assert Files(clientsCache, a, c) <==> Uses(formats, a, c);
        }
        remaining := remaining - {c};
      }
    }

    method Keepalive(ghost formats: map<Address, Compression>)
      requires Partitions(clientsCache, formats)
      modifies this`outbox
      ensures forall a :: StreamTo(outbox, a) == StreamTo(old(outbox), a)
                + (if a in formats then [BarePacket(SERVER_KEEP_ALIVE)] else [])
    {
      if clientsCache.Keys == {} {
        return;
      }
      var packet := CreateBarePacket(SERVER_KEEP_ALIVE);
      SendToClients(packet[..], formats);
    }

    method SendDisconnectBlocking(ghost formats: map<Address, Compression>)
      requires Partitions(clientsCache, formats)
      modifies this`outbox
      ensures forall a :: StreamTo(outbox, a) == StreamTo(old(outbox), a)
                + (if a in formats then [BarePacket(DISCONNECT)] else [])
    {
      if clientsCache.Keys == {} {
        return;
      }
      var packet := CreateBarePacket(DISCONNECT);
      SendToClients(packet[..], formats);
    }

    /** One turn of the receive loop. An exception there ends the program, so nothing is promised after one. */
    method Receive(from: Address, datagram: Bytes, w: World) returns (exited: bool)
      requires clients.Valid() && AllValid(Pipes(clients.listeners))
      modifies this`outbox, this`typed, this`keyboard, clients`clients, clients`clientInfos, clients`log,
               Views(clients.listeners)`lines, Servers(clients.listeners)`clientsCache,
               Pipes(clients.listeners)`encoders, Pipes(clients.listeners)`history
      ensures clients.clients == AfterDatagram(old(clients.clients), from, datagram, w.now)
      ensures exited <==> old(clients.WouldFail(AfterDatagram(clients.clients, from, datagram, w.now), w))
      ensures !exited ==> clients.Valid() && AllValid(Pipes(clients.listeners)) && clients.ToldIfChanged()
      ensures !exited ==> typed == old(typed) + Typed(datagram)
      ensures Keystrokes.Types(old(keyboard), keyboard, if exited then [] else Typed(datagram))
      ensures old(TypesAll()) ==> TypesAll()
      ensures forall a :: StreamTo(outbox, a) == StreamTo(old(outbox), a)
                + (if a == from && !exited then Answer(datagram) else [])
    {
      exited := false;
      var category := GetPacketCategory(datagram);
      if category == CONNECT {
        exited := ProcessConnect(from, datagram, w);
      } else if category == DISCONNECT {
        exited := ProcessDisconnect(from, w);
      } else if category == SET_FORMAT {
        exited := ProcessSetFormat(from, datagram, w);
      } else if category == KEYSTROKE {
        ProcessKeystroke(datagram);
      } else if category == CLIENT_KEEP_ALIVE {
        ProcessKeepAlive(from, w);
      }
      ghost var answer := if exited then [] else Answer(datagram);
      assert outbox == old(outbox) + Replies(from, answer);
      forall a ensures StreamTo(outbox, a) == StreamTo(old(outbox), a) + (if a == from then answer else []) {
        RepliesStream(old(outbox), from, answer, a);
      }
    }

    method ProcessConnect(from: Address, datagram: Bytes, w: World) returns (exited: bool)
      requires clients.Valid() && AllValid(Pipes(clients.listeners))
      modifies this`outbox, clients`clients, clients`clientInfos, clients`log, Views(clients.listeners)`lines,
               Servers(clients.listeners)`clientsCache, Pipes(clients.listeners)`encoders, Pipes(clients.listeners)`history
      ensures clients.clients == AfterConnect(old(clients.clients), from, ConnectRequest(datagram), w.now)
      ensures exited <==> old(clients.WouldFail(AfterConnect(clients.clients, from, ConnectRequest(datagram), w.now), w))
      ensures !exited ==> clients.Valid() && AllValid(Pipes(clients.listeners)) && clients.ToldIfChanged()
      ensures outbox == old(outbox) + (if exited then [] else Replies(from, ConnectAnswer(ConnectRequest(datagram))))
    {
      var connectData := GetConnectData(datagram);
      if connectData == None {
        return false;
      }
      var compression := CompressionFromNetworkValue(connectData.value.compression);
      if compression == None {
        return false;
      }
      exited := clients.Add(from, compression.value, w);
      if !exited {
        AcknowledgeConnect(from, connectData.value.requestId);
      }
    }

    method AcknowledgeConnect(to: Address, requestId: UInt16)
      modifies this`outbox
      ensures outbox == old(outbox) + Replies(to, [AckConnectPacket(requestId)])
    {
      var ack := CreateAckConnectPacket(requestId);
      Send(to, ack[..]);
    }

    method ProcessDisconnect(from: Address, w: World) returns (exited: bool)
      requires clients.Valid() && AllValid(Pipes(clients.listeners))
      modifies clients`clients, clients`clientInfos, clients`log, Views(clients.listeners)`lines,
               Servers(clients.listeners)`clientsCache, Pipes(clients.listeners)`encoders, Pipes(clients.listeners)`history
      ensures clients.clients == Removed(old(clients.clients), from)
      ensures exited <==> old(clients.WouldFail(Removed(clients.clients, from), w))
      ensures !exited ==> clients.Valid() && AllValid(Pipes(clients.listeners)) && clients.ToldIfChanged()
    {
      exited := clients.Remove(from, w);
    }

    method ProcessSetFormat(from: Address, datagram: Bytes, w: World) returns (exited: bool)
      requires clients.Valid() && AllValid(Pipes(clients.listeners))
      modifies this`outbox, clients`clients, clients`clientInfos, clients`log, Views(clients.listeners)`lines,
               Servers(clients.listeners)`clientsCache, Pipes(clients.listeners)`encoders, Pipes(clients.listeners)`history
      ensures clients.clients == AfterSetFormat(old(clients.clients), from, SetFormatRequest(datagram))
      ensures exited <==> old(clients.WouldFail(AfterSetFormat(clients.clients, from, SetFormatRequest(datagram)), w))
      ensures !exited ==> clients.Valid() && AllValid(Pipes(clients.listeners)) && clients.ToldIfChanged()
      ensures outbox == old(outbox) + (if exited then [] else Replies(from, SetFormatAnswer(SetFormatRequest(datagram))))
    {
      var setFormatData := GetSetFormatData(datagram);
      if setFormatData == None {
        return false;
      }
      var compression := CompressionFromNetworkValue(setFormatData.value.compression);
      if compression == None {
        return false;
      }
      exited := clients.SetCompression(from, compression.value, w);
      if !exited {
        AcknowledgeSetFormat(from, setFormatData.value.requestId);
      }
    }

    method AcknowledgeSetFormat(to: Address, requestId: UInt16)
      modifies this`outbox
      ensures outbox == old(outbox) + Replies(to, [AckSetFormatPacket(requestId)])
    {
      var ack := CreateAckSetFormatPacket(requestId);
      Send(to, ack[..]);
    }

    method ProcessKeystroke(datagram: Bytes)
      modifies this`typed, this`keyboard
      ensures typed == old(typed) + KeystrokesOf(GetKeystroke(datagram))
      ensures Keystrokes.Types(old(keyboard), keyboard, KeystrokesOf(GetKeystroke(datagram)))
      ensures old(TypesAll()) ==> TypesAll()
    {
      var press := GetKeystroke(datagram);
      if press.Some? {
        var keystroke := new Keystrokes.Keystroke(press.value.key as int, press.value.mods as nat);
        var inputs := keystroke.Emulate();
        ghost var order :| Keystrokes.Orders(order, keystroke.mods) && inputs[..] == Keystrokes.Script(order, keystroke.key);
        Keystrokes.TypesMore(keyboard, keyboard, keyboard + inputs[..], [], order, press.value);
        assert [] + [press.value] == [press.value];
        if TypesAll() {
          Keystrokes.TypesMore([], keyboard, keyboard + inputs[..], typed, order, press.value);
        }
        keyboard := keyboard + inputs[..];
        typed := typed + [press.value];
      }
    }

    method ProcessKeepAlive(from: Address, w: World)
      requires clients.Valid()
      modifies clients`clients
      ensures clients.clients == Kept(old(clients.clients), from, w.now)
      ensures clients.Valid() && Formats(clients.clients) == Formats(old(clients.clients))
    {
      clients.Keep(from, w);
    }

    /** The timer handler: greet every client, then drop those that timed out. */
    method Maintain(w: World) returns (thrown: bool)
      requires clients.Valid() && AllValid(Pipes(clients.listeners))
      requires Partitions(clientsCache, Formats(clients.clients))
      modifies this`outbox, clients`clients, clients`clientInfos, clients`log, Views(clients.listeners)`lines,
               Servers(clients.listeners)`clientsCache, Pipes(clients.listeners)`encoders, Pipes(clients.listeners)`history
      ensures clients.clients == Maintained(old(clients.clients), w.now, clients.timeout)
      ensures AllValid(Pipes(clients.listeners))
      ensures thrown <==> old(clients.WouldFail(Maintained(clients.clients, w.now, clients.timeout), w))
      ensures !thrown ==> clients.Valid() && clients.ToldIfChanged()
      ensures forall a :: StreamTo(outbox, a) == StreamTo(old(outbox), a)
                + (if a in Formats(old(clients.clients)) then [BarePacket(SERVER_KEEP_ALIVE)] else [])
    {
      Keepalive(Formats(clients.clients));
      ghost var sent := outbox;
      thrown := clients.Maintain(w);
      assert outbox == sent;
    }
  }

  // ---- The client registry -------------------------------------------------------------------

  class Clients {
    const timeout: int
    var clients: ClientMap
    var clientInfos: seq<ClientInfo>
    var listeners: seq<Listener>
    ghost var log: seq<Notification>

    constructor (timeout: int)
      ensures this.timeout == timeout && clients == map[] && listeners == [] && Valid()
    {
      this.timeout := timeout;
      clients, clientInfos, listeners, log := map[], [], [], [];
    }

    /** The list is the map's, and it is what every listener was last called with. */
    ghost predicate Valid()
      reads this
    {
      && Lists(clientInfos, Formats(clients))
      && forall l :: l in listeners ==> LastSeen(log, l) == Some(clientInfos)
    }

    /** Some listening pipe cannot create the encoders for `wanted`. */
    ghost predicate Fails(wanted: set<Compression>, w: World)
      reads this, Pipes(listeners)
    {
      exists p :: p in Pipes(listeners) && Breaks(p.encoders.Keys, wanted, w)
    }

    /** Going over to `reg` changes somebody's compression, and some pipe cannot follow. */
    ghost predicate WouldFail(reg: ClientMap, w: World)
      reads this, Pipes(listeners)
    {
      Formats(reg) != Formats(clients) && Fails(InUse(reg), w)
    }

    /** Every listener was called once, with the current list, and every view is up to date with it. */
    twostate predicate Notified()
      reads this, Views(listeners)`lines, Servers(listeners)`clientsCache, Pipes(listeners)`encoders, Pipes(listeners)`history
    {
      && listeners == old(listeners)
      && log == old(log) + Broadcast(listeners, clientInfos)
      && (forall l :: l in listeners && l.ViewListener? ==> l.view.lines == AddressesOf(clientInfos))
      && (forall l :: l in listeners && l.ServerListener? ==> l.server.clientsCache == Grouped(clientInfos))
      && (forall l :: l in old(listeners) && l.PipeListener? ==> l.pipe.Reconciles(Wanted(clientInfos)))
    }

    /** Nobody was called and nothing that depends on the list has changed. */
    twostate predicate Untouched()
      reads this, Views(listeners)`lines, Servers(listeners)`clientsCache, Pipes(listeners)`encoders, Pipes(listeners)`history
    {
      && listeners == old(listeners) && log == old(log) && clientInfos == old(clientInfos)
      && (forall l :: l in old(listeners) && l.ViewListener? ==> l.view.lines == old(l.view.lines))
      && (forall l :: l in old(listeners) && l.ServerListener? ==> l.server.clientsCache == old(l.server.clientsCache))
      && (forall l :: l in old(listeners) && l.PipeListener? ==>
            l.pipe.encoders == old(l.pipe.encoders) && l.pipe.history == old(l.pipe.history))
    }

    method UpdateInfos()
      modifies this`clientInfos
      ensures Lists(clientInfos, Formats(clients))
    {
      clientInfos := [];
      var remaining := clients.Keys;
      while remaining != {}
        invariant remaining <= clients.Keys && DistinctAddresses(clientInfos)
        invariant forall x :: x in clientInfos ==>
                    x.address in clients && x.address !in remaining && clients[x.address].compression == x.compression
        invariant forall a :: a in clients && a !in remaining ==> ClientInfo(a, clients[a].compression) in clientInfos
      {
        var a :| a in remaining;
        clientInfos := [ClientInfo(a, clients[a].compression)] + clientInfos;
        remaining := remaining - {a};
      }
    }

    method Call(l: Listener, w: World, ghost pipes: set<CapturePipe>) returns (thrown: bool)
      requires AllValid(pipes) && PipeOf(l) <= pipes
      modifies this`log, ViewOf(l)`lines, ServerOf(l)`clientsCache, PipeOf(l)`encoders, PipeOf(l)`history
      ensures log == old(log) + [Notification(l, clientInfos)]
      ensures l.ViewListener? ==> l.view.lines == AddressesOf(clientInfos)
      ensures l.ServerListener? ==> l.server.clientsCache == Grouped(clientInfos)
      ensures AllValid(pipes)
      ensures l.PipeListener? && !thrown ==> l.pipe.Reconciles(Wanted(clientInfos))
      ensures thrown <==> l.PipeListener? && Breaks(old(l.pipe.encoders).Keys, Wanted(clientInfos), w)
      ensures l.PipeListener? && old(l.pipe.encoders).Keys == Wanted(clientInfos) ==>
                l.pipe.encoders == old(l.pipe.encoders) && l.pipe.history == old(l.pipe.history)
    {
      log := log + [Notification(l, clientInfos)];
      thrown := false;
      match l {
        case ViewListener(view) => view.OnClientsUpdate(clientInfos);
        case ServerListener(server) => server.OnClientsUpdate(clientInfos);
        case PipeListener(pipe) => thrown := pipe.OnClientsUpdate(clientInfos, w);
      }
    }

    method NotifyListeners(w: World) returns (thrown: bool)
      requires AllValid(Pipes(listeners))
      modifies this`log, Views(listeners)`lines, Servers(listeners)`clientsCache,
               Pipes(listeners)`encoders, Pipes(listeners)`history
      ensures AllValid(Pipes(listeners))
      ensures thrown <==> old(Fails(Wanted(clientInfos), w))
      ensures !thrown ==> Notified()
    {
      ghost var pipes, wanted := Pipes(listeners), Wanted(clientInfos);
      for i := 0 to |listeners|
        invariant AllValid(pipes)
        invariant log == old(log) + Broadcast(listeners[..i], clientInfos)
        invariant forall l :: l in listeners[..i] ==>
                    && (l.ViewListener? ==> l.view.lines == AddressesOf(clientInfos))
                    && (l.ServerListener? ==> l.server.clientsCache == Grouped(clientInfos))
                    && (l.PipeListener? ==> l.pipe.Reconciles(wanted) && !Breaks(old(l.pipe.encoders).Keys, wanted, w))
        invariant forall l :: l in listeners && l !in listeners[..i] && l.PipeListener? ==>
                    l.pipe.encoders == old(l.pipe.encoders) && l.pipe.history == old(l.pipe.history)
      {
        assert listeners[..i + 1] == listeners[..i] + [listeners[i]];
        BroadcastSnoc(listeners[..i], listeners[i], clientInfos);
        thrown := NotifyOne(i, w, pipes);
        if thrown {
          return;
        }
      }
      assert listeners[..|listeners|] == listeners;
      thrown := false;
    }

    /** One call of that loop: it changes only what the called listener is bound to. */
    method NotifyOne(i: nat, w: World, ghost pipes: set<CapturePipe>) returns (thrown: bool)
      requires i < |listeners| && pipes == Pipes(listeners) && AllValid(pipes)
      modifies this`log, Views(listeners)`lines, Servers(listeners)`clientsCache,
               Pipes(listeners)`encoders, Pipes(listeners)`history
      ensures AllValid(pipes)
      ensures log == old(log) + [Notification(listeners[i], clientInfos)]
      ensures thrown <==> listeners[i].PipeListener?
                          && Breaks(old(listeners[i].pipe.encoders).Keys, Wanted(clientInfos), w)
      ensures var l := listeners[i];
              && (l.ViewListener? ==> l.view.lines == AddressesOf(clientInfos))
              && (l.ServerListener? ==> l.server.clientsCache == Grouped(clientInfos))
              && (l.PipeListener? && !thrown ==> l.pipe.Reconciles(Wanted(clientInfos)))
              && (l.PipeListener? && old(l.pipe.encoders).Keys == Wanted(clientInfos) ==>
                    l.pipe.encoders == old(l.pipe.encoders) && l.pipe.history == old(l.pipe.history))
      ensures forall l :: l in listeners && l != listeners[i] ==>
                && (l.ViewListener? ==> l.view.lines == old(l.view.lines))
                && (l.ServerListener? ==> l.server.clientsCache == old(l.server.clientsCache))
                && (l.PipeListener? ==>
                      l.pipe.encoders == old(l.pipe.encoders) && l.pipe.history == old(l.pipe.history))
    {
      assert listeners[i] in listeners;
      assert PipeOf(listeners[i]) <= Pipes(listeners) && ViewOf(listeners[i]) <= Views(listeners)
          && ServerOf(listeners[i]) <= Servers(listeners);
      thrown := Call(listeners[i], w, pipes);
    }

    method UpdateAndNotify(w: World) returns (thrown: bool)
      requires AllValid(Pipes(listeners))
      modifies this`clientInfos, this`log, Views(listeners)`lines, Servers(listeners)`clientsCache,
               Pipes(listeners)`encoders, Pipes(listeners)`history
      ensures AllValid(Pipes(listeners))
      ensures thrown <==> old(Fails(InUse(clients), w))
      ensures !thrown ==> Valid() && Notified()
    {
      UpdateInfos();
      WantedIsInUse(clientInfos, Formats(clients));
      thrown := NotifyListeners(w);
      if !thrown {
        forall l | l in listeners ensures LastSeen(log, l) == Some(clientInfos) {
          BroadcastSeen(old(log), listeners, clientInfos, l);
        }
      }
    }

    /** What every operation owes its listeners: one call each if somebody's compression changed, else none. */
    twostate predicate ToldIfChanged()
      reads this, Views(listeners)`lines, Servers(listeners)`clientsCache, Pipes(listeners)`encoders, Pipes(listeners)`history
    {
      if Formats(clients) == old(Formats(clients)) then Untouched() else Notified()
    }

    method Add(a: Address, c: Compression, w: World) returns (thrown: bool)
      requires Valid() && AllValid(Pipes(listeners))
      modifies this`clients, this`clientInfos, this`log, Views(listeners)`lines, Servers(listeners)`clientsCache,
               Pipes(listeners)`encoders, Pipes(listeners)`history
      ensures clients == Added(old(clients), a, c, w.now)
      ensures AllValid(Pipes(listeners))
      ensures thrown <==> old(WouldFail(Added(clients, a, c, w.now), w))
      ensures !thrown ==> Valid() && ToldIfChanged()
    {
      if a in clients {
        var same := clients[a].compression == c;
        clients := clients[a := clients[a].(lastContact := w.now)];
        assert Formats(clients) == Formats(old(clients));
        assert Added(clients, a, c, w.now) == Added(old(clients), a, c, w.now);
        if same {
          return false;
        }
      }
      thrown := Register(a, c, w);
    }

    /** The two branches of adding that notify. */
    method Register(a: Address, c: Compression, w: World) returns (thrown: bool)
      requires Valid() && AllValid(Pipes(listeners))
      requires a !in clients || clients[a] == Client(clients[a].compression, w.now)
      requires a !in clients || clients[a].compression != c
      modifies this`clients, this`clientInfos, this`log, Views(listeners)`lines, Servers(listeners)`clientsCache,
               Pipes(listeners)`encoders, Pipes(listeners)`history
      ensures clients == Added(old(clients), a, c, w.now)
      ensures AllValid(Pipes(listeners))
      ensures thrown <==> old(WouldFail(Added(clients, a, c, w.now), w))
      ensures !thrown ==> Valid() && Formats(clients) != old(Formats(clients)) && Notified()
    {
      if a in clients {
        clients := clients[a := clients[a].(compression := c)];
      } else {
        clients := clients[a := Client(c, w.now)];
      }
      assert a in Formats(old(clients)) ==> Formats(clients)[a] != Formats(old(clients))[a];
      thrown := UpdateAndNotify(w);
    }

    method SetCompression(a: Address, c: Compression, w: World) returns (thrown: bool)
      requires Valid() && AllValid(Pipes(listeners))
      modifies this`clients, this`clientInfos, this`log, Views(listeners)`lines, Servers(listeners)`clientsCache,
               Pipes(listeners)`encoders, Pipes(listeners)`history
      ensures clients == Recompressed(old(clients), a, c)
      ensures AllValid(Pipes(listeners))
      ensures thrown <==> old(WouldFail(Recompressed(clients, a, c), w))
      ensures !thrown ==> Valid() && ToldIfChanged()
    {
      if a !in clients || clients[a].compression == c {
        return false;
      }
      clients := clients[a := clients[a].(compression := c)];
      assert Formats(clients)[a] != Formats(old(clients))[a];
      thrown := UpdateAndNotify(w);
    }

    method Keep(a: Address, w: World)
      requires Valid()
      modifies this`clients
      ensures clients == Kept(old(clients), a, w.now)
      ensures Valid() && Formats(clients) == Formats(old(clients))
    {
      if a !in clients {
        return;
      }
      clients := clients[a := clients[a].(lastContact := w.now)];
      assert Formats(clients) == Formats(old(clients));
    }

    method Remove(a: Address, w: World) returns (thrown: bool)
      requires Valid() && AllValid(Pipes(listeners))
      modifies this`clients, this`clientInfos, this`log, Views(listeners)`lines, Servers(listeners)`clientsCache,
               Pipes(listeners)`encoders, Pipes(listeners)`history
      ensures clients == Removed(old(clients), a)
      ensures AllValid(Pipes(listeners))
      ensures thrown <==> old(WouldFail(Removed(clients, a), w))
      ensures !thrown ==> Valid() && ToldIfChanged()
    {
      if a in clients {
        clients := clients - {a};
        assert a in Formats(old(clients)) && a !in Formats(clients);
        thrown := UpdateAndNotify(w);
      } else {
        assert clients == clients - {a};
        thrown := false;
      }
    }

    /** Erases while iterating; one notification for all that were erased. */
    method Maintain(w: World) returns (thrown: bool)
      requires Valid() && AllValid(Pipes(listeners))
      modifies this`clients, this`clientInfos, this`log, Views(listeners)`lines, Servers(listeners)`clientsCache,
               Pipes(listeners)`encoders, Pipes(listeners)`history
      ensures clients == Maintained(old(clients), w.now, timeout)
      ensures AllValid(Pipes(listeners))
      ensures thrown <==> old(WouldFail(Maintained(clients, w.now, timeout), w))
      ensures !thrown ==> Valid() && ToldIfChanged()
    {
      var clientRemoved := EraseTimedOut(w.now);
      thrown := false;
      if clientRemoved {
        thrown := UpdateAndNotify(w);
      }
    }

    method EraseTimedOut(now: int) returns (clientRemoved: bool)
      modifies this`clients
      ensures clients == Maintained(old(clients), now, timeout)
      ensures clientRemoved <==> Formats(clients) != Formats(old(clients))
    {
      clientRemoved := false;
      var remaining := clients.Keys;
      while remaining != {}
        invariant remaining <= old(clients).Keys
        invariant clients == map a | a in old(clients) && (a in remaining || now - old(clients)[a].lastContact <= timeout)
                               :: old(clients)[a]
        invariant clientRemoved <==> exists a :: a in old(clients) && a !in clients
      {
        var a :| a in remaining;
        if now - clients[a].lastContact > timeout {
          clients := clients - {a};
          clientRemoved := true;
        }
        remaining := remaining - {a};
      }
      if clientRemoved {
        ghost var a :| a in old(clients) && a !in clients;
        assert a in Formats(old(clients)) && a !in Formats(clients);
      } else {
        assert clients == old(clients);
      }
    }

    /** The new listener goes to the front and is at once told the current list; if that fails it stays registered. */
    method AddClientsListener(l: Listener, w: World) returns (thrown: bool)
      requires Valid() && AllValid(PipeOf(l))
      modifies this`listeners, this`log, ViewOf(l)`lines, ServerOf(l)`clientsCache,
               PipeOf(l)`encoders, PipeOf(l)`history
      ensures Valid() && listeners == [l] + old(listeners) && log == old(log) + [Notification(l, clientInfos)]
      ensures AllValid(PipeOf(l))
      ensures l.ViewListener? ==> l.view.lines == AddressesOf(clientInfos)
      ensures l.ServerListener? ==> l.server.clientsCache == Grouped(clientInfos)
      ensures l.PipeListener? && !thrown ==> l.pipe.Reconciles(InUse(clients))
      ensures thrown <==> l.PipeListener? && Breaks(old(l.pipe.encoders).Keys, InUse(clients), w)
    {
      WantedIsInUse(clientInfos, Formats(clients));
      listeners := [l] + listeners;
      thrown := Call(l, w, PipeOf(l));
      forall x ensures LastSeen(log, x) == if x == l then Some(clientInfos) else LastSeen(old(log), x) {
        LastSeenAfter(old(log), Notification(l, clientInfos), x);
      }
    }

    /** Removes every listener of the kind of `l`, whatever object it is bound to, and counts them. */
    method RemoveClientsListener(l: Listener) returns (removed: nat)
      requires Valid()
      modifies this`listeners
      ensures Valid() && listeners == WithoutKind(old(listeners), l) && removed == |old(listeners)| - |listeners|
    {
      var kept: seq<Listener> := [];
      removed := 0;
      for i := 0 to |listeners|
        invariant listeners == old(listeners)
        invariant kept == WithoutKind(listeners[..i], l) && removed == i - |kept|
        invariant forall x :: x in kept ==> x in listeners
      {
        assert listeners[..i + 1] == listeners[..i] + [listeners[i]];
        WithoutKindAppend(listeners[..i], listeners[i], l);
        if listeners[i].SameKind(l) {
          removed := removed + 1;
        } else {
          kept := kept + [listeners[i]];
        }
      }
      assert listeners[..|listeners|] == listeners;
      listeners := kept;
    }
  }

  // ---- The application -----------------------------------------------------------------------

  /** How a posted handler ends: normally, with an `Audio::Error`, or with another exception. */
  datatype Outcome = Done | AudioError | Fatal

  class App {
    const clients: Clients
    const server: Server
    const view: ClientsView
    const counter: SequenceCounter
    var capturePipe: CapturePipe?
    var currentDeviceId: string
    var running: bool

    ghost function Repr(): set<object?>
      reads this, capturePipe
    {
      {null, this, clients, server, view, counter}
      + (if capturePipe == null then {} else {capturePipe} + capturePipe.encoders.Values)
    }

    ghost function OwnedPipe(): set<CapturePipe>
      reads this
    {
      if capturePipe == null then {} else {capturePipe}
    }

    /** The registered listeners are the server, the window and, exactly while one is owned, the capture pipe. */
    ghost predicate Wired()
      reads this, clients
    {
      && server.clients == clients
      && clients.listeners == (if capturePipe == null then [] else [PipeListener(capturePipe)])
                              + [ServerListener(server), ViewListener(view)]
    }

    /** The server's and the window's view agree with the registry; an owned pipe is well formed. */
    ghost predicate ViewsAgree()
      reads Repr()
    {
      && clients.Valid()
      && view.lines == AddressesOf(clients.clientInfos)
      && Partitions(server.clientsCache, Formats(clients.clients))
      && (capturePipe != null ==> capturePipe.Valid() && capturePipe.server == server && capturePipe.counter == counter)
    }

    /** An owned pipe has encoders for exactly the compressions in use. */
    ghost predicate PipeAgrees()
      reads this, clients, capturePipe
    {
      capturePipe != null ==> capturePipe.encoders.Keys == InUse(clients.clients)
    }

    ghost predicate Valid()
      reads Repr()
    {
      running ==> Wired() && ViewsAgree() && PipeAgrees()
    }

    ghost function Abs(): State
      reads Repr()
    {
      if !running then Stopped
      else Running(clients.clients, currentDeviceId, if capturePipe == null then None else Some(capturePipe.State()),
                   counter.next, server.typed)
    }

    /** The state once no pipe is owned any more. */
    ghost function AbsWithoutPipe(): State
      reads Repr()
    {
      Running(clients.clients, currentDeviceId, None, counter.next, server.typed)
    }

    /** Start-up: the window registers first, then the server; no device is captured yet. */
    constructor (timeout: int, w: World)
      ensures Valid() && fresh(Repr() - {null}) && clients.timeout == timeout
      ensures Abs() == INITIAL && server.outbox == [] && server.TypesAll()
    {
      var registry, window, network := Start(timeout, w);
      clients, view, server := registry, window, network;
      counter := new SequenceCounter();
      capturePipe, currentDeviceId, running := null, "", true;
    }

    static method Start(timeout: int, w: World) returns (clients: Clients, view: ClientsView, server: Server)
      ensures fresh(clients) && fresh(view) && fresh(server)
      ensures clients.timeout == timeout && clients.clients == map[] && clients.Valid()
      ensures clients.listeners == [ServerListener(server), ViewListener(view)] && server.clients == clients
      ensures view.lines == AddressesOf(clients.clientInfos)
      ensures Partitions(server.clientsCache, Formats(clients.clients))
      ensures server.outbox == [] && server.typed == [] && server.TypesAll()
    {
      clients := new Clients(timeout);
      view := new ClientsView();
      var thrown := clients.AddClientsListener(ViewListener(view), w);
      server := new Server(clients);
      thrown := clients.AddClientsListener(ServerListener(server), w);
      GroupedPartitions(clients.clientInfos, Formats(clients.clients));
    }

    lemma ListenerKinds()
      requires Wired()
      ensures ServerListener(server) in clients.listeners && ViewListener(view) in clients.listeners
      ensures capturePipe != null ==> PipeListener(capturePipe) in clients.listeners
      ensures Views(clients.listeners) == {view} && Servers(clients.listeners) == {server}
      ensures Pipes(clients.listeners) == OwnedPipe()
    {
    }

    /** In every reachable state, removal by the pipe's kind finds one listener if a pipe is owned and none otherwise. */
    lemma OnePipeListener(p: CapturePipe)
      requires Wired()
      ensures |clients.listeners| - |WithoutKind(clients.listeners, PipeListener(p))| == if capturePipe == null then 0 else 1
      ensures WithoutKind(clients.listeners, PipeListener(p)) == [ServerListener(server), ViewListener(view)]
    {
      var l, rest := PipeListener(p), [ServerListener(server), ViewListener(view)];
      OthersStay(server, view, p);
      if capturePipe == null {
        assert clients.listeners == rest;
      } else {
        assert clients.listeners[1..] == rest && clients.listeners[0].SameKind(l);
      }
    }

    /** What the views hold in every reachable state: no client twice, none missing, no key without a client. */
    lemma ViewsAreExact()
      requires running && Valid()
      ensures NoDuplicates(view.lines) && forall a :: a in view.lines <==> a in Formats(clients.clients)
      ensures forall a, c :: Files(server.clientsCache, a, c) <==> Uses(Formats(clients.clients), a, c)
      ensures forall c :: c in server.clientsCache ==> server.clientsCache[c] != [] && NoDuplicates(server.clientsCache[c])
      ensures capturePipe != null ==> capturePipe.encoders.Keys == server.clientsCache.Keys
    {
      PartitionIsExact(server.clientsCache, Formats(clients.clients));
      ListedAddresses(clients.clientInfos, Formats(clients.clients), view.lines);
    }

    /** Whatever the pipe's state, exactly one listener goes with it, so the fatal branch is never taken. */
    method StopCapture() returns (ok: bool)
      requires Wired() && ViewsAgree()
      modifies this`capturePipe, clients`listeners
      ensures ok && capturePipe == null
      ensures Wired() && ViewsAgree() && PipeAgrees()
    {
      if capturePipe != null {
        OnePipeListener(capturePipe);
        var removed := clients.RemoveClientsListener(PipeListener(capturePipe));
        if removed != 1 {
          return false;
        }
        capturePipe := null;
      }
      ok := true;
    }

    method ChangeCaptureDevice(id: string, resamples: bool, constructs: bool, starts: bool, w: World)
      returns (outcome: Outcome)
      requires running && Valid()
      modifies this`capturePipe, this`currentDeviceId, clients`listeners, clients`log
      ensures Wired() && ViewsAgree()
      ensures outcome != Fatal
      ensures outcome == Done ==> PipeAgrees() && fresh(Repr() - old(Repr()))
      ensures outcome == Done ==> Abs() == AfterSelect(old(Abs()), id, resamples, constructs, starts, w)
      ensures outcome == AudioError ==> AbsWithoutPipe() == AfterSelect(old(Abs()), id, resamples, constructs, starts, w)
    {
      outcome := Done;
      if currentDeviceId != id {
        outcome := ReplaceDevice(id, resamples, constructs, starts, w);
      }
    }

    method ReplaceDevice(id: string, resamples: bool, constructs: bool, starts: bool, w: World) returns (outcome: Outcome)
      requires running && Valid()
      modifies this`capturePipe, this`currentDeviceId, clients`listeners, clients`log
      ensures Wired() && ViewsAgree() && outcome != Fatal
      ensures outcome == Done ==> capturePipe != null && fresh(capturePipe) && fresh(capturePipe.encoders.Values - {null})
      ensures outcome == Done ==> PipeAgrees() && Abs() == Opened(old(Abs()), id, resamples, constructs, starts, w)
      ensures outcome == AudioError ==> AbsWithoutPipe() == Opened(old(Abs()), id, resamples, constructs, starts, w)
    {
      ghost var s := Abs();
      currentDeviceId := "";
      var stopped := StopCapture();
      if !stopped {
        return Fatal;
      }
      assert Opened(AbsWithoutPipe(), id, resamples, constructs, starts, w) == Opened(s, id, resamples, constructs, starts, w);
      outcome := OpenDevice(id, resamples, constructs, starts, w);
    }

    /** The rest of the handler, with no pipe owned. A pipe that fails after it was registered stays owned. */
    method OpenDevice(id: string, resamples: bool, constructs: bool, starts: bool, w: World) returns (outcome: Outcome)
      requires running && Wired() && ViewsAgree() && capturePipe == null && currentDeviceId == ""
      modifies this`capturePipe, this`currentDeviceId, clients`listeners, clients`log
      ensures Wired() && ViewsAgree() && outcome != Fatal
      ensures outcome == Done ==> capturePipe != null && fresh(capturePipe) && fresh(capturePipe.encoders.Values - {null})
      ensures outcome == Done ==>
                PipeAgrees() && Abs() == Opened(old(AbsWithoutPipe()), id, resamples, constructs, starts, w)
      ensures outcome == AudioError ==>
                AbsWithoutPipe() == Opened(old(AbsWithoutPipe()), id, resamples, constructs, starts, w)
    {
      outcome := AudioError;
      if constructs {
        var registered := NewPipe(resamples, w);
        if registered {
          currentDeviceId := id;
          if starts {
            outcome := Done;
          }
        }
      }
    }

    method NewPipe(resamples: bool, w: World) returns (registered: bool)
      requires Wired() && ViewsAgree() && capturePipe == null
      modifies this`capturePipe, clients`listeners, clients`log
      ensures capturePipe != null && fresh(capturePipe) && Wired() && ViewsAgree()
      ensures registered <==> !Breaks({}, InUse(clients.clients), w)
      ensures registered ==> PipeAgrees() && fresh(capturePipe.encoders.Values - {null})
                             && capturePipe.State() == FreshPipe(resamples, InUse(clients.clients))
    {
      var pipe := new CapturePipe(server, counter, resamples);
      ReconciledFresh(resamples, InUse(clients.clients));
      registered := RegisterPipe(pipe, w);
    }

    method RegisterPipe(pipe: CapturePipe, w: World) returns (registered: bool)
      requires Wired() && ViewsAgree() && capturePipe == null
      requires pipe.Valid() && pipe.server == server && pipe.counter == counter && pipe.encoders == map[]
      modifies this`capturePipe, clients`listeners, clients`log, pipe`encoders, pipe`history
      ensures capturePipe == pipe && Wired() && ViewsAgree()
      ensures registered <==> !Breaks({}, InUse(clients.clients), w)
      ensures registered ==> PipeAgrees() && fresh(pipe.encoders.Values - {null})
                             && pipe.history == Reconciled(old(pipe.history), InUse(clients.clients))
    {
      capturePipe := pipe;
      var thrown := clients.AddClientsListener(PipeListener(pipe), w);
      registered := !thrown;
      assert clients.Valid();
    }

    /** What the capture coroutine does with one span of audio. */
    method OnCapture(pcm: Bytes, w: World) returns (outcome: Outcome, ghost served: set<Compression>)
      requires running && Valid()
      modifies Repr() - {this, clients, view}
      ensures outcome != Fatal && Wired() && ViewsAgree() && PipeAgrees() && Repr() == old(Repr())
      ensures var s := AfterCapture(old(Abs()), pcm, w);
              if outcome == Done then Abs() == s else AbsWithoutPipe() == s
      ensures Emits(old(server.outbox), server.outbox, old(Abs()), Capture(pcm), w, served)
      ensures unchanged(server`typed) && unchanged(server`keyboard)
    {
      outcome, served := Done, {};
      if capturePipe != null && !capturePipe.muted && capturePipe.encoders.Keys != {} {
        var thrown;
        ghost var s, out := Abs(), server.outbox;
        thrown, served := FeedPipe(pcm, w);
        outcome := if thrown then AudioError else Done;
        EmitsOnCapture(out, server.outbox, s, pcm, w, served);
      } else {
        EmitsNothing(server.outbox, Abs(), Capture(pcm), w, served);
      }
    }

    method FeedPipe(pcm: Bytes, w: World) returns (thrown: bool, ghost served: set<Compression>)
      requires running && Valid() && capturePipe != null
      modifies Repr() - {this, clients, view}
      ensures Wired() && ViewsAgree() && PipeAgrees()
      ensures Accepted(old(capturePipe.State()), pcm, w) == None ==>
                thrown && server.outbox == old(server.outbox) && counter.next == old(counter.next)
      ensures Accepted(old(capturePipe.State()), pcm, w) != None ==>
                var p := old(capturePipe.State()).(buffer :=
                           old(capturePipe.buffer) + Accepted(old(capturePipe.State()), pcm, w).value);
                var d := Drain(p, old(counter.next), w);
                && thrown == d.failed && counter.next == d.next && (!thrown ==> capturePipe.State() == d.pipe)
                && Drains(old(server.outbox), server.outbox, Formats(clients.clients), p, old(counter.next), w, served)
      ensures unchanged(server`typed) && unchanged(server`keyboard) && unchanged(capturePipe`encoders)
    {
      thrown, served := capturePipe.Process(pcm, w, Formats(clients.clients));
      CaptureKeepsViews();
    }

    twostate lemma CaptureKeepsViews()
      requires old(running && Valid()) && unchanged(this) && unchanged(clients) && unchanged(view)
      requires unchanged(server`clientsCache) && capturePipe != null && capturePipe.Valid() && unchanged(capturePipe`encoders)
      ensures Wired() && ViewsAgree() && PipeAgrees()
    {
    }

    /** The registry's notion of a failing step is the machine's. */
    lemma FailsAsBreaks(reg: ClientMap, w: World)
      requires running && Valid()
      ensures clients.WouldFail(reg, w) <==> capturePipe != null && Breaks(capturePipe.encoders.Keys, InUse(reg), w)
    {
    }

    /** Nothing changed but the registry and what its listeners keep of it. */
    twostate predicate OnlyTold()
      reads this, counter, clients, capturePipe
    {
      && unchanged(this) && unchanged(counter) && unchanged(clients`listeners) && Wired()
      && (capturePipe != null ==> unchanged(capturePipe`muted) && unchanged(capturePipe`buffer))
    }

    /** Once the registry has told its listeners, everything the application keeps agrees with it again. */
    twostate lemma ViewsFollow()
      requires old(running && Valid()) && OnlyTold()
      requires clients.Valid() && clients.ToldIfChanged() && AllValid(Pipes(clients.listeners))
      ensures Valid()
      ensures Abs() == Running(clients.clients, currentDeviceId, Listening(old(Abs()).pipe, clients.clients),
                               counter.next, server.typed)
      ensures fresh(Repr() - old(Repr()))
    {
      if capturePipe != null {
        PipeFollows();
        capturePipe.StateFollows(clients.clients);
      }
      ListenerKinds();
      GroupedPartitions(clients.clientInfos, Formats(clients.clients));
    }

    twostate lemma PipeFollows()
      requires old(running && Valid()) && OnlyTold() && capturePipe != null
      requires clients.Valid() && clients.ToldIfChanged() && AllValid(Pipes(clients.listeners))
      ensures capturePipe.Valid() && capturePipe.Reconciles(InUse(clients.clients))
    {
      ListenerKinds();
      WantedIsInUse(clients.clientInfos, Formats(clients.clients));
      ReconciledInTwoSteps(old(capturePipe.history), InUse(clients.clients));
    }

    method OnTick(w: World) returns (outcome: Outcome)
      requires running && Valid()
      modifies Repr() - {this}
      ensures outcome == Done && Valid() && fresh(Repr() - old(Repr()))
      ensures Abs() == AfterTick(old(Abs()), w, clients.timeout)
      ensures Emits(old(server.outbox), server.outbox, old(Abs()), Tick, w, {})
      ensures unchanged(server`typed) && unchanged(server`keyboard)
    {
      outcome := MaintainClients(w);
    }

    method MaintainClients(w: World) returns (outcome: Outcome)
      requires running && Valid()
      modifies server`outbox, clients`clients, clients`clientInfos, clients`log, view`lines, server`clientsCache,
               OwnedPipe()`encoders, OwnedPipe()`history
      ensures outcome == Done && Valid() && fresh(Repr() - old(Repr()))
      ensures Abs() == AfterTick(old(Abs()), w, clients.timeout)
      ensures Emits(old(server.outbox), server.outbox, old(Abs()), Tick, w, {})
    {
      outcome := DropLateClients(w);
      ViewsFollow();
    }

    /** Dropping clients never calls for a new encoder, so telling the pipe cannot fail. */
    method DropLateClients(w: World) returns (outcome: Outcome)
      requires running && Valid()
      modifies server`outbox, clients`clients, clients`clientInfos, clients`log, view`lines, server`clientsCache,
               OwnedPipe()`encoders, OwnedPipe()`history
      ensures outcome == Done && OnlyTold()
      ensures clients.Valid() && clients.ToldIfChanged() && AllValid(Pipes(clients.listeners))
      ensures clients.clients == Maintained(old(clients.clients), w.now, clients.timeout)
      ensures Emits(old(server.outbox), server.outbox, old(Abs()), Tick, w, {})
    {
      assert !clients.WouldFail(Maintained(clients.clients, w.now, clients.timeout), w) by {
        ShrinkingNeedsNothingNew(clients.clients, w.now, clients.timeout, Address(0));
        FailsAsBreaks(Maintained(clients.clients, w.now, clients.timeout), w);
      }
      ghost var s, out := Abs(), server.outbox;
      var thrown := MaintainServer(w);
      outcome := if thrown then AudioError else Done;
      EmitsToAll(out, server.outbox, s, Tick, w, {});
    }

    method MaintainServer(w: World) returns (thrown: bool)
      requires Wired() && ViewsAgree()
      modifies server`outbox, clients`clients, clients`clientInfos, clients`log, view`lines, server`clientsCache,
               OwnedPipe()`encoders, OwnedPipe()`history
      ensures OnlyTold() && AllValid(Pipes(clients.listeners))
      ensures clients.clients == Maintained(old(clients.clients), w.now, clients.timeout)
      ensures thrown <==> old(clients.WouldFail(Maintained(clients.clients, w.now, clients.timeout), w))
      ensures !thrown ==> clients.Valid() && clients.ToldIfChanged()
      ensures forall a :: StreamTo(server.outbox, a) == StreamTo(old(server.outbox), a)
                + (if a in Formats(old(clients.clients)) then [BarePacket(SERVER_KEEP_ALIVE)] else [])
    {
      ListenerKinds();
      thrown := server.Maintain(w);
    }

    method OnReceive(from: Address, datagram: Bytes, w: World) returns (outcome: Outcome)
      requires running && Valid()
      modifies Repr() - {this}
      ensures outcome == if AfterReceive(old(Abs()), from, datagram, w).Stopped? then Fatal else Done
      ensures outcome == Done ==> Valid() && fresh(Repr() - old(Repr()))
      ensures outcome == Done ==> Abs() == AfterReceive(old(Abs()), from, datagram, w)
      ensures Emits(old(server.outbox), server.outbox, old(Abs()), Machine.Receive(from, datagram), w, {})
      ensures old(server.TypesAll()) ==> server.TypesAll()
    {
      FailsAsBreaks(AfterDatagram(clients.clients, from, datagram, w.now), w);
      var exited := ReceiveDatagram(from, datagram, w);
      outcome := if exited then Fatal else Done;
      EmitsOnReceive(old(server.outbox), server.outbox, old(Abs()), from, datagram, w, {});
      if !exited {
        ViewsFollow();
      }
    }

    method ReceiveDatagram(from: Address, datagram: Bytes, w: World) returns (exited: bool)
      requires running && Valid()
      modifies server`outbox, server`typed, server`keyboard, clients`clients, clients`clientInfos, clients`log, view`lines,
               server`clientsCache, OwnedPipe()`encoders, OwnedPipe()`history
      ensures clients.clients == AfterDatagram(old(clients.clients), from, datagram, w.now)
      ensures exited <==> old(clients.WouldFail(AfterDatagram(clients.clients, from, datagram, w.now), w))
      ensures !exited ==> OnlyTold() && clients.Valid() && clients.ToldIfChanged() && AllValid(Pipes(clients.listeners))
      ensures !exited ==> server.typed == old(server.typed) + Typed(datagram)
      ensures old(server.TypesAll()) ==> server.TypesAll()
      ensures forall a :: StreamTo(server.outbox, a) == StreamTo(old(server.outbox), a)
                + (if a == from && !exited then Answer(datagram) else [])
    {
      ListenerKinds();
      exited := server.Receive(from, datagram, w);
    }

    /** One turn of the event loop: run the handler; after an audio error stop capturing, after any other one exit. */
    method Handle(e: Event, w: World) returns (ghost served: set<Compression>)
      requires Valid()
      modifies Repr()
      ensures Valid() && fresh(Repr() - old(Repr()))
      ensures Abs() == Step(old(Abs()), e, w, clients.timeout)
      ensures Emits(old(server.outbox), server.outbox, old(Abs()), e, w, served)
      ensures old(server.TypesAll()) ==> server.TypesAll()
    {
      served := {};
      if !running {
        EmitsNothing(server.outbox, Abs(), e, w, served);
        return;
      }
      var outcome;
      outcome, served := Dispatch(e, w);
      Recover(outcome, Step(old(Abs()), e, w, clients.timeout));
    }

    method Recover(outcome: Outcome, ghost s: State)
      requires outcome == Done ==> Valid() && Abs() == s
      requires outcome == AudioError ==> running && Wired() && ViewsAgree() && AbsWithoutPipe() == s
      requires outcome == Fatal ==> s == Stopped
      modifies this`running, this`capturePipe, clients`listeners
      ensures Valid() && Abs() == s
      ensures if outcome == Done then Repr() == old(Repr()) else capturePipe == null
    {
      match outcome {
        case Done =>
        case AudioError =>
          var stopped := StopCapture();
          running := stopped;
        case Fatal =>
          running, capturePipe := false, null;
      }
    }

    /** What a handler leaves behind, before the event loop has dealt with its outcome. */
    method Dispatch(e: Event, w: World) returns (outcome: Outcome, ghost served: set<Compression>)
      requires running && Valid()
      modifies Repr()
      ensures outcome == Done ==>
                Valid() && fresh(Repr() - old(Repr())) && Abs() == Step(old(Abs()), e, w, clients.timeout)
      ensures outcome == AudioError ==>
                running && Wired() && ViewsAgree() && AbsWithoutPipe() == Step(old(Abs()), e, w, clients.timeout)
      ensures outcome == Fatal ==> Step(old(Abs()), e, w, clients.timeout) == Stopped
      ensures Emits(old(server.outbox), server.outbox, old(Abs()), e, w, served)
      ensures old(server.TypesAll()) ==> server.TypesAll()
    {
      served := {};
      if e.SelectDevice? || e.CaptureFailure? || e.SetMuted? {
        EmitsNothing(server.outbox, Abs(), e, w, served);
      }
      match e {
        case Receive(from, datagram) =>
          outcome := OnReceive(from, datagram, w);
        case Tick =>
          outcome := OnTick(w);
        case SelectDevice(id, resamples, constructs, starts) =>
          outcome := ChangeCaptureDevice(id, resamples, constructs, starts, w);
        case Capture(pcm) =>
          outcome, served := OnCapture(pcm, w);
        case CaptureFailure =>
          outcome := AudioError;
        case SetMuted(muted) =>
          outcome := Done;
          OnMute(muted);
        case Shutdown =>
          outcome := Done;
          ShutDown();
      }
    }

    method OnMute(muted: bool)
      requires running && Valid()
      modifies Repr() - {this, clients, view, server, counter}
      ensures Valid() && Repr() == old(Repr())
      ensures Abs() == AfterMute(old(Abs()), muted)
    {
      if capturePipe != null {
        capturePipe.muted := muted;
      }
    }

    method ShutDown()
      requires running && Valid()
      modifies this`running, this`capturePipe, server`outbox, clients`listeners
      ensures !running
      ensures capturePipe == null
      ensures forall w :: Emits(old(server.outbox), server.outbox, old(Abs()), Shutdown, w, {})
    {
      server.SendDisconnectBlocking(Formats(clients.clients));
      forall w ensures Emits(old(server.outbox), server.outbox, old(Abs()), Shutdown, w, {}) {
        EmitsToAll(old(server.outbox), server.outbox, old(Abs()), Shutdown, w, {});
      }
      var stopped := StopCapture();
      running := false;
    }

    /** The event loop over a whole run refines the machine: same states, same packets to every address. */
    method Run(run: seq<Moment>) returns (ghost served: seq<set<Compression>>)
      requires Valid()
      modifies Repr()
      ensures Valid() && |served| == |run| && fresh(Repr() - old(Repr()))
      ensures Abs() == After(old(Abs()), run, clients.timeout)
      ensures forall a :: StreamTo(server.outbox, a)
                == StreamTo(old(server.outbox), a) + SentInRun(old(Abs()), run, served, clients.timeout, a)
      ensures old(server.TypesAll()) ==> server.TypesAll()
    {
      ghost var s, out := Abs(), server.outbox;
      served := [];
      for i := 0 to |run|
        invariant Valid() && fresh(Repr() - old(Repr())) && |served| == i
        invariant Abs() == After(s, run[..i], clients.timeout)
        invariant old(server.TypesAll()) ==> server.TypesAll()
        invariant forall a :: StreamTo(server.outbox, a)
                    == StreamTo(out, a) + SentInRun(s, run[..i], served, clients.timeout, a)
      {
        ghost var before := server.outbox;
        ghost var nowServed := Handle(run[i].event, run[i].world);
        assert run[..i + 1][..i] == run[..i] && (served + [nowServed])[..i] == served;
        forall a ensures StreamTo(server.outbox, a)
                    == StreamTo(out, a) + SentInRun(s, run[..i + 1], served + [nowServed], clients.timeout, a)
        {
          Regroup(StreamTo(out, a), SentInRun(s, run[..i], served, clients.timeout, a),
                  Machine.Sent(After(s, run[..i], clients.timeout), run[i].event, run[i].world, nowServed, a));
        }
        served := served + [nowServed];
      }
      assert run[..|run|] == run;
    }
  }
}
