/** The server as one abstract machine without caches, listeners or encoders objects: a registry, at most one capture
    pipe and a frame counter. Every audio packet is addressed straight from the registry. The classes in FanOut are
    proved to behave like this machine. */
module Machine {
  import opened AudioTypes
  import opened Registry
  import opened Packets

  // ---- What leaves the server ----------------------------------------------------------------

  datatype Send = Send(to: Address, packet: Bytes)

  /** The packets sent to one address, in order. */
  function StreamTo(out: seq<Send>, a: Address): seq<Bytes> {
    if out == [] then []
    else
      var last := out[|out| - 1];
      StreamTo(out[..|out| - 1], a) + (if last.to == a then [last.packet] else [])
  }

  lemma {:induction false} StreamConcat(x: seq<Send>, y: seq<Send>, a: Address)
    ensures StreamTo(x + y, a) == StreamTo(x, a) + StreamTo(y, a)
  {
    if y == [] {
      assert x + y == x;
    } else {
      assert (x + y)[..|x + y| - 1] == x + y[..|y| - 1];
      StreamConcat(x, y[..|y| - 1], a);
    }
  }

  lemma Regroup<T>(x: seq<T>, y: seq<T>, z: seq<T>)
    ensures (x + y) + z == x + (y + z)
  {
  }

  lemma StreamOne(x: seq<Send>, s: Send, a: Address)
    ensures StreamTo(x + [s], a) == StreamTo(x, a) + (if s.to == a then [s.packet] else [])
  {
  }

  // ---- What the outside world answers during one step ----------------------------------------

  /** One call of the Opus library: its return value and the buffer it filled. */
  type OpusBuffer = b: Bytes | |b| == MAX_PACKET_SIZE witness seq(MAX_PACKET_SIZE, _ => 0)
  datatype OpusAnswer = OpusAnswer(result: int, buffer: OpusBuffer)

  /** `opus` may depend on the bit rate, on everything that encoder was fed before, and on the frame. */
  datatype World = World(
    now: int,
    brokenEncoders: set<Compression>,
    opus: (Compression, seq<Bytes>, Bytes) -> OpusAnswer,
    resample: Bytes -> Option<Bytes>)

  /** Up to two bytes means there is nothing to transmit; a negative or oversized result is an error. */
  function EncodeOutcome(answer: OpusAnswer): (r: Option<Bytes>)
    ensures r.Some? ==> |r.value| == 0 || 3 <= |r.value| <= MAX_PACKET_SIZE
  {
    if 0 <= answer.result <= 2 then Some([])
    else if answer.result < 0 || answer.result > MAX_PACKET_SIZE then None
    else Some(answer.buffer[..answer.result])
  }

  lemma OutcomeIs(answer: OpusAnswer, r: Option<Bytes>)
    requires r == None <==> answer.result < 0 || answer.result > MAX_PACKET_SIZE
    requires r == Some([]) <==> 0 <= answer.result <= 2
    requires 3 <= answer.result <= MAX_PACKET_SIZE ==> r.Some? && |r.value| == answer.result && r.value <= answer.buffer
    ensures r == EncodeOutcome(answer)
  {
    if 3 <= answer.result <= MAX_PACKET_SIZE {
      assert r.value == answer.buffer[..answer.result];
    }
  }

  // ---- The capture pipe ----------------------------------------------------------------------

  /** `history` has a key for each compression with an encoder; its value is what that encoder has been fed. */
  datatype PipeState = PipeState(muted: bool, resamples: bool, buffer: Bytes, history: map<Compression, seq<Bytes>>)

  function FreshPipe(resamples: bool, wanted: set<Compression>): PipeState {
    PipeState(false, resamples, [], map c | c in wanted :: [])
  }

  /** Surviving encoders go on where they were, new ones start empty, unwanted ones are dropped. */
  function Reconciled(history: map<Compression, seq<Bytes>>, wanted: set<Compression>): map<Compression, seq<Bytes>> {
    map c | c in wanted :: if c in history then history[c] else []
  }

  /** Reconciling would have to create an encoder that the library refuses. */
  predicate Breaks(keys: set<Compression>, wanted: set<Compression>, w: World) {
    exists c :: c in wanted && c !in keys && c != Uncompressed && c in w.brokenEncoders
  }

  function Encoded(history: map<Compression, seq<Bytes>>, frame: Bytes, w: World, c: Compression): Option<Bytes>
    requires c in history
  {
    EncodeOutcome(w.opus(c, history[c], frame))
  }

  /** Some encoder in use fails on this frame. */
  predicate FrameFails(history: map<Compression, seq<Bytes>>, frame: Bytes, w: World) {
    exists c :: c in history && c != Uncompressed && Encoded(history, frame, w, c) == None
  }

  /** What comes out of the encoder stage for compression `c`: the frame itself or an encoder's payload. */
  function Payload(history: map<Compression, seq<Bytes>>, frame: Bytes, w: World, c: Compression): Option<Bytes>
    requires c in history
  {
    if c == Uncompressed then Some(frame) else Encoded(history, frame, w, c)
  }

  function AudioCategory(c: Compression): byte {
    if c == Uncompressed then AUDIO_UNCOMPRESSED else AUDIO_OPUS
  }

  /** An encoder with nothing to send yields an empty payload, which is not transmitted. */
  function PacketsOf(payload: Option<Bytes>, number: UInt32, c: Compression): (packets: seq<Bytes>)
    ensures |packets| <= 1
  {
    if payload.None? || (c != Uncompressed && payload.value == []) then []
    else [AudioPacket(AudioCategory(c), number, payload.value)]
  }

  /** What a client with compression `c` is sent for a frame. */
  function FramePackets(history: map<Compression, seq<Bytes>>, frame: Bytes, number: UInt32, w: World, c: Compression)
    : (packets: seq<Bytes>)
    ensures |packets| <= 1
  {
    if c !in history then [] else PacketsOf(Payload(history, frame, w, c), number, c)
  }

  function Fed(history: map<Compression, seq<Bytes>>, frame: Bytes): map<Compression, seq<Bytes>> {
    map c | c in history :: if c == Uncompressed then history[c] else history[c] + [frame]
  }

  /** The same for the encoders in `done` only. */
  function FedTo(history: map<Compression, seq<Bytes>>, frame: Bytes, done: set<Compression>)
    : map<Compression, seq<Bytes>>
  {
    map c | c in history :: if c in done && c != Uncompressed then history[c] + [frame] else history[c]
  }

  function PacketsFor(formats: map<Address, Compression>, served: set<Compression>, history: map<Compression, seq<Bytes>>,
                      frame: Bytes, number: UInt32, w: World, a: Address): seq<Bytes> {
    if a in formats && formats[a] in served then FramePackets(history, frame, number, w, formats[a]) else []
  }

  function Next(number: UInt32): UInt32 {
    (number + 1) % TWO_TO_THE_32
  }

  /** Cutting frames off the buffer until it is too short or a frame fails. */
  datatype Drained = Drained(pipe: PipeState, next: UInt32, failed: bool)

  function Drain(p: PipeState, next: UInt32, w: World): Drained
    decreases |p.buffer|
  {
    if |p.buffer| < FRAME_SIZE then Drained(p, next, false)
    else
      var frame := p.buffer[..FRAME_SIZE];
      if FrameFails(p.history, frame, w) then Drained(p, next, true)
      else Drain(p.(buffer := p.buffer[FRAME_SIZE..], history := Fed(p.history, frame)), Next(next), w)
  }

  /** The packets these frames bring a client with compression `c`. An error on a frame ends the run through the
      encoders, so of the failed frame only the compressions in `served` got their packet. */
  function DrainPackets(p: PipeState, next: UInt32, w: World, served: set<Compression>, c: Compression): seq<Bytes>
    decreases |p.buffer|
  {
    if |p.buffer| < FRAME_SIZE then []
    else
      var frame := p.buffer[..FRAME_SIZE];
      if FrameFails(p.history, frame, w) then
        if c in served then FramePackets(p.history, frame, next, w, c) else []
      else FramePackets(p.history, frame, next, w, c)
           + DrainPackets(p.(buffer := p.buffer[FRAME_SIZE..], history := Fed(p.history, frame)), Next(next), w, served, c)
  }

  function DrainFor(formats: map<Address, Compression>, p: PipeState, next: UInt32, w: World,
                    served: set<Compression>, a: Address): seq<Bytes> {
    if a in formats then DrainPackets(p, next, w, served, formats[a]) else []
  }

  lemma FedToMore(history: map<Compression, seq<Bytes>>, frame: Bytes, done: set<Compression>, c: Compression)
    requires c !in done
    ensures FedTo(FedTo(history, frame, done), frame, {c}) == FedTo(history, frame, done + {c})
  {
  }

  lemma FedToAll(history: map<Compression, seq<Bytes>>, frame: Bytes, done: set<Compression>)
    requires done == history.Keys
    ensures FedTo(history, frame, done) == Fed(history, frame)
  {
  }

  lemma ReconciledInTwoSteps(history: map<Compression, seq<Bytes>>, wanted: set<Compression>)
    ensures var kept := map c | c in history && c in wanted :: history[c];
            Reconciled(kept, wanted) == Reconciled(history, wanted)
    ensures history.Keys == wanted ==> Reconciled(history, wanted) == history
  {
  }

  lemma ReconciledMore(history: map<Compression, seq<Bytes>>, wanted: set<Compression>, c: Compression)
    requires c !in history
    ensures Reconciled(history, wanted)[c := []] == Reconciled(history, wanted + {c})
  {
  }

  /** From `out` to `now` every client was sent the frame's packets if its compression is in `served`, else nothing. */
  ghost predicate Served(out: seq<Send>, now: seq<Send>, formats: map<Address, Compression>, served: set<Compression>,
                         history: map<Compression, seq<Bytes>>, frame: Bytes, number: UInt32, w: World) {
    forall a :: StreamTo(now, a) == StreamTo(out, a) + PacketsFor(formats, served, history, frame, number, w, a)
  }

  /** From `sent` to `now` the clients with compression `c` were sent `packets`, everybody else nothing. */
  ghost predicate SentTo(sent: seq<Send>, now: seq<Send>, formats: map<Address, Compression>, c: Compression,
                         packets: seq<Bytes>) {
    forall a :: StreamTo(now, a) == StreamTo(sent, a) + (if a in formats && formats[a] == c then packets else [])
  }

  lemma ServedMore(out: seq<Send>, sent: seq<Send>, now: seq<Send>, formats: map<Address, Compression>,
                   served: set<Compression>, history: map<Compression, seq<Bytes>>, frame: Bytes, number: UInt32,
                   w: World, c: Compression)
    requires c !in served && c in history
    requires Served(out, sent, formats, served, history, frame, number, w)
    requires SentTo(sent, now, formats, c, PacketsOf(Payload(history, frame, w, c), number, c))
    ensures Served(out, now, formats, served + {c}, history, frame, number, w)
  {
    var packets := PacketsOf(Payload(history, frame, w, c), number, c);
    forall a ensures StreamTo(now, a) == StreamTo(out, a) + PacketsFor(formats, served + {c}, history, frame, number, w, a) {
      Regroup(StreamTo(out, a), PacketsFor(formats, served, history, frame, number, w, a),
              if a in formats && formats[a] == c then packets else []);
    }
  }

  lemma DrainForStep(formats: map<Address, Compression>, p: PipeState, next: UInt32, w: World,
                     served: set<Compression>, a: Address)
    requires FRAME_SIZE <= |p.buffer|
    ensures var frame := p.buffer[..FRAME_SIZE];
            if FrameFails(p.history, frame, w) then
              && Drain(p, next, w) == Drained(p, next, true)
              && DrainFor(formats, p, next, w, served, a) == PacketsFor(formats, served, p.history, frame, next, w, a)
            else
              var q := p.(buffer := p.buffer[FRAME_SIZE..], history := Fed(p.history, frame));
              && Drain(p, next, w) == Drain(q, Next(next), w)
              && DrainFor(formats, p, next, w, served, a)
                 == PacketsFor(formats, formats.Values, p.history, frame, next, w, a)
                    + DrainFor(formats, q, Next(next), w, served, a)
  {
  }

  ghost predicate Drains(out: seq<Send>, now: seq<Send>, formats: map<Address, Compression>, p: PipeState, next: UInt32,
                         w: World, served: set<Compression>) {
    forall a :: StreamTo(now, a) == StreamTo(out, a) + DrainFor(formats, p, next, w, served, a)
  }

  /** Draining `q` from `now` on comes to what draining `p` from `out` on comes to. */
  ghost predicate Continues(out: seq<Send>, p: PipeState, number: UInt32, now: seq<Send>, q: PipeState, next: UInt32,
                            formats: map<Address, Compression>, w: World) {
    && Drain(q, next, w) == Drain(p, number, w)
    && forall served, a :: StreamTo(now, a) + DrainFor(formats, q, next, w, served, a)
                        == StreamTo(out, a) + DrainFor(formats, p, number, w, served, a)
  }

  lemma DrainStops(out: seq<Send>, now: seq<Send>, formats: map<Address, Compression>, p: PipeState, number: UInt32,
                   w: World, served: set<Compression>)
    requires FRAME_SIZE <= |p.buffer| && FrameFails(p.history, p.buffer[..FRAME_SIZE], w)
    requires Served(out, now, formats, served, p.history, p.buffer[..FRAME_SIZE], number, w)
    ensures Drain(p, number, w) == Drained(p, number, true) && Drains(out, now, formats, p, number, w, served)
  {
    forall a ensures StreamTo(now, a) == StreamTo(out, a) + DrainFor(formats, p, number, w, served, a) {
      DrainForStep(formats, p, number, w, served, a);
    }
  }

  lemma DrainGoesOn(out: seq<Send>, now: seq<Send>, formats: map<Address, Compression>, p: PipeState, number: UInt32,
                    w: World)
    requires FRAME_SIZE <= |p.buffer| && !FrameFails(p.history, p.buffer[..FRAME_SIZE], w)
    requires Served(out, now, formats, formats.Values, p.history, p.buffer[..FRAME_SIZE], number, w)
    ensures var q := p.(buffer := p.buffer[FRAME_SIZE..], history := Fed(p.history, p.buffer[..FRAME_SIZE]));
            Continues(out, p, number, now, q, Next(number), formats, w)
  {
    var frame := p.buffer[..FRAME_SIZE];
    var q := p.(buffer := p.buffer[FRAME_SIZE..], history := Fed(p.history, frame));
    forall served, a
      ensures StreamTo(now, a) + DrainFor(formats, q, Next(number), w, served, a)
           == StreamTo(out, a) + DrainFor(formats, p, number, w, served, a)
    {
      DrainForStep(formats, p, number, w, served, a);
      Regroup(StreamTo(out, a), PacketsFor(formats, formats.Values, p.history, frame, number, w, a),
              DrainFor(formats, q, Next(number), w, served, a));
    }
  }

  // ---- Datagrams -----------------------------------------------------------------------------

  /** A well-formed request for a compression: its request id and the compression. */
  datatype Request = Request(id: UInt16, compression: Compression)

  function ConnectRequest(datagram: Bytes): Option<Request> {
    match GetConnectData(datagram)
    case None => None
    case Some(data) =>
      match CompressionFromNetworkValue(data.compression)
      case None => None
      case Some(c) => Some(Request(data.requestId, c))
  }

  function SetFormatRequest(datagram: Bytes): Option<Request> {
    match GetSetFormatData(datagram)
    case None => None
    case Some(data) =>
      match CompressionFromNetworkValue(data.compression)
      case None => None
      case Some(c) => Some(Request(data.requestId, c))
  }

  function AfterConnect(reg: ClientMap, from: Address, request: Option<Request>, now: int): ClientMap {
    if request.Some? then Added(reg, from, request.value.compression, now) else reg
  }

  function AfterSetFormat(reg: ClientMap, from: Address, request: Option<Request>): ClientMap {
    if request.Some? then Recompressed(reg, from, request.value.compression) else reg
  }

  function AfterDatagram(reg: ClientMap, from: Address, datagram: Bytes, now: int): ClientMap {
    var category := GetPacketCategory(datagram);
    if category == CONNECT then AfterConnect(reg, from, ConnectRequest(datagram), now)
    else if category == DISCONNECT then Removed(reg, from)
    else if category == SET_FORMAT then AfterSetFormat(reg, from, SetFormatRequest(datagram))
    else if category == CLIENT_KEEP_ALIVE then Kept(reg, from, now)
    else reg
  }

  function ConnectAnswer(request: Option<Request>): seq<Bytes> {
    if request.Some? then [AckConnectPacket(request.value.id)] else []
  }

  function SetFormatAnswer(request: Option<Request>): seq<Bytes> {
    if request.Some? then [AckSetFormatPacket(request.value.id)] else []
  }

  function Answer(datagram: Bytes): seq<Bytes> {
    var category := GetPacketCategory(datagram);
    if category == CONNECT then ConnectAnswer(ConnectRequest(datagram))
    else if category == SET_FORMAT then SetFormatAnswer(SetFormatRequest(datagram))
    else []
  }

  function Replies(to: Address, packets: seq<Bytes>): seq<Send> {
    seq(|packets|, i requires 0 <= i < |packets| => Send(to, packets[i]))
  }

  lemma RepliesStream(out: seq<Send>, to: Address, packets: seq<Bytes>, a: Address)
    requires |packets| <= 1
    ensures StreamTo(out + Replies(to, packets), a) == StreamTo(out, a) + (if a == to then packets else [])
  {
    if packets == [] {
      assert out + Replies(to, packets) == out;
    } else {
      assert Replies(to, packets) == [Send(to, packets[0])];
      StreamOne(out, Send(to, packets[0]), a);
    }
  }

  function KeystrokesOf(keystroke: Option<KeyPress>): seq<KeyPress> {
    if keystroke.Some? then [keystroke.value] else []
  }

  function Typed(datagram: Bytes): seq<KeyPress> {
    if GetPacketCategory(datagram) == KEYSTROKE then KeystrokesOf(GetKeystroke(datagram)) else []
  }

  // ---- The machine ---------------------------------------------------------------------------

  datatype Event =
    | Receive(from: Address, datagram: Bytes)
    | Tick
    | SelectDevice(id: string, resamples: bool, constructs: bool, starts: bool)
    | Capture(pcm: Bytes)
    | CaptureFailure
    | SetMuted(muted: bool)
    | Shutdown

  datatype State =
    | Stopped
    | Running(registry: ClientMap, device: string, pipe: Option<PipeState>, next: UInt32, typed: seq<KeyPress>)

  const INITIAL := Running(map[], "", None, 1, [])

  function Listening(pipe: Option<PipeState>, reg: ClientMap): Option<PipeState> {
    match pipe
    case None => None
    case Some(p) => Some(p.(history := Reconciled(p.history, InUse(reg))))
  }

  /** The bytes a capture adds to the buffer; None if the resampler fails. */
  function Accepted(p: PipeState, pcm: Bytes, w: World): Option<Bytes> {
    if p.resamples then w.resample(pcm) else Some(pcm)
  }

  predicate TakesAudio(s: State) {
    s.Running? && s.pipe.Some? && !s.pipe.value.muted && s.pipe.value.history.Keys != {}
  }

  /** Appending a capture and cutting frames off; None if the resampler fails. */
  function Captured(s: State, pcm: Bytes, w: World): Option<Drained>
    requires TakesAudio(s)
  {
    var p := s.pipe.value;
    match Accepted(p, pcm, w)
    case None => None
    case Some(bytes) => Some(Drain(p.(buffer := p.buffer + bytes), s.next, w))
  }

  function AfterReceive(s: State, from: Address, datagram: Bytes, w: World): State
    requires s.Running?
  {
    var reg := AfterDatagram(s.registry, from, datagram, w.now);
    if s.pipe.Some? && Breaks(s.pipe.value.history.Keys, InUse(reg), w) then Stopped
    else s.(registry := reg, pipe := Listening(s.pipe, reg), typed := s.typed + Typed(datagram))
  }

  function AfterTick(s: State, w: World, timeout: int): State
    requires s.Running?
  {
    var reg := Maintained(s.registry, w.now, timeout);
    s.(registry := reg, pipe := Listening(s.pipe, reg))
  }

  function AfterSelect(s: State, id: string, resamples: bool, constructs: bool, starts: bool, w: World): State
    requires s.Running?
  {
    if id == s.device then s else Opened(s, id, resamples, constructs, starts, w)
  }

  /** A device is opened after the previous pipe is gone; whatever step fails, no pipe is left. */
  function Opened(s: State, id: string, resamples: bool, constructs: bool, starts: bool, w: World): State
    requires s.Running?
  {
    if !constructs || Breaks({}, InUse(s.registry), w) then s.(device := "", pipe := None)
    else if !starts then s.(device := id, pipe := None)
    else s.(device := id, pipe := Some(FreshPipe(resamples, InUse(s.registry))))
  }

  function AfterCapture(s: State, pcm: Bytes, w: World): State
    requires s.Running?
  {
    if !TakesAudio(s) then s else
    match Captured(s, pcm, w)
    case None => s.(pipe := None)
    case Some(d) => s.(pipe := if d.failed then None else Some(d.pipe), next := d.next)
  }

  function AfterMute(s: State, muted: bool): State
    requires s.Running?
  {
    if s.pipe.None? then s else s.(pipe := Some(s.pipe.value.(muted := muted)))
  }

  function Step(s: State, e: Event, w: World, timeout: int): State {
    if s.Stopped? then s else
    match e
    case Receive(from, datagram) => AfterReceive(s, from, datagram, w)
    case Tick => AfterTick(s, w, timeout)
    case SelectDevice(id, resamples, constructs, starts) => AfterSelect(s, id, resamples, constructs, starts, w)
    case Capture(pcm) => AfterCapture(s, pcm, w)
    case CaptureFailure => s.(pipe := None)
    case SetMuted(muted) => AfterMute(s, muted)
    case Shutdown => Stopped
  }

  function SentOnReceive(s: State, from: Address, datagram: Bytes, w: World, a: Address): seq<Bytes>
    requires s.Running?
  {
    if from == a && AfterReceive(s, from, datagram, w).Running? then Answer(datagram) else []
  }

  function SentToAll(s: State, packet: Bytes, a: Address): seq<Bytes>
    requires s.Running?
  {
    if a in s.registry then [packet] else []
  }

  function SentOnCapture(s: State, pcm: Bytes, w: World, served: set<Compression>, a: Address): seq<Bytes>
    requires s.Running?
  {
    if !TakesAudio(s) || Accepted(s.pipe.value, pcm, w).None? then []
    else
      var p := s.pipe.value;
      DrainFor(Formats(s.registry), p.(buffer := p.buffer + Accepted(p, pcm, w).value), s.next, w, served, a)
  }

  /** The packets the step sends to `a`. `served` matters only if some encoder fails during the step: it is the
      set of compressions that came before the failing one in the hash map's order. */
  function Sent(s: State, e: Event, w: World, served: set<Compression>, a: Address): seq<Bytes> {
    if s.Stopped? then [] else
    match e
    case Receive(from, datagram) => SentOnReceive(s, from, datagram, w, a)
    case Tick => SentToAll(s, BarePacket(SERVER_KEEP_ALIVE), a)
    case Shutdown => SentToAll(s, BarePacket(DISCONNECT), a)
    case Capture(pcm) => SentOnCapture(s, pcm, w, served, a)
    case _ => []
  }

  /** From `out` to `now` every address was sent what the step sends it. */
  ghost predicate Emits(out: seq<Send>, now: seq<Send>, s: State, e: Event, w: World, served: set<Compression>) {
    forall a :: StreamTo(now, a) == StreamTo(out, a) + Sent(s, e, w, served, a)
  }

  lemma EmitsOnCapture(out: seq<Send>, now: seq<Send>, s: State, pcm: Bytes, w: World, served: set<Compression>)
    requires TakesAudio(s)
    requires Accepted(s.pipe.value, pcm, w) == None ==> now == out
    requires Accepted(s.pipe.value, pcm, w) != None ==>
               Drains(out, now, Formats(s.registry),
                      s.pipe.value.(buffer := s.pipe.value.buffer + Accepted(s.pipe.value, pcm, w).value), s.next, w, served)
    ensures Emits(out, now, s, Capture(pcm), w, served)
  {
  }

  lemma EmitsNothing(out: seq<Send>, s: State, e: Event, w: World, served: set<Compression>)
    requires s.Stopped? || e.SelectDevice? || e.CaptureFailure? || e.SetMuted? || (e.Capture? && !TakesAudio(s))
    ensures Emits(out, out, s, e, w, served)
  {
  }

  lemma EmitsToAll(out: seq<Send>, now: seq<Send>, s: State, e: Event, w: World, served: set<Compression>)
    requires s.Running? && (e.Tick? || e.Shutdown?)
    requires forall a :: StreamTo(now, a) == StreamTo(out, a)
               + (if a in Formats(s.registry) then [BarePacket(if e.Tick? then SERVER_KEEP_ALIVE else DISCONNECT)] else [])
    ensures Emits(out, now, s, e, w, served)
  {
  }

  lemma EmitsOnReceive(out: seq<Send>, now: seq<Send>, s: State, from: Address, datagram: Bytes, w: World,
                       served: set<Compression>)
    requires s.Running?
    requires forall a :: StreamTo(now, a) == StreamTo(out, a)
               + (if a == from && AfterReceive(s, from, datagram, w).Running? then Answer(datagram) else [])
    ensures Emits(out, now, s, Receive(from, datagram), w, served)
  {
  }

  /** The machine's own invariant: encoders exist for exactly the compressions in use. */
  predicate Consistent(s: State) {
    s.Running? && s.pipe.Some? ==>
      && s.pipe.value.history.Keys == InUse(s.registry)
      && |s.pipe.value.buffer| < FRAME_SIZE
      && (Uncompressed in s.pipe.value.history ==> s.pipe.value.history[Uncompressed] == [])
  }

  lemma ReconciledFresh(resamples: bool, wanted: set<Compression>)
    ensures Reconciled(map[], wanted) == FreshPipe(resamples, wanted).history
  {
  }

  // ---- Whole runs ----------------------------------------------------------------------------

  datatype Moment = Moment(event: Event, world: World)

  function After(s: State, run: seq<Moment>, timeout: int): State {
    if run == [] then s
    else
      var n := |run| - 1;
      Step(After(s, run[..n], timeout), run[n].event, run[n].world, timeout)
  }

  /** All packets a run sends to `a`, with one `served` set per moment. */
  function SentInRun(s: State, run: seq<Moment>, served: seq<set<Compression>>, timeout: int, a: Address): seq<Bytes>
    requires |served| == |run|
  {
    if run == [] then []
    else
      var n := |run| - 1;
      SentInRun(s, run[..n], served[..n], timeout, a)
      + Sent(After(s, run[..n], timeout), run[n].event, run[n].world, served[n], a)
  }
}
