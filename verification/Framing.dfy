/** What the framing loop computes, in closed form, and why it does not matter how captures are cut. */
module Framing {
  import opened AudioTypes
  import opened Packets
  import opened Machine

  // ---- Cutting bytes into frames -------------------------------------------------------------

  function Frames(b: Bytes): (fs: seq<Bytes>)
    decreases |b|
  {
    if |b| < FRAME_SIZE then [] else [b[..FRAME_SIZE]] + Frames(b[FRAME_SIZE..])
  }

  function Leftover(b: Bytes): Bytes
    decreases |b|
  {
    if |b| < FRAME_SIZE then b else Leftover(b[FRAME_SIZE..])
  }

  function Join(parts: seq<Bytes>): Bytes {
    if parts == [] then [] else parts[0] + Join(parts[1..])
  }

  lemma JoinCons(part: Bytes, parts: seq<Bytes>)
    ensures Join([part] + parts) == part + Join(parts)
  {
  }

  ghost predicate AllWhole(fs: seq<Bytes>) {
    forall i :: 0 <= i < |fs| ==> |fs[i]| == FRAME_SIZE
  }

  /** Nothing is lost, added or reordered, frames are whole and the rest is shorter than a frame. */
  lemma {:induction false} FramesConserve(b: Bytes)
    ensures Join(Frames(b)) + Leftover(b) == b
    ensures AllWhole(Frames(b)) && |Leftover(b)| < FRAME_SIZE
    decreases |b|
  {
    if |b| < FRAME_SIZE {
      assert Join(Frames(b)) == [];
    } else {
      var frame, rest := b[..FRAME_SIZE], b[FRAME_SIZE..];
      FramesConserve(rest);
      JoinCons(frame, Frames(rest));
      Regroup(frame, Join(Frames(rest)), Leftover(rest));
      assert b == frame + rest;
    }
  }

  /** There is only one way to do that. */
  lemma {:induction false} FramesUnique(b: Bytes, fs: seq<Bytes>, rest: Bytes)
    requires Join(fs) + rest == b && AllWhole(fs) && |rest| < FRAME_SIZE
    ensures fs == Frames(b) && rest == Leftover(b)
    decreases |fs|
  {
    if fs != [] {
      Regroup(fs[0], Join(fs[1..]), rest);
      assert b == fs[0] + (Join(fs[1..]) + rest);
      assert b[..FRAME_SIZE] == fs[0] && b[FRAME_SIZE..] == Join(fs[1..]) + rest;
      FramesUnique(b[FRAME_SIZE..], fs[1..], rest);
    }
  }

  lemma {:induction false} JoinConcat(x: seq<Bytes>, y: seq<Bytes>)
    ensures Join(x + y) == Join(x) + Join(y)
  {
    if x == [] {
      assert x + y == y;
    } else {
      assert (x + y)[1..] == x[1..] + y;
      JoinConcat(x[1..], y);
      Regroup(x[0], Join(x[1..]), Join(y));
    }
  }

  // ---- Numbering -----------------------------------------------------------------------------

  function NumberAt(next: UInt32, k: nat): UInt32 {
    (next + k) % TWO_TO_THE_32
  }

  lemma NumberAtSum(next: UInt32, j: nat, k: nat)
    ensures NumberAt(NumberAt(next, j), k) == NumberAt(next, j + k)
  {
  }

  datatype NumberedFrame = NumberedFrame(number: UInt32, pcm: Bytes)

  function Numbered(fs: seq<Bytes>, next: UInt32): seq<NumberedFrame> {
    seq(|fs|, k requires 0 <= k < |fs| => NumberedFrame(NumberAt(next, k), fs[k]))
  }

  lemma NumberedCons(f: Bytes, fs: seq<Bytes>, next: UInt32)
    ensures Numbered([f] + fs, next) == [NumberedFrame(next, f)] + Numbered(fs, Next(next))
  {
    forall k | 0 <= k < |fs| ensures NumberAt(Next(next), k) == NumberAt(next, k + 1) {
      NumberAtSum(next, 1, k);
    }
  }

  function PcmList(fs: seq<NumberedFrame>): seq<Bytes> {
    seq(|fs|, k requires 0 <= k < |fs| => fs[k].pcm)
  }

  function PcmOf(fs: seq<NumberedFrame>): Bytes {
    Join(PcmList(fs))
  }

  lemma PcmListConcat(x: seq<NumberedFrame>, y: seq<NumberedFrame>)
    ensures PcmList(x + y) == PcmList(x) + PcmList(y)
  {
  }

  lemma PcmOfConcat(x: seq<NumberedFrame>, y: seq<NumberedFrame>)
    ensures PcmOf(x + y) == PcmOf(x) + PcmOf(y)
  {
    PcmListConcat(x, y);
    JoinConcat(PcmList(x), PcmList(y));
  }

  // ---- The loop in closed form ---------------------------------------------------------------

  /** The frames a drain completes, with their numbers. */
  function Completed(p: PipeState, next: UInt32, w: World): seq<NumberedFrame>
    decreases |p.buffer|
  {
    if |p.buffer| < FRAME_SIZE then []
    else
      var frame := p.buffer[..FRAME_SIZE];
      if FrameFails(p.history, frame, w) then []
      else [NumberedFrame(next, frame)]
           + Completed(p.(buffer := p.buffer[FRAME_SIZE..], history := Fed(p.history, frame)), Next(next), w)
  }

  function FedAll(history: map<Compression, seq<Bytes>>, fs: seq<Bytes>): map<Compression, seq<Bytes>> {
    map c | c in history :: if c == Uncompressed then history[c] else history[c] + fs
  }

  lemma FedAllCons(history: map<Compression, seq<Bytes>>, f: Bytes, fs: seq<Bytes>)
    ensures FedAll(Fed(history, f), fs) == FedAll(history, [f] + fs)
  {
    forall c | c in history && c != Uncompressed
      ensures FedAll(Fed(history, f), fs)[c] == FedAll(history, [f] + fs)[c]
    {
      Regroup(history[c], [f], fs);
    }
  }

  /** Failing or not, the loop completes whole frames from the front of the buffer under consecutive numbers, keeps
      the rest, feeds every encoder the completed frames in order and advances the number once for each. It stops
      because less than a frame is left or because some encoder fails on the next frame. */
  lemma {:induction false} DrainClosedForm(p: PipeState, next: UInt32, w: World)
    ensures var d, fs := Drain(p, next, w), Completed(p, next, w);
            && fs == Numbered(PcmList(fs), next) && AllWhole(PcmList(fs))
            && d.next == NumberAt(next, |fs|)
            && d.pipe == p.(buffer := d.pipe.buffer, history := FedAll(p.history, PcmList(fs)))
            && p.buffer == PcmOf(fs) + d.pipe.buffer
            && (d.failed <==> FRAME_SIZE <= |d.pipe.buffer|)
            && (d.failed ==> FrameFails(d.pipe.history, d.pipe.buffer[..FRAME_SIZE], w))
    decreases |p.buffer|
  {
    if |p.buffer| < FRAME_SIZE || FrameFails(p.history, p.buffer[..FRAME_SIZE], w) {
      assert forall c :: c in p.history ==> p.history[c] + [] == p.history[c];
      assert FedAll(p.history, []) == p.history && PcmOf([]) + p.buffer == p.buffer;
    } else {
      var frame, rest := p.buffer[..FRAME_SIZE], p.buffer[FRAME_SIZE..];
      var q := p.(buffer := rest, history := Fed(p.history, frame));
      DrainClosedForm(q, Next(next), w);
      CompletedCons(p, next, w);
      var d, fs := Drain(q, Next(next), w), Completed(q, Next(next), w);
      NumberAtSum(next, 1, |fs|);
      NumberedCons(frame, PcmList(fs), next);
      FedAllCons(p.history, frame, PcmList(fs));
      JoinCons(frame, PcmList(fs));
      Regroup(frame, PcmOf(fs), d.pipe.buffer);
      assert p.buffer == frame + rest;
    }
  }

  lemma CompletedCons(p: PipeState, next: UInt32, w: World)
    requires FRAME_SIZE <= |p.buffer| && !FrameFails(p.history, p.buffer[..FRAME_SIZE], w)
    ensures var frame := p.buffer[..FRAME_SIZE];
            var fs := Completed(p.(buffer := p.buffer[FRAME_SIZE..], history := Fed(p.history, frame)), Next(next), w);
            && Completed(p, next, w) == [NumberedFrame(next, frame)] + fs
            && PcmList(Completed(p, next, w)) == [frame] + PcmList(fs)
  {
    var frame := p.buffer[..FRAME_SIZE];
    var fs := Completed(p.(buffer := p.buffer[FRAME_SIZE..], history := Fed(p.history, frame)), Next(next), w);
    assert Completed(p, next, w) == [NumberedFrame(next, frame)] + fs;
    PcmListConcat([NumberedFrame(next, frame)], fs);
    assert PcmList([NumberedFrame(next, frame)]) == [frame];
  }

  /** Without a failure these are all the frames there are. */
  lemma DrainCompletesAll(p: PipeState, next: UInt32, w: World)
    requires !Drain(p, next, w).failed
    ensures Completed(p, next, w) == Numbered(Frames(p.buffer), next)
    ensures Drain(p, next, w).pipe.buffer == Leftover(p.buffer)
  {
    DrainClosedForm(p, next, w);
    FramesUnique(p.buffer, PcmList(Completed(p, next, w)), Drain(p, next, w).pipe.buffer);
  }

  // ---- What a client is sent -----------------------------------------------------------------

  /** What a client with compression `c` is owed for a frame when its encoder has heard `heard` before: the frame
      itself, or its encoding unless the encoder has nothing to send, under the frame's number. */
  function FrameOwed(heard: seq<Bytes>, f: NumberedFrame, w: World, c: Compression): (packets: seq<Bytes>)
    ensures |packets| <= 1
  {
    PacketsOf(if c == Uncompressed then Some(f.pcm) else EncodeOutcome(w.opus(c, heard, f.pcm)), f.number, c)
  }

  /** The same for frames in a row, each of which the encoder hears in turn. */
  function Owed(heard: seq<Bytes>, fs: seq<NumberedFrame>, w: World, c: Compression): seq<Bytes>
    decreases |fs|
  {
    if fs == [] then [] else FrameOwed(heard, fs[0], w, c) + Owed(heard + [fs[0].pcm], fs[1..], w, c)
  }

  /** What a failing drain has sent the client of the frame it failed on. */
  function Stray(p: PipeState, next: UInt32, w: World, served: set<Compression>, c: Compression): (packets: seq<Bytes>)
    ensures |packets| <= 1
  {
    DrainClosedForm(p, next, w);
    var d := Drain(p, next, w);
    if d.failed && c in served then FramePackets(d.pipe.history, d.pipe.buffer[..FRAME_SIZE], d.next, w, c) else []
  }

  /** One pass of the loop, as seen by a client with compression `c`. */
  lemma DrainUnfold(p: PipeState, next: UInt32, w: World, served: set<Compression>, c: Compression)
    requires FRAME_SIZE <= |p.buffer| && !FrameFails(p.history, p.buffer[..FRAME_SIZE], w)
    ensures var frame := p.buffer[..FRAME_SIZE];
            var q := p.(buffer := p.buffer[FRAME_SIZE..], history := Fed(p.history, frame));
            && Drain(p, next, w) == Drain(q, Next(next), w)
            && Stray(p, next, w, served, c) == Stray(q, Next(next), w, served, c)
            && DrainPackets(p, next, w, served, c)
               == FramePackets(p.history, frame, next, w, c) + DrainPackets(q, Next(next), w, served, c)
  {
  }

  /** Failing or not, a client is sent what it is owed for the completed frames and the stray packet, nothing else. */
  lemma {:induction false} DrainDelivers(p: PipeState, next: UInt32, w: World, served: set<Compression>, c: Compression)
    requires c in p.history
    ensures DrainPackets(p, next, w, served, c)
         == Owed(p.history[c], Completed(p, next, w), w, c) + Stray(p, next, w, served, c)
    decreases |p.buffer|
  {
    if FRAME_SIZE <= |p.buffer| && !FrameFails(p.history, p.buffer[..FRAME_SIZE], w) {
      var frame, heard := p.buffer[..FRAME_SIZE], p.history[c];
      var q := p.(buffer := p.buffer[FRAME_SIZE..], history := Fed(p.history, frame));
      var fs := Completed(q, Next(next), w);
      DrainUnfold(p, next, w, served, c);
      DrainDelivers(q, Next(next), w, served, c);
      CompletedCons(p, next, w);
      assert Completed(p, next, w)[1..] == fs;
      if c == Uncompressed {
        OwedUncompressed(heard, fs, w);
        OwedUncompressed(heard + [frame], fs, w);
      }
      Regroup(FrameOwed(heard, NumberedFrame(next, frame), w, c), Owed(heard + [frame], fs, w, c),
              Stray(p, next, w, served, c));
    }
  }

  function UncompressedPacket(f: NumberedFrame): Bytes {
    AudioPacket(AUDIO_UNCOMPRESSED, f.number, f.pcm)
  }

  function UncompressedPackets(fs: seq<NumberedFrame>): (packets: seq<Bytes>)
    ensures |packets| == |fs| && forall k :: 0 <= k < |fs| ==> packets[k] == UncompressedPacket(fs[k])
  {
    seq(|fs|, k requires 0 <= k < |fs| => UncompressedPacket(fs[k]))
  }

  lemma UncompressedConcat(x: seq<NumberedFrame>, y: seq<NumberedFrame>)
    ensures UncompressedPackets(x + y) == UncompressedPackets(x) + UncompressedPackets(y)
  {
  }

  /** An uncompressed client is owed the frames themselves. */
  lemma {:induction false} OwedUncompressed(heard: seq<Bytes>, fs: seq<NumberedFrame>, w: World)
    ensures Owed(heard, fs, w, Uncompressed) == UncompressedPackets(fs)
    decreases |fs|
  {
    if fs != [] {
      OwedUncompressed(heard + [fs[0].pcm], fs[1..], w);
      UncompressedConcat([fs[0]], fs[1..]);
      assert [fs[0]] + fs[1..] == fs;
      assert UncompressedPackets([fs[0]]) == [UncompressedPacket(fs[0])];
    }
  }

  // ---- Well-formed audio packets -------------------------------------------------------------

  /** An audio packet of the right kind whose size field is its true length. */
  ghost predicate WellFormed(packet: Bytes, c: Compression) {
    IsAudio(packet) && GetPacketCategory(packet) == AudioCategory(c) && ReadUInt16B(packet, SIZE_OFFSET) == |packet|
  }

  /** A frame's packet, if there is one, is well formed and carries the frame's number and its encoding. */
  lemma FramePacketsWellFormed(history: map<Compression, seq<Bytes>>, frame: Bytes, number: UInt32, w: World, c: Compression)
    requires |frame| == FRAME_SIZE
    ensures var packets := FramePackets(history, frame, number, w, c);
            packets != [] ==>
              && WellFormed(packets[0], c) && AudioNumber(packets[0]) == number
              && c in history && Payload(history, frame, w, c) == Some(AudioPayload(packets[0]))
  {
    if FramePackets(history, frame, number, w, c) != [] {
      var payload := Payload(history, frame, w, c).value;
      assert |payload| < 0x1_0000 - AUDIO_DATA_OFFSET;
      assert FramePackets(history, frame, number, w, c) == [AudioPacket(AudioCategory(c), number, payload)];
      AudioPacketRoundTrip(AudioCategory(c), number, payload);
    }
  }

  ghost predicate InWindow(number: UInt32, next: UInt32, count: nat) {
    exists k :: 0 <= k < count && number == NumberAt(next, k)
  }

  lemma WindowMoves(number: UInt32, next: UInt32, count: nat)
    requires InWindow(number, Next(next), count)
    ensures InWindow(number, next, count + 1)
  {
    var k :| 0 <= k < count && number == NumberAt(Next(next), k);
    NumberAtSum(next, 1, k);
  }

  /** Whatever happens during a capture, every packet it sends is well formed, of the client's kind, and carries the
      number of one of the frames that were begun. */
  lemma {:induction false} DrainPacketsWellFormed(p: PipeState, next: UInt32, w: World, served: set<Compression>,
                                                  c: Compression)
    ensures forall packet :: packet in DrainPackets(p, next, w, served, c) ==>
              WellFormed(packet, c) && InWindow(AudioNumber(packet), next, |Frames(p.buffer)|)
    decreases |p.buffer|
  {
    if FRAME_SIZE <= |p.buffer| {
      var frame, rest := p.buffer[..FRAME_SIZE], p.buffer[FRAME_SIZE..];
      FramePacketsWellFormed(p.history, frame, next, w, c);
      assert NumberAt(next, 0) == next;
      if !FrameFails(p.history, frame, w) {
        var q := p.(buffer := rest, history := Fed(p.history, frame));
        DrainUnfold(p, next, w, served, c);
        DrainPacketsWellFormed(q, Next(next), w, served, c);
        forall packet | packet in DrainPackets(q, Next(next), w, served, c)
          ensures InWindow(AudioNumber(packet), next, |Frames(p.buffer)|)
        {
          WindowMoves(AudioNumber(packet), next, |Frames(rest)|);
        }
      }
    }
  }
}
