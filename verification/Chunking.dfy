/** Why it does not matter how the captured bytes are cut into captures. */
module Chunking {
  import opened AudioTypes
  import opened Packets
  import opened Machine
  import opened Framing
  import opened Runs

  // ---- One drain or two ----------------------------------------------------------------------

  /** Draining `x + y` is draining `x` and then, unless that failed, draining what it left followed by `y`. */
  lemma {:induction false} DrainSplit(p: PipeState, next: UInt32, w: World, x: Bytes, y: Bytes)
    ensures var whole, first := Drain(p.(buffer := x + y), next, w), Drain(p.(buffer := x), next, w);
            if first.failed then whole.failed && whole.next == first.next
            else whole == Drain(first.pipe.(buffer := first.pipe.buffer + y), first.next, w)
    decreases |x|
  {
    if FRAME_SIZE <= |x| {
      var frame := x[..FRAME_SIZE];
      assert (x + y)[..FRAME_SIZE] == frame && (x + y)[FRAME_SIZE..] == x[FRAME_SIZE..] + y;
      DrainSplit(p.(history := Fed(p.history, frame)), Next(next), w, x[FRAME_SIZE..], y);
    }
  }

  lemma {:induction false} DrainPacketsSplit(p: PipeState, next: UInt32, w: World, served: set<Compression>,
                                             x: Bytes, y: Bytes, c: Compression)
    ensures var first := Drain(p.(buffer := x), next, w);
            DrainPackets(p.(buffer := x + y), next, w, served, c)
            == DrainPackets(p.(buffer := x), next, w, served, c)
               + (if first.failed then []
                  else DrainPackets(first.pipe.(buffer := first.pipe.buffer + y), first.next, w, served, c))
    decreases |x|
  {
    if FRAME_SIZE <= |x| {
      var frame := x[..FRAME_SIZE];
      assert (x + y)[..FRAME_SIZE] == frame && (x + y)[FRAME_SIZE..] == x[FRAME_SIZE..] + y;
      if !FrameFails(p.history, frame, w) {
        var q := p.(history := Fed(p.history, frame));
        DrainUnfold(p.(buffer := x), next, w, served, c);
        DrainUnfold(p.(buffer := x + y), next, w, served, c);
        DrainPacketsSplit(q, Next(next), w, served, x[FRAME_SIZE..], y, c);
        var first := Drain(q.(buffer := x[FRAME_SIZE..]), Next(next), w);
        Regroup(FramePackets(p.history, frame, next, w, c),
                DrainPackets(q.(buffer := x[FRAME_SIZE..]), Next(next), w, served, c),
                if first.failed then []
                else DrainPackets(first.pipe.(buffer := first.pipe.buffer + y), first.next, w, served, c));
      }
    }
  }

  /** Of the world only the Opus library matters to a drain. */
  lemma {:induction false} DrainNeedsOpus(p: PipeState, next: UInt32, w: World, v: World, served: set<Compression>,
                                          c: Compression)
    requires w.opus == v.opus
    ensures Drain(p, next, w) == Drain(p, next, v)
    ensures DrainPackets(p, next, w, served, c) == DrainPackets(p, next, v, served, c)
    decreases |p.buffer|
  {
    if FRAME_SIZE <= |p.buffer| {
      var frame := p.buffer[..FRAME_SIZE];
      assert forall d :: d in p.history ==> Encoded(p.history, frame, w, d) == Encoded(p.history, frame, v, d);
      assert FrameFails(p.history, frame, w) == FrameFails(p.history, frame, v);
      DrainNeedsOpus(p.(buffer := p.buffer[FRAME_SIZE..], history := Fed(p.history, frame)), Next(next), w, v, served, c);
    }
  }

  // ---- Runs of captures ----------------------------------------------------------------------

  function Resamples(s: State): bool {
    s.Running? && s.pipe.Some? && s.pipe.value.resamples
  }

  /** The bytes a capture has for the buffer: resampled if the pipe resamples. */
  function Offered(resamples: bool, m: Moment): Option<Bytes> {
    if !m.event.Capture? then None else if resamples then m.world.resample(m.event.pcm) else Some(m.event.pcm)
  }

  /** Captures only, all accepted by the resampler, with one and the same Opus library and order of encoders. */
  ghost predicate Captures(run: seq<Moment>, served: seq<set<Compression>>, resamples: bool, w: World,
                           done: set<Compression>) {
    && |served| == |run|
    && forall i :: 0 <= i < |run| ==>
         run[i].world.opus == w.opus && served[i] == done && Offered(resamples, run[i]).Some?
  }

  function OfferedInRun(resamples: bool, run: seq<Moment>): Bytes
    requires forall i :: 0 <= i < |run| ==> Offered(resamples, run[i]).Some?
  {
    if run == [] then []
    else OfferedInRun(resamples, run[..|run| - 1]) + Offered(resamples, run[|run| - 1]).value
  }

  /** What becomes of the state when all the bytes come at once. */
  function AtOnce(s: State, bytes: Bytes, w: World): State {
    if !TakesAudio(s) then s
    else
      var d := Drain(s.pipe.value.(buffer := s.pipe.value.buffer + bytes), s.next, w);
      s.(pipe := if d.failed then None else Some(d.pipe), next := d.next)
  }

  function SentAtOnce(s: State, bytes: Bytes, w: World, served: set<Compression>, a: Address): seq<Bytes> {
    if !TakesAudio(s) || a !in s.registry then []
    else DrainPackets(s.pipe.value.(buffer := s.pipe.value.buffer + bytes), s.next, w, served, s.registry[a].compression)
  }

  lemma NothingAtOnce(s: State, w: World, served: set<Compression>, a: Address)
    requires Consistent(s)
    ensures AtOnce(s, [], w) == s && SentAtOnce(s, [], w, served, a) == []
  {
    if TakesAudio(s) {
      assert s.pipe.value.buffer + [] == s.pipe.value.buffer;
    }
  }

  /** All at once, or a part first and the rest afterwards. */
  lemma OnceOrTwice(s: State, x: Bytes, y: Bytes, w: World, served: set<Compression>, a: Address)
    requires Consistent(s)
    ensures AtOnce(s, x + y, w) == AtOnce(AtOnce(s, x, w), y, w)
    ensures SentAtOnce(s, x + y, w, served, a)
         == SentAtOnce(s, x, w, served, a) + SentAtOnce(AtOnce(s, x, w), y, w, served, a)
  {
    if TakesAudio(s) {
      var p := s.pipe.value;
      Regroup(p.buffer, x, y);
      DrainSplit(p, s.next, w, p.buffer + x, y);
      DrainClosedForm(p.(buffer := p.buffer + x), s.next, w);
      if a in s.registry {
        DrainPacketsSplit(p, s.next, w, served, p.buffer + x, y, s.registry[a].compression);
      }
    }
  }

  lemma CaptureAtOnce(s: State, m: Moment, timeout: int, w: World, served: set<Compression>, resamples: bool, a: Address)
    requires m.world.opus == w.opus && Offered(resamples, m).Some? && (TakesAudio(s) ==> Resamples(s) == resamples)
    ensures Step(s, m.event, m.world, timeout) == AtOnce(s, Offered(resamples, m).value, w)
    ensures Sent(s, m.event, m.world, served, a) == SentAtOnce(s, Offered(resamples, m).value, w, served, a)
  {
    if TakesAudio(s) {
      var p := s.pipe.value.(buffer := s.pipe.value.buffer + Offered(resamples, m).value);
      DrainNeedsOpus(p, s.next, m.world, w, served, if a in s.registry then s.registry[a].compression else Uncompressed);
    }
  }

  /** A run of captures does what one capture of all its bytes does, failing or not. */
  lemma {:induction false} CapturesAtOnce(s: State, run: seq<Moment>, served: seq<set<Compression>>, timeout: int,
                                          a: Address, w: World, done: set<Compression>)
    requires Consistent(s) && Captures(run, served, Resamples(s), w, done)
    ensures After(s, run, timeout) == AtOnce(s, OfferedInRun(Resamples(s), run), w)
    ensures SentInRun(s, run, served, timeout, a) == SentAtOnce(s, OfferedInRun(Resamples(s), run), w, done, a)
  {
    if run == [] {
      NothingAtOnce(s, w, done, a);
    } else {
      var n := |run| - 1;
      CapturesAtOnce(s, run[..n], served[..n], timeout, a, w, done);
      var x, y := OfferedInRun(Resamples(s), run[..n]), Offered(Resamples(s), run[n]).value;
      ResamplesStill(s, x, w);
      CaptureAtOnce(After(s, run[..n], timeout), run[n], timeout, w, done, Resamples(s), a);
      OnceOrTwice(s, x, y, w, done, a);
    }
  }

  lemma ResamplesStill(s: State, x: Bytes, w: World)
    ensures TakesAudio(AtOnce(s, x, w)) ==> Resamples(AtOnce(s, x, w)) == Resamples(s)
  {
    if TakesAudio(s) {
      DrainClosedForm(s.pipe.value.(buffer := s.pipe.value.buffer + x), s.next, w);
    }
  }

  /** Two runs of captures that offer the same bytes, however they are cut, leave the server in the same state and send
      every address the same packets, whatever the state they start from and also if an encoder fails on the way. */
  lemma ChunkingIndependence(s: State, run: seq<Moment>, other: seq<Moment>, served: seq<set<Compression>>,
                             otherServed: seq<set<Compression>>, timeout: int, a: Address, w: World,
                             done: set<Compression>)
    requires Consistent(s)
    requires Captures(run, served, Resamples(s), w, done) && Captures(other, otherServed, Resamples(s), w, done)
    requires OfferedInRun(Resamples(s), run) == OfferedInRun(Resamples(s), other)
    ensures After(s, run, timeout) == After(s, other, timeout)
    ensures SentInRun(s, run, served, timeout, a) == SentInRun(s, other, otherServed, timeout, a)
  {
    CapturesAtOnce(s, run, served, timeout, a, w, done);
    CapturesAtOnce(s, other, otherServed, timeout, a, w, done);
  }
}
