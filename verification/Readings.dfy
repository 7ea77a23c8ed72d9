/** What a client reads out of the audio it is sent, from the Opus library's answers on: category, number and payload of
    every packet, over every step and every run. */
module Readings {
  import opened AudioTypes
  import opened Registry
  import opened Packets
  import opened Machine
  import opened Framing
  import opened Runs
  import opened Deliveries

  /** An audio packet as its receiver reads it. */
  datatype Reading = Reading(category: byte, number: UInt32, size: UInt16, payload: Bytes)

  function Read(packet: Bytes): Reading
    requires AUDIO_DATA_OFFSET <= |packet|
  {
    Reading(GetPacketCategory(packet), AudioNumber(packet), ReadUInt16B(packet, SIZE_OFFSET), AudioPayload(packet))
  }

  ghost predicate ReadsAs(packets: seq<Bytes>, readings: seq<Reading>) {
    && |packets| == |readings|
    && forall i :: 0 <= i < |packets| ==> AUDIO_DATA_OFFSET <= |packets[i]| && Read(packets[i]) == readings[i]
  }

  lemma ReadsAsConcat(x: seq<Bytes>, y: seq<Bytes>, u: seq<Reading>, v: seq<Reading>)
    requires ReadsAs(x, u) && ReadsAs(y, v)
    ensures ReadsAs(x + y, u + v)
  {
  }

  /** A whole frame of 1920 bytes as it is, or as many bytes of the encoder's buffer as the library says. */
  function Raw(f: NumberedFrame): Reading
    requires |f.pcm| == 1920
  {
    Reading(0x20, f.number, 1929, f.pcm)
  }

  function Coded(f: NumberedFrame, answer: OpusAnswer): Reading
    requires 3 <= answer.result <= 800
  {
    Reading(0x21, f.number, 9 + answer.result, answer.buffer[..answer.result])
  }

  /** What a client gets of a frame: the frame itself if it is uncompressed; otherwise the encoding if the library
      returned 3 to 800, and nothing if it returned anything else. */
  function Expected(heard: seq<Bytes>, f: NumberedFrame, w: World, c: Compression): seq<Reading>
    requires |f.pcm| == 1920
  {
    if c == Uncompressed then [Raw(f)]
    else
      var answer := w.opus(c, heard, f.pcm);
      if 3 <= answer.result <= 800 then [Coded(f, answer)] else []
  }

  ghost predicate WholeFrames(fs: seq<NumberedFrame>) {
    forall k :: 0 <= k < |fs| ==> |fs[k].pcm| == 1920
  }

  function ExpectedAll(heard: seq<Bytes>, fs: seq<NumberedFrame>, w: World, c: Compression): seq<Reading>
    requires WholeFrames(fs)
    decreases |fs|
  {
    if fs == [] then []
    else Expected(heard, fs[0], w, c) + ExpectedAll(heard + [fs[0].pcm], fs[1..], w, c)
  }

  lemma ReadFrame(heard: seq<Bytes>, f: NumberedFrame, w: World, c: Compression)
    requires |f.pcm| == 1920
    ensures ReadsAs(FrameOwed(heard, f, w, c), Expected(heard, f, w, c))
  {
    if c == Uncompressed {
      AudioPacketRoundTrip(0x20, f.number, f.pcm);
    } else {
      var answer := w.opus(c, heard, f.pcm);
      if 3 <= answer.result <= 800 {
        AudioPacketRoundTrip(0x21, f.number, answer.buffer[..answer.result]);
      }
    }
  }

  lemma {:induction false} ReadFrames(heard: seq<Bytes>, fs: seq<NumberedFrame>, w: World, c: Compression)
    requires WholeFrames(fs)
    ensures ReadsAs(Owed(heard, fs, w, c), ExpectedAll(heard, fs, w, c))
    decreases |fs|
  {
    if fs != [] {
      ReadFrame(heard, fs[0], w, c);
      ReadFrames(heard + [fs[0].pcm], fs[1..], w, c);
      ReadsAsConcat(FrameOwed(heard, fs[0], w, c), Owed(heard + [fs[0].pcm], fs[1..], w, c),
                    Expected(heard, fs[0], w, c), ExpectedAll(heard + [fs[0].pcm], fs[1..], w, c));
    }
  }

  lemma CompletedAreWhole(s: State, e: Event, w: World)
    ensures WholeFrames(CompletedIn(s, e, w))
    ensures FailsOn(s, e, w) ==> |FailedFrame(s, e, w).pcm| == 1920
  {
    if Feeds(s, e, w) {
      DrainClosedForm(Filled(s, e, w), s.next, w);
      var fs := CompletedIn(s, e, w);
      assert forall k :: 0 <= k < |fs| ==> PcmList(fs)[k] == fs[k].pcm;
    }
  }

  /** What an address reads in a step: of every completed frame what its compression gets, and of a frame some encoder
      fails on likewise, if its own encoder came first. */
  function ReadIn(s: State, e: Event, w: World, served: set<Compression>, a: Address): seq<Reading> {
    CompletedAreWhole(s, e, w);
    if s.Running? && a in s.registry then
      var c := s.registry[a].compression;
      var fs := CompletedIn(s, e, w);
      ExpectedAll(Heard(s, c), fs, w, c)
      + (if FailsOn(s, e, w) && c in served then Expected(Heard(s, c) + PcmList(fs), FailedFrame(s, e, w), w, c) else [])
    else []
  }

  lemma StepReads(s: State, e: Event, w: World, served: set<Compression>, timeout: int, a: Address)
    requires Consistent(s)
    ensures ReadsAs(AudioOnly(Sent(s, e, w, served, a)), ReadIn(s, e, w, served, a))
  {
    StepDelivers(s, e, w, served, a);
    CompletedAreWhole(s, e, w);
    StrayIsOwed(s, e, w, served, timeout, a);
    if s.Running? && a in s.registry {
      var c, fs := s.registry[a].compression, CompletedIn(s, e, w);
      ReadFrames(Heard(s, c), fs, w, c);
      if FailsOn(s, e, w) && c in served {
        ReadFrame(Heard(s, c) + PcmList(fs), FailedFrame(s, e, w), w, c);
        ReadsAsConcat(OwedIn(s, e, w, a), StrayIn(s, e, w, served, a), ExpectedAll(Heard(s, c), fs, w, c),
                      Expected(Heard(s, c) + PcmList(fs), FailedFrame(s, e, w), w, c));
      }
    }
  }

  function ReadInRun(s: State, run: seq<Moment>, served: seq<set<Compression>>, timeout: int, a: Address): seq<Reading>
    requires |served| == |run|
  {
    if run == [] then []
    else
      var n := |run| - 1;
      ReadInRun(s, run[..n], served[..n], timeout, a)
      + ReadIn(After(s, run[..n], timeout), run[n].event, run[n].world, served[n], a)
  }

  /** For every run and every address the audio packets sent read as exactly that. */
  lemma {:induction false} EveryRunReads(s: State, run: seq<Moment>, served: seq<set<Compression>>, timeout: int, a: Address)
    requires Consistent(s) && |served| == |run|
    ensures ReadsAs(AudioOnly(SentInRun(s, run, served, timeout, a)), ReadInRun(s, run, served, timeout, a))
  {
    if run != [] {
      var n := |run| - 1;
      var before, e, w := After(s, run[..n], timeout), run[n].event, run[n].world;
      EveryRunReads(s, run[..n], served[..n], timeout, a);
      RunConsistent(s, run[..n], timeout);
      StepReads(before, e, w, served[n], timeout, a);
      AudioOnlyConcat(SentInRun(s, run[..n], served[..n], timeout, a), Sent(before, e, w, served[n], a));
      ReadsAsConcat(AudioOnly(SentInRun(s, run[..n], served[..n], timeout, a)), AudioOnly(Sent(before, e, w, served[n], a)),
                    ReadInRun(s, run[..n], served[..n], timeout, a), ReadIn(before, e, w, served[n], a));
    }
  }

  /** One frame and one compressed client: with a result of 3 to 800 it is sent one Opus packet with the frame's number
      and that many bytes of the buffer; with 0 to 2, and with an error, none. */
  lemma OneOpusFrame(s: State, e: Event, w: World, served: set<Compression>, timeout: int, a: Address, f: NumberedFrame)
    requires Consistent(s) && s.Running? && a in s.registry && s.registry[a].compression != Uncompressed
    requires CompletedIn(s, e, w) == [f] && !FailsOn(s, e, w)
    ensures |f.pcm| == 1920
    ensures var packets := AudioOnly(Sent(s, e, w, served, a));
            var answer := w.opus(s.registry[a].compression, Heard(s, s.registry[a].compression), f.pcm);
            && 0 <= answer.result <= 800
            && (if answer.result <= 2 then packets == [] else ReadsAs(packets, [Coded(f, answer)]))
  {
    CompletedAreWhole(s, e, w);
    StepReads(s, e, w, served, timeout, a);
    assert CompletedIn(s, e, w)[0] == f;
    var c := s.registry[a].compression;
    EncodersAnswered(s, e, w, c, a);
    assert ExpectedAll(Heard(s, c), [f], w, c) == Expected(Heard(s, c), f, w, c) + [];
    assert ReadIn(s, e, w, served, a) == Expected(Heard(s, c), f, w, c);
  }

  /** The first frame completed is one that no encoder in use failed on. */
  lemma EncodersAnswered(s: State, e: Event, w: World, c: Compression, a: Address)
    requires Consistent(s) && s.Running? && a in s.registry && s.registry[a].compression == c != Uncompressed
    requires CompletedIn(s, e, w) != []
    ensures 0 <= w.opus(c, Heard(s, c), CompletedIn(s, e, w)[0].pcm).result <= 800
  {
    var p := Filled(s, e, w);
    assert Formats(s.registry)[a] == c && c in p.history;
    assert Encoded(p.history, p.buffer[..FRAME_SIZE], w, c) != None;
  }
}
