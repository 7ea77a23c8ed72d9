/** When captured audio counts and what a capture then does: muting, waiting for clients, and failing encoders. */
module Captures {
  import opened AudioTypes
  import opened Registry
  import opened Packets
  import opened Machine
  import opened Framing
  import opened Runs
  import opened Deliveries

  ghost predicate HasPipe(s: State) {
    s.Running? && s.pipe.Some?
  }

  // ---- One capture ---------------------------------------------------------------------------

  /** What a capture brings: the bytes themselves, or what the resampler makes of them; None if it fails. */
  ghost function Brought(p: PipeState, pcm: Bytes, w: World): Option<Bytes> {
    if p.resamples then w.resample(pcm) else Some(pcm)
  }

  /** For some compressed client's encoder the library reports an error on frame `k`. */
  ghost predicate ErrorOn(s: State, frames: seq<Bytes>, k: nat, w: World)
    requires s.Running? && k < |frames|
  {
    exists c :: c in InUse(s.registry) && c != Uncompressed
                && !(0 <= w.opus(c, Heard(s, c) + frames[..k], frames[k]).result <= 800)
  }

  /** `frames` are all whole frames of `buffer` and `rest` is what remains. */
  ghost predicate Cuts(buffer: Bytes, frames: seq<Bytes>, rest: Bytes) {
    && Join(frames) + rest == buffer && |rest| < 1920
    && forall k :: 0 <= k < |frames| ==> |frames[k]| == 1920
  }

  /** The first `n` frames are completed and numbered from `next` on. */
  ghost predicate Completes(fs: seq<NumberedFrame>, frames: seq<Bytes>, n: nat, next: UInt32) {
    && n == |fs| <= |frames|
    && forall k :: 0 <= k < n ==> fs[k] == NumberedFrame((next + k) % 0x1_0000_0000, frames[k])
  }

  /** Muted, or with nobody registered, nothing happens. */
  lemma IgnoredCapture(s: State, pcm: Bytes, w: World, served: set<Compression>, timeout: int, a: Address)
    requires Consistent(s) && s.Running?
    requires s.pipe.None? || s.pipe.value.muted || s.registry == map[]
    ensures Step(s, Capture(pcm), w, timeout) == s && Sent(s, Capture(pcm), w, served, a) == []
  {
    assert s.registry == map[] ==> InUse(s.registry) == {};
  }

  lemma SomeoneInUse(s: State, a: Address)
    requires s.Running? && a in s.registry
    ensures s.registry[a].compression in InUse(s.registry)
  {
    assert Formats(s.registry)[a] == s.registry[a].compression;
  }

  /** Otherwise, if the resampler fails, the pipe is given up and nothing is sent. */
  lemma ResamplerFails(s: State, pcm: Bytes, w: World, served: set<Compression>, timeout: int, a: Address)
    requires Consistent(s) && s.Running? && s.pipe.Some? && !s.pipe.value.muted && s.registry != map[]
    requires Brought(s.pipe.value, pcm, w) == None
    ensures Step(s, Capture(pcm), w, timeout) == s.(pipe := None) && Sent(s, Capture(pcm), w, served, a) == []
  {
    var b :| b in s.registry;
    SomeoneInUse(s, b);
  }

  /** And otherwise every byte is taken: the buffer is cut into frames of 1920 bytes, of which those before the first
      error are completed; an error gives up the pipe, and without one the rest is kept. */
  lemma CaptureExactly(s: State, pcm: Bytes, w: World, timeout: int)
    requires Consistent(s) && s.Running? && s.pipe.Some? && !s.pipe.value.muted && s.registry != map[]
    requires Brought(s.pipe.value, pcm, w) != None
    ensures var p, t, fs := s.pipe.value, Step(s, Capture(pcm), w, timeout), CompletedIn(s, Capture(pcm), w);
            var buffer, n := p.buffer + Brought(p, pcm, w).value, |fs|;
            var frames, rest := Frames(buffer), Leftover(buffer);
            && Cuts(buffer, frames, rest) && Completes(fs, frames, n, s.next)
            && (forall k :: 0 <= k < n ==> !ErrorOn(s, frames, k, w)) && (n < |frames| ==> ErrorOn(s, frames, n, w))
            && t.Running? && t == s.(next := (s.next + n) % 0x1_0000_0000, pipe := t.pipe)
            && (if n < |frames| then t.pipe == None
                else t.pipe.Some? && t.pipe.value == p.(buffer := rest, history := t.pipe.value.history))
  {
    CaptureTakesAll(s, pcm, w, timeout);
    var p := s.pipe.value.(buffer := s.pipe.value.buffer + Brought(s.pipe.value, pcm, w).value);
    var frames := Frames(p.buffer);
    DrainExactly(p, s.next, w);
    forall k | 0 <= k < |frames| ensures ErrorAfter(p.history, frames, k, w) <==> ErrorOn(s, frames, k, w) {
      ErrorOnIsAfter(s, frames, k, w);
    }
  }

  lemma CaptureTakesAll(s: State, pcm: Bytes, w: World, timeout: int)
    requires Consistent(s) && HasPipe(s) && !s.pipe.value.muted && s.registry != map[]
    requires Brought(s.pipe.value, pcm, w) != None
    ensures var p := s.pipe.value.(buffer := s.pipe.value.buffer + Brought(s.pipe.value, pcm, w).value);
            var d := Drain(p, s.next, w);
            && Step(s, Capture(pcm), w, timeout) == s.(pipe := if d.failed then None else Some(d.pipe), next := d.next)
            && CompletedIn(s, Capture(pcm), w) == Completed(p, s.next, w)
  {
    var b :| b in s.registry;
    SomeoneInUse(s, b);
  }

  lemma ErrorOnIsAfter(s: State, frames: seq<Bytes>, k: nat, w: World)
    requires Consistent(s) && HasPipe(s) && k < |frames|
    ensures ErrorAfter(s.pipe.value.history, frames, k, w) <==> ErrorOn(s, frames, k, w)
  {
  }

  /** The same as `ErrorOn`, in terms of what a pipe's encoders have heard. */
  ghost predicate ErrorAfter(history: map<Compression, seq<Bytes>>, frames: seq<Bytes>, k: nat, w: World)
    requires k < |frames|
  {
    exists c :: c in history && c != Uncompressed
                && !(0 <= w.opus(c, history[c] + frames[..k], frames[k]).result <= 800)
  }

  lemma FramesCut(buffer: Bytes)
    ensures Cuts(buffer, Frames(buffer), Leftover(buffer))
  {
    FramesConserve(buffer);
  }

  lemma NumberedCompletes(fs: seq<NumberedFrame>, frames: seq<Bytes>, next: UInt32)
    requires fs == Numbered(PcmList(fs), next) && PcmList(fs) <= frames
    ensures Completes(fs, frames, |fs|, next)
  {
    forall k | 0 <= k < |fs| ensures fs[k] == NumberedFrame((next + k) % 0x1_0000_0000, frames[k]) {
      assert fs[k] == Numbered(PcmList(fs), next)[k] && PcmList(fs)[k] == frames[k];
    }
  }

  lemma DrainExactly(p: PipeState, next: UInt32, w: World)
    ensures var d, fs, frames := Drain(p, next, w), Completed(p, next, w), Frames(p.buffer);
            && Cuts(p.buffer, frames, Leftover(p.buffer)) && Completes(fs, frames, |fs|, next)
            && UpToError(p.history, frames, |fs|, w)
            && (if d.failed then |fs| < |frames|
                else |fs| == |frames| && d.pipe == p.(buffer := Leftover(p.buffer), history := d.pipe.history))
            && d.next == (next + |fs|) % 0x1_0000_0000
  {
    DrainClosedForm(p, next, w);
    FramesCut(p.buffer);
    StopsAtError(p, next, w);
    NumberedCompletes(Completed(p, next, w), Frames(p.buffer), next);
    if !Drain(p, next, w).failed {
      DrainCompletesAll(p, next, w);
    }
  }

  /** `n` frames are taken, no encoder fails on them, and if there are more one fails on the next. */
  ghost predicate UpToError(history: map<Compression, seq<Bytes>>, frames: seq<Bytes>, n: nat, w: World) {
    && n <= |frames| && (forall k :: 0 <= k < n ==> !ErrorAfter(history, frames, k, w))
    && (n < |frames| ==> ErrorAfter(history, frames, n, w))
  }

  /** The frames completed are those before the first error. */
  lemma {:induction false} StopsAtError(p: PipeState, next: UInt32, w: World)
    ensures var fs, frames := PcmList(Completed(p, next, w)), Frames(p.buffer);
            fs <= frames && (Drain(p, next, w).failed <==> |fs| < |frames|) && UpToError(p.history, frames, |fs|, w)
    decreases |p.buffer|
  {
    if FRAME_SIZE <= |p.buffer| {
      var frame, frames := p.buffer[..FRAME_SIZE], Frames(p.buffer);
      FailsOnError(p.history, frames, w);
      if !FrameFails(p.history, frame, w) {
        var q := p.(buffer := p.buffer[FRAME_SIZE..], history := Fed(p.history, frame));
        StopsAtError(q, Next(next), w);
        CompletedCons(p, next, w);
        UpToErrorMoves(p.history, frames, |PcmList(Completed(q, Next(next), w))|, w);
      }
    }
  }

  lemma UpToErrorMoves(history: map<Compression, seq<Bytes>>, frames: seq<Bytes>, n: nat, w: World)
    requires frames != [] && !ErrorAfter(history, frames, 0, w)
    requires UpToError(Fed(history, frames[0]), frames[1..], n, w)
    ensures UpToError(history, frames, n + 1, w)
  {
    forall k | 0 < k < |frames|
      ensures ErrorAfter(history, frames, k, w) <==> ErrorAfter(Fed(history, frames[0]), frames[1..], k - 1, w)
    {
      ErrorMoves(history, frames, k - 1, w);
    }
  }

  lemma FailsOnError(history: map<Compression, seq<Bytes>>, frames: seq<Bytes>, w: World)
    requires frames != []
    ensures FrameFails(history, frames[0], w) <==> ErrorAfter(history, frames, 0, w)
  {
    forall c | c in history && c != Uncompressed
      ensures Encoded(history, frames[0], w, c) == None
         <==> !(0 <= w.opus(c, history[c] + frames[..0], frames[0]).result <= 800)
    {
      assert history[c] + frames[..0] == history[c];
    }
  }

  lemma ErrorMoves(history: map<Compression, seq<Bytes>>, frames: seq<Bytes>, k: nat, w: World)
    requires k + 1 < |frames|
    ensures ErrorAfter(history, frames, k + 1, w) <==> ErrorAfter(Fed(history, frames[0]), frames[1..], k, w)
  {
    var fed := Fed(history, frames[0]);
    forall c | c in history && c != Uncompressed ensures history[c] + frames[..k + 1] == fed[c] + frames[1..][..k] {
      Regroup(history[c], [frames[0]], frames[1..][..k]);
      assert [frames[0]] + frames[1..][..k] == frames[..k + 1];
    }
  }

  // ---- Muting over whole runs ----------------------------------------------------------------

  /** What the last mute event on the present pipe said; a new pipe is not muted. */
  ghost function IsMuted(run: seq<Moment>, timeout: int): bool {
    if run == [] then false
    else
      var n := |run| - 1;
      var before, e := After(INITIAL, run[..n], timeout), run[n].event;
      if !HasPipe(before) || (e.SelectDevice? && e.id != before.device) then false
      else if e.SetMuted? then e.muted
      else IsMuted(run[..n], timeout)
  }

  lemma {:induction false} MutedByLastEvent(run: seq<Moment>, timeout: int)
    ensures var s := After(INITIAL, run, timeout); HasPipe(s) ==> s.pipe.value.muted == IsMuted(run, timeout)
  {
    if run != [] {
      var n := |run| - 1;
      MutedByLastEvent(run[..n], timeout);
      var before, e, w := After(INITIAL, run[..n], timeout), run[n].event, run[n].world;
      if Feeds(before, e, w) {
        DrainClosedForm(Filled(before, e, w), before.next, w);
      }
    }
  }

  /** After any run: a capture is ignored exactly if there is no pipe, the pipe's last mute event muted it, or nobody is
      registered; otherwise its bytes are accepted, unless the resampler fails. */
  lemma CapturesCount(run: seq<Moment>, pcm: Bytes, w: World, served: set<Compression>, timeout: int, a: Address)
    ensures var s, e := After(INITIAL, run, timeout), Capture(pcm);
            if !HasPipe(s) || IsMuted(run, timeout) || s.registry == map[] then
              Step(s, e, w, timeout) == s && Sent(s, e, w, served, a) == [] && AcceptedIn(s, e, w) == []
            else
              Brought(s.pipe.value, pcm, w).Some? ==> AcceptedIn(s, e, w) == Brought(s.pipe.value, pcm, w).value
  {
    RunConsistent(INITIAL, run, timeout);
    MutedByLastEvent(run, timeout);
    var s := After(INITIAL, run, timeout);
    if s.Running? {
      if !HasPipe(s) || IsMuted(run, timeout) || s.registry == map[] {
        IgnoredCapture(s, pcm, w, served, timeout, a);
        assert s.registry == map[] ==> InUse(s.registry) == {};
      } else {
        var b :| b in s.registry;
        SomeoneInUse(s, b);
      }
    }
  }

  /** The pipe stays and is not unmuted. */
  ghost predicate StaysMuted(s: State, run: seq<Moment>, timeout: int) {
    forall i :: 0 <= i < |run| ==>
      KeepsPipe(After(s, run[..i], timeout), run[i].event, run[i].world, timeout) && run[i].event != SetMuted(false)
  }

  lemma StaysMutedPrefix(s: State, run: seq<Moment>, timeout: int)
    requires run != [] && StaysMuted(s, run, timeout)
    ensures StaysMuted(s, run[..|run| - 1], timeout)
  {
    var front := run[..|run| - 1];
    assert forall i :: 0 <= i < |front| ==> front[..i] == run[..i];
  }

  lemma MutedStep(s: State, e: Event, w: World, served: set<Compression>, timeout: int, a: Address)
    requires Consistent(s) && HasPipe(s) && s.pipe.value.muted && KeepsPipe(s, e, w, timeout) && e != SetMuted(false)
    ensures AudioOnly(Sent(s, e, w, served, a)) == []
    ensures var t := Step(s, e, w, timeout);
            HasPipe(t) && t.pipe.value.muted && t.pipe.value.buffer == s.pipe.value.buffer && t.next == s.next
  {
    if e.Capture? {
      IgnoredCapture(s, e.pcm, w, served, timeout, a);
    } else {
      NoAudioInAnswers(if e.Receive? then e.datagram else []);
    }
  }

  /** While a muted pipe stays and is not unmuted, no audio is sent to anybody, whatever is captured and whoever comes
      and goes; buffer and frame counter stand still. */
  lemma {:induction false} MutedIsSilent(s: State, run: seq<Moment>, served: seq<set<Compression>>, timeout: int, a: Address)
    requires Consistent(s) && HasPipe(s) && s.pipe.value.muted && |served| == |run| && StaysMuted(s, run, timeout)
    ensures AudioOnly(SentInRun(s, run, served, timeout, a)) == []
    ensures var t := After(s, run, timeout);
            HasPipe(t) && t.pipe.value.muted && t.pipe.value.buffer == s.pipe.value.buffer && t.next == s.next
  {
    if run != [] {
      var n := |run| - 1;
      StaysMutedPrefix(s, run, timeout);
      MutedIsSilent(s, run[..n], served[..n], timeout, a);
      RunConsistent(s, run[..n], timeout);
      var before, e, w := After(s, run[..n], timeout), run[n].event, run[n].world;
      MutedStep(before, e, w, served[n], timeout, a);
      AudioOnlyConcat(SentInRun(s, run[..n], served[..n], timeout, a), Sent(before, e, w, served[n], a));
    }
  }

  /** Muting is such a state, and unmuting ends it. */
  lemma MuteEvents(s: State, muted: bool, w: World, timeout: int)
    requires HasPipe(s)
    ensures Step(s, SetMuted(muted), w, timeout) == s.(pipe := Some(s.pipe.value.(muted := muted)))
  {
  }
}
