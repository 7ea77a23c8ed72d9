/** What holds over every run of the server: frame numbers, delivery to a client, and when a device has no pipe. */
module Runs {
  import opened AudioTypes
  import opened Registry
  import opened Packets
  import opened Machine
  import opened Framing

  // ---- Splitting runs ------------------------------------------------------------------------

  lemma {:induction false} AfterConcat(s: State, x: seq<Moment>, y: seq<Moment>, timeout: int)
    ensures After(s, x + y, timeout) == After(After(s, x, timeout), y, timeout)
  {
    if y == [] {
      assert x + y == x;
    } else {
      assert (x + y)[..|x + y| - 1] == x + y[..|y| - 1];
      AfterConcat(s, x, y[..|y| - 1], timeout);
    }
  }

  // ---- The machine's invariant ---------------------------------------------------------------

  /** The step appends audio to the pipe's buffer. */
  predicate Feeds(s: State, e: Event, w: World) {
    e.Capture? && TakesAudio(s) && Accepted(s.pipe.value, e.pcm, w).Some?
  }

  /** The pipe with the capture appended, about to be drained. */
  function Filled(s: State, e: Event, w: World): PipeState
    requires Feeds(s, e, w)
  {
    s.pipe.value.(buffer := s.pipe.value.buffer + Accepted(s.pipe.value, e.pcm, w).value)
  }

  /** After every event a live pipe has encoders for exactly the compressions in use and less than a frame buffered. */
  lemma StepConsistent(s: State, e: Event, w: World, timeout: int)
    requires Consistent(s)
    ensures Consistent(Step(s, e, w, timeout))
  {
    if Feeds(s, e, w) {
      DrainClosedForm(Filled(s, e, w), s.next, w);
    }
  }

  lemma {:induction false} RunConsistent(s: State, run: seq<Moment>, timeout: int)
    requires Consistent(s)
    ensures Consistent(After(s, run, timeout))
  {
    if run != [] {
      var n := |run| - 1;
      RunConsistent(s, run[..n], timeout);
      StepConsistent(After(s, run[..n], timeout), run[n].event, run[n].world, timeout);
    }
  }

  // ---- Frame numbers -------------------------------------------------------------------------

  function CompletedIn(s: State, e: Event, w: World): seq<NumberedFrame> {
    if Feeds(s, e, w) then Completed(Filled(s, e, w), s.next, w) else []
  }

  function CompletedInRun(s: State, run: seq<Moment>, timeout: int): seq<NumberedFrame> {
    if run == [] then []
    else
      var n := |run| - 1;
      CompletedInRun(s, run[..n], timeout) + CompletedIn(After(s, run[..n], timeout), run[n].event, run[n].world)
  }

  ghost predicate Consecutive(fs: seq<NumberedFrame>, next: UInt32) {
    forall k :: 0 <= k < |fs| ==> fs[k].number == NumberAt(next, k)
  }

  lemma StepNumbers(s: State, e: Event, w: World, timeout: int)
    requires s.Running?
    ensures Consecutive(CompletedIn(s, e, w), s.next)
    ensures var t := Step(s, e, w, timeout); t.Running? ==> t.next == NumberAt(s.next, |CompletedIn(s, e, w)|)
    ensures Step(s, e, w, timeout).Stopped? ==> CompletedIn(s, e, w) == []
  {
    if Feeds(s, e, w) {
      DrainClosedForm(Filled(s, e, w), s.next, w);
    }
  }

  /** Across any number of pipes, devices, mutes, failures and client changes, the frames completed in a run are
      numbered consecutively modulo 2^32, and the counter says how many there were. */
  lemma {:induction false} RunNumbers(s: State, run: seq<Moment>, timeout: int)
    requires s.Running?
    ensures var fs := CompletedInRun(s, run, timeout);
            && Consecutive(fs, s.next)
            && (After(s, run, timeout).Running? ==> After(s, run, timeout).next == NumberAt(s.next, |fs|))
  {
    if run != [] {
      var n := |run| - 1;
      var before := After(s, run[..n], timeout);
      RunNumbers(s, run[..n], timeout);
      if before.Running? {
        StepNumbers(before, run[n].event, run[n].world, timeout);
        ConsecutiveConcat(CompletedInRun(s, run[..n], timeout), CompletedIn(before, run[n].event, run[n].world), s.next);
      }
    }
  }

  lemma ConsecutiveConcat(fs: seq<NumberedFrame>, more: seq<NumberedFrame>, next: UInt32)
    requires Consecutive(fs, next) && Consecutive(more, NumberAt(next, |fs|))
    ensures Consecutive(fs + more, next)
    ensures NumberAt(NumberAt(next, |fs|), |more|) == NumberAt(next, |fs + more|)
  {
    forall k | |fs| <= k < |fs + more| ensures (fs + more)[k].number == NumberAt(next, k) {
      NumberAtSum(next, |fs|, k - |fs|);
    }
  }

  /** From start-up the numbers are 1, 2, 3, ... modulo 2^32, and no two frames less than 2^32 apart share one. */
  lemma NumbersFromStart(run: seq<Moment>, timeout: int, i: nat, j: nat)
    requires i < j < |CompletedInRun(INITIAL, run, timeout)|
    ensures var fs := CompletedInRun(INITIAL, run, timeout);
            && fs[i].number == (i + 1) % TWO_TO_THE_32
            && (j - i < TWO_TO_THE_32 ==> fs[i].number != fs[j].number)
  {
    RunNumbers(INITIAL, run, timeout);
    var fs := CompletedInRun(INITIAL, run, timeout);
    assert fs[i].number == NumberAt(1, i) && fs[j].number == NumberAt(1, j);
    if j - i < TWO_TO_THE_32 {
      CloseNumbersDiffer(1 + i, j - i);
    }
  }

  lemma CloseNumbersDiffer(n: nat, d: nat)
    requires 0 < d < TWO_TO_THE_32
    ensures n % TWO_TO_THE_32 != (n + d) % TWO_TO_THE_32
  {
  }

  // ---- Devices and pipes ---------------------------------------------------------------------

  /** Selecting a device that works gives a fresh pipe unless that device was already selected. */
  lemma SelectGivesPipe(s: State, id: string, resamples: bool, w: World, timeout: int)
    requires s.Running? && !Breaks({}, InUse(s.registry), w)
    ensures var t := Step(s, SelectDevice(id, resamples, true, true), w, timeout);
            && t.Running? && t.device == id
            && (t.pipe.Some? <==> id != s.device || s.pipe.Some?)
            && (id != s.device ==> t.pipe == Some(PipeState(false, resamples, [], map c | c in InUse(s.registry) :: [])))
            && (id == s.device ==> t == s)
  {
  }

  /** A run in which the device's pipe is lost to a capture error: selecting the device again does not bring it
      back, although nothing would fail; selecting another one first does. */
  lemma ReselectingDoesNotRecover(w: World, timeout: int)
    ensures var mic, line := SelectDevice("mic", false, true, true), SelectDevice("line", false, true, true);
            var selected := Step(INITIAL, mic, w, timeout);
            var lost := Step(selected, CaptureFailure, w, timeout);
            && selected.Running? && selected.pipe.Some?
            && lost == Running(map[], "mic", None, 1, [])
            && Step(lost, mic, w, timeout) == lost
            && Step(Step(lost, line, w, timeout), mic, w, timeout) == selected
  {
  }

  /** A device whose pipe cannot be constructed, or cannot get the encoders it needs, does not become the current one:
      the old pipe is gone, but selecting the device again tries again, and succeeds once nothing stands in the way. */
  lemma FailedDeviceIsRetried(s: State, id: string, resamples: bool, constructs: bool, starts: bool, w: World, v: World,
                              timeout: int)
    requires s.Running? && id != s.device && id != ""
    requires !constructs || exists c :: c in InUse(s.registry) && c != Uncompressed && c in w.brokenEncoders
    requires v.brokenEncoders == {}
    ensures var t := Step(s, SelectDevice(id, resamples, constructs, starts), w, timeout);
            && t == s.(device := "", pipe := None)
            && Step(t, SelectDevice(id, resamples, true, true), v, timeout)
               == s.(device := id, pipe := Some(PipeState(false, resamples, [], map c | c in InUse(s.registry) :: [])))
  {
  }

  /** One whose pipe fails only when it starts does become the current one, and selecting it again does nothing. */
  lemma FailedStartIsNotRetried(s: State, id: string, resamples: bool, again: bool, w: World, v: World, timeout: int)
    requires s.Running? && id != s.device
    requires forall c :: c in InUse(s.registry) && c != Uncompressed ==> c !in w.brokenEncoders
    ensures var t := Step(s, SelectDevice(id, resamples, true, false), w, timeout);
            && t == s.(device := id, pipe := None)
            && Step(t, SelectDevice(id, again, true, true), v, timeout) == t
  {
  }

  /** Nothing but selecting a device changes which one is current or puts a pipe in place, and nothing at all changes
      whether a pipe resamples. */
  lemma OnlySelectingChangesDevice(s: State, e: Event, w: World, timeout: int)
    requires s.Running? && !e.SelectDevice?
    ensures var t := Step(s, e, w, timeout);
            && (t.Stopped? ==> e.Shutdown? || e.Receive?)
            && (t.Running? ==> t.device == s.device && (t.pipe.Some? ==>
                  s.pipe.Some? && t.pipe.value.resamples == s.pipe.value.resamples))
  {
    if Feeds(s, e, w) {
      DrainClosedForm(Filled(s, e, w), s.next, w);
    }
  }

  /** A failing capture gives up the pipe and leaves everything else, the current device included. */
  lemma FailureKeepsDevice(s: State, w: World, timeout: int)
    requires s.Running?
    ensures Step(s, CaptureFailure, w, timeout) == s.(pipe := None)
    ensures Step(s, Shutdown, w, timeout) == Stopped && Step(Stopped, CaptureFailure, w, timeout) == Stopped
  {
  }
}
