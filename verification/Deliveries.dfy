/** Which audio reaches which client, over every run: whatever fails, reconnects or changes, and with nothing lost or
    sent twice while a client and its pipe stay. */
module Deliveries {
  import opened AudioTypes
  import opened Registry
  import opened Packets
  import opened Machine
  import opened Framing
  import opened Runs

  // ---- The audio in a stream of packets ------------------------------------------------------

  function AudioOnly(packets: seq<Bytes>): seq<Bytes> {
    if packets == [] then []
    else AudioOnly(packets[..|packets| - 1])
         + (if IsAudio(packets[|packets| - 1]) then [packets[|packets| - 1]] else [])
  }

  lemma {:induction false} AudioOnlyConcat(x: seq<Bytes>, y: seq<Bytes>)
    ensures AudioOnly(x + y) == AudioOnly(x) + AudioOnly(y)
  {
    if y == [] {
      assert x + y == x;
    } else {
      assert (x + y)[..|x + y| - 1] == x + y[..|y| - 1];
      AudioOnlyConcat(x, y[..|y| - 1]);
    }
  }

  lemma {:induction false} AudioOnlyAll(packets: seq<Bytes>)
    requires forall packet :: packet in packets ==> IsAudio(packet)
    ensures AudioOnly(packets) == packets
  {
    if packets != [] {
      AudioOnlyAll(packets[..|packets| - 1]);
      assert packets == packets[..|packets| - 1] + [packets[|packets| - 1]];
    }
  }

  lemma NoAudioInAnswers(datagram: Bytes)
    ensures AudioOnly(Answer(datagram)) == []
    ensures AudioOnly([BarePacket(SERVER_KEEP_ALIVE)]) == [] && AudioOnly([BarePacket(DISCONNECT)]) == []
  {
  }

  // ---- What a step owes a client -------------------------------------------------------------

  /** What the encoder for `c` has been fed so far. */
  function Heard(s: State, c: Compression): seq<Bytes> {
    if s.Running? && s.pipe.Some? && c in s.pipe.value.history then s.pipe.value.history[c] else []
  }

  /** The packets of the frames that the step completes, for the compression that `a` has at that step. */
  function OwedIn(s: State, e: Event, w: World, a: Address): seq<Bytes> {
    if s.Running? && a in s.registry
    then Owed(Heard(s, s.registry[a].compression), CompletedIn(s, e, w), w, s.registry[a].compression)
    else []
  }

  /** The packet of the frame that the step fails on, if `a` got it before the failure. */
  function StrayIn(s: State, e: Event, w: World, served: set<Compression>, a: Address): (packets: seq<Bytes>)
    ensures |packets| <= 1
  {
    if Feeds(s, e, w) && a in s.registry then Stray(Filled(s, e, w), s.next, w, served, s.registry[a].compression)
    else []
  }

  /** Whatever the step, the audio it sends to an address is what it owes it and the stray packet. */
  lemma StepDelivers(s: State, e: Event, w: World, served: set<Compression>, a: Address)
    requires Consistent(s)
    ensures AudioOnly(Sent(s, e, w, served, a)) == OwedIn(s, e, w, a) + StrayIn(s, e, w, served, a)
  {
    if Feeds(s, e, w) && a in s.registry {
      var c := s.registry[a].compression;
      assert Formats(s.registry)[a] == c && c in InUse(s.registry);
      DrainDelivers(Filled(s, e, w), s.next, w, served, c);
      DrainPacketsWellFormed(Filled(s, e, w), s.next, w, served, c);
      AudioOnlyAll(DrainPackets(Filled(s, e, w), s.next, w, served, c));
    } else {
      NoAudioInAnswers(if e.Receive? then e.datagram else []);
    }
  }

  function DeliveredInRun(s: State, run: seq<Moment>, served: seq<set<Compression>>, timeout: int, a: Address): seq<Bytes>
    requires |served| == |run|
  {
    if run == [] then []
    else
      var n := |run| - 1;
      var before := After(s, run[..n], timeout);
      DeliveredInRun(s, run[..n], served[..n], timeout, a)
      + (OwedIn(before, run[n].event, run[n].world, a) + StrayIn(before, run[n].event, run[n].world, served[n], a))
  }

  /** For every run and every address, through failures, recoveries, device changes, disconnects and changes of
      compression: the audio sent to the address is, step by step, what the completed frames owe its compression at
      that step and the stray packet of a failed frame. */
  lemma {:induction false} EveryRunDelivers(s: State, run: seq<Moment>, served: seq<set<Compression>>, timeout: int,
                                            a: Address)
    requires Consistent(s) && |served| == |run|
    ensures AudioOnly(SentInRun(s, run, served, timeout, a)) == DeliveredInRun(s, run, served, timeout, a)
  {
    if run != [] {
      var n := |run| - 1;
      EveryRunDelivers(s, run[..n], served[..n], timeout, a);
      RunConsistent(s, run[..n], timeout);
      var before := After(s, run[..n], timeout);
      StepDelivers(before, run[n].event, run[n].world, served[n], a);
      AudioOnlyConcat(SentInRun(s, run[..n], served[..n], timeout, a), Sent(before, run[n].event, run[n].world, served[n], a));
    }
  }

  /** Some encoder fails on a frame of this capture. */
  predicate FailsOn(s: State, e: Event, w: World) {
    Feeds(s, e, w) && Drain(Filled(s, e, w), s.next, w).failed
  }

  /** That frame, with the number it goes out under. */
  function FailedFrame(s: State, e: Event, w: World): NumberedFrame
    requires FailsOn(s, e, w)
  {
    DrainClosedForm(Filled(s, e, w), s.next, w);
    var d := Drain(Filled(s, e, w), s.next, w);
    NumberedFrame(d.next, d.pipe.buffer[..FRAME_SIZE])
  }

  /** The stray packet is exactly what the failed frame owes a client whose encoder had its turn. The failure costs the
      pipe, and the frame's number is left for the next frame. */
  lemma StrayIsOwed(s: State, e: Event, w: World, served: set<Compression>, timeout: int, a: Address)
    requires Consistent(s)
    ensures StrayIn(s, e, w, served, a)
         == if FailsOn(s, e, w) && a in s.registry && s.registry[a].compression in served then
              var c := s.registry[a].compression;
              FrameOwed(Heard(s, c) + PcmList(CompletedIn(s, e, w)), FailedFrame(s, e, w), w, c)
            else []
    ensures FailsOn(s, e, w) ==>
              var t := Step(s, e, w, timeout); t.Running? && t.pipe == None && t.next == FailedFrame(s, e, w).number
  {
    if FailsOn(s, e, w) && a in s.registry {
      var c := s.registry[a].compression;
      assert Formats(s.registry)[a] == c && c in InUse(s.registry);
      StrayOwed(Filled(s, e, w), s.next, w, served, c);
    }
  }

  lemma StrayOwed(p: PipeState, next: UInt32, w: World, served: set<Compression>, c: Compression)
    requires Drain(p, next, w).failed && c in p.history
    ensures var d := Drain(p, next, w);
            && FRAME_SIZE <= |d.pipe.buffer|
            && Stray(p, next, w, served, c)
               == if c in served then
                    FrameOwed(p.history[c] + PcmList(Completed(p, next, w)), NumberedFrame(d.next, d.pipe.buffer[..FRAME_SIZE]),
                              w, c)
                  else []
  {
    DrainClosedForm(p, next, w);
  }

  // ---- What an encoder hears -----------------------------------------------------------------

  /** A pipe is there before and after the step, and it is the same one. */
  predicate KeepsPipe(s: State, e: Event, w: World, timeout: int) {
    var t := Step(s, e, w, timeout);
    && s.Running? && t.Running? && s.pipe.Some? && t.pipe.Some?
    && (e.SelectDevice? ==> e.id == s.device)
  }

  /** ... and some client uses compression `c` before and after. */
  predicate KeepsEncoder(s: State, e: Event, w: World, timeout: int, c: Compression) {
    KeepsPipe(s, e, w, timeout) && c in InUse(s.registry) && c in InUse(Step(s, e, w, timeout).registry)
  }

  /** What an encoder for `c` that had heard `heard` before the run has heard at its end. */
  function HeardInRun(heard: seq<Bytes>, s: State, run: seq<Moment>, timeout: int, c: Compression): seq<Bytes> {
    if run == [] then heard
    else
      var n := |run| - 1;
      var before := After(s, run[..n], timeout);
      if KeepsEncoder(before, run[n].event, run[n].world, timeout, c)
      then HeardInRun(heard, s, run[..n], timeout, c) + PcmList(CompletedIn(before, run[n].event, run[n].world))
      else []
  }

  /** An encoder that stays hears exactly the frames the step completes; any other starts afresh. */
  lemma StepHears(s: State, e: Event, w: World, timeout: int, c: Compression)
    requires Consistent(s) && c != Uncompressed
    ensures Heard(Step(s, e, w, timeout), c)
         == if KeepsEncoder(s, e, w, timeout, c) then Heard(s, c) + PcmList(CompletedIn(s, e, w)) else []
  {
    StepConsistent(s, e, w, timeout);
    if Feeds(s, e, w) {
      DrainClosedForm(Filled(s, e, w), s.next, w);
    } else {
      assert Heard(s, c) + [] == Heard(s, c);
    }
  }

  /** Over every run an encoder hears every frame completed since it came into use, in order, and nothing else:
      nothing that other clients do replaces, resets or skips it. */
  lemma {:induction false} EveryEncoderHears(s: State, run: seq<Moment>, timeout: int, c: Compression)
    requires Consistent(s) && c != Uncompressed
    ensures Heard(After(s, run, timeout), c) == HeardInRun(Heard(s, c), s, run, timeout, c)
  {
    if run != [] {
      var n := |run| - 1;
      EveryEncoderHears(s, run[..n], timeout, c);
      RunConsistent(s, run[..n], timeout);
      StepHears(After(s, run[..n], timeout), run[n].event, run[n].world, timeout, c);
    }
  }

  // ---- Where the accepted bytes go -----------------------------------------------------------

  function AcceptedIn(s: State, e: Event, w: World): Bytes {
    if Feeds(s, e, w) then Accepted(s.pipe.value, e.pcm, w).value else []
  }

  function Buffered(s: State): Bytes {
    if s.Running? && s.pipe.Some? then s.pipe.value.buffer else []
  }

  /** What goes down with a pipe: all that was buffered, or what a failing drain had not completed. */
  function LostIn(s: State, e: Event, w: World, timeout: int): Bytes {
    if KeepsPipe(s, e, w, timeout) then []
    else if Feeds(s, e, w) then Drain(Filled(s, e, w), s.next, w).pipe.buffer
    else Buffered(s)
  }

  lemma StepConserves(s: State, e: Event, w: World, timeout: int)
    ensures Buffered(s) + AcceptedIn(s, e, w)
         == PcmOf(CompletedIn(s, e, w)) + LostIn(s, e, w, timeout) + Buffered(Step(s, e, w, timeout))
  {
    if Feeds(s, e, w) {
      DrainClosedForm(Filled(s, e, w), s.next, w);
    } else {
      assert PcmOf([]) == [];
    }
  }

  function AcceptedInRun(s: State, run: seq<Moment>, timeout: int): Bytes {
    if run == [] then []
    else
      var n := |run| - 1;
      AcceptedInRun(s, run[..n], timeout) + AcceptedIn(After(s, run[..n], timeout), run[n].event, run[n].world)
  }

  /** The completed frames and the lost bytes of a run, as they come. */
  function SpentInRun(s: State, run: seq<Moment>, timeout: int): Bytes {
    if run == [] then []
    else
      var n := |run| - 1;
      var before := After(s, run[..n], timeout);
      SpentInRun(s, run[..n], timeout)
      + (PcmOf(CompletedIn(before, run[n].event, run[n].world)) + LostIn(before, run[n].event, run[n].world, timeout))
  }

  /** For every run: what was buffered and every byte accepted since is, in order, what became completed frames, what
      went down with a pipe, and what is buffered now. */
  lemma {:induction false} EveryRunConserves(s: State, run: seq<Moment>, timeout: int)
    ensures Buffered(s) + AcceptedInRun(s, run, timeout)
         == SpentInRun(s, run, timeout) + Buffered(After(s, run, timeout))
  {
    if run != [] {
      var n := |run| - 1;
      var before := After(s, run[..n], timeout);
      EveryRunConserves(s, run[..n], timeout);
      StepConserves(before, run[n].event, run[n].world, timeout);
      JoinAccounts(Buffered(s), AcceptedInRun(s, run[..n], timeout), SpentInRun(s, run[..n], timeout), Buffered(before),
                   AcceptedIn(before, run[n].event, run[n].world),
                   PcmOf(CompletedIn(before, run[n].event, run[n].world))
                   + LostIn(before, run[n].event, run[n].world, timeout), Buffered(After(s, run, timeout)));
    }
  }

  lemma JoinAccounts(start: Bytes, accepted: Bytes, spent: Bytes, middle: Bytes, moreAccepted: Bytes, moreSpent: Bytes,
                     end: Bytes)
    requires start + accepted == spent + middle && middle + moreAccepted == moreSpent + end
    ensures start + (accepted + moreAccepted) == (spent + moreSpent) + end
  {
    Regroup(start, accepted, moreAccepted);
    Regroup(spent, middle, moreAccepted);
    Regroup(spent, moreSpent, end);
  }

  // ---- A client that stays -------------------------------------------------------------------

  /** The step leaves the client connected with compression `c` and the pipe it listens to in place. */
  predicate Keeps(s: State, e: Event, w: World, timeout: int, a: Address, c: Compression) {
    var t := Step(s, e, w, timeout);
    && KeepsPipe(s, e, w, timeout)
    && a in s.registry && s.registry[a].compression == c && a in t.registry && t.registry[a].compression == c
  }

  ghost predicate KeepsInRun(s: State, run: seq<Moment>, timeout: int, a: Address, c: Compression) {
    forall i :: 0 <= i < |run| ==> Keeps(After(s, run[..i], timeout), run[i].event, run[i].world, timeout, a, c)
  }

  lemma KeepsPrefix(s: State, run: seq<Moment>, timeout: int, a: Address, c: Compression)
    requires run != [] && KeepsInRun(s, run, timeout, a, c)
    ensures KeepsInRun(s, run[..|run| - 1], timeout, a, c)
    ensures var n := |run| - 1; Keeps(After(s, run[..n], timeout), run[n].event, run[n].world, timeout, a, c)
  {
    var prefix := run[..|run| - 1];
    assert forall i :: 0 <= i < |prefix| ==> prefix[..i] == run[..i];
  }

  /** Such a client gets no stray packet, nothing is lost, and its encoder stays. */
  lemma KeepsAll(s: State, e: Event, w: World, served: set<Compression>, timeout: int, a: Address, c: Compression)
    requires Keeps(s, e, w, timeout, a, c)
    ensures StrayIn(s, e, w, served, a) == [] && LostIn(s, e, w, timeout) == [] && KeepsEncoder(s, e, w, timeout, c)
  {
    assert !FailsOn(s, e, w);
    assert Formats(s.registry)[a] == c && Formats(Step(s, e, w, timeout).registry)[a] == c;
  }

  /** What a client with compression `c` is owed over a run if its encoder had heard `heard` at the start: every
      completed frame is encoded by an encoder that has heard exactly the frames before it. */
  function OwedInRun(heard: seq<Bytes>, s: State, run: seq<Moment>, timeout: int, c: Compression): seq<Bytes> {
    if run == [] then []
    else
      var n := |run| - 1;
      OwedInRun(heard, s, run[..n], timeout, c)
      + Owed(heard + PcmList(CompletedInRun(s, run[..n], timeout)),
             CompletedIn(After(s, run[..n], timeout), run[n].event, run[n].world), run[n].world, c)
  }

  /** A client that stays connected to a pipe that stays is sent, for every completed frame and for nothing else, what
      one encoder that has heard all frames before owes it. */
  lemma RunDelivers(s: State, run: seq<Moment>, served: seq<set<Compression>>, timeout: int, a: Address, c: Compression)
    requires Consistent(s) && |served| == |run| && KeepsInRun(s, run, timeout, a, c)
    ensures AudioOnly(SentInRun(s, run, served, timeout, a)) == OwedInRun(Heard(s, c), s, run, timeout, c)
  {
    EveryRunDelivers(s, run, served, timeout, a);
    StayingIsOwed(s, run, served, timeout, a, c);
  }

  lemma {:induction false} StayingIsOwed(s: State, run: seq<Moment>, served: seq<set<Compression>>, timeout: int,
                                         a: Address, c: Compression)
    requires Consistent(s) && |served| == |run| && KeepsInRun(s, run, timeout, a, c)
    ensures DeliveredInRun(s, run, served, timeout, a) == OwedInRun(Heard(s, c), s, run, timeout, c)
  {
    if run != [] {
      var n := |run| - 1;
      KeepsPrefix(s, run, timeout, a, c);
      StayingIsOwed(s, run[..n], served[..n], timeout, a, c);
      if c != Uncompressed {
        RunFeedsEncoder(s, run[..n], timeout, a, c);
      }
      StepOfStaying(After(s, run[..n], timeout), run[n].event, run[n].world, served[n], timeout, a, c,
                    Heard(s, c) + PcmList(CompletedInRun(s, run[..n], timeout)));
    }
  }

  lemma StepOfStaying(s: State, e: Event, w: World, served: set<Compression>, timeout: int, a: Address, c: Compression,
                      heard: seq<Bytes>)
    requires Keeps(s, e, w, timeout, a, c) && (c != Uncompressed ==> Heard(s, c) == heard)
    ensures OwedIn(s, e, w, a) + StrayIn(s, e, w, served, a) == Owed(heard, CompletedIn(s, e, w), w, c)
  {
    KeepsAll(s, e, w, served, timeout, a, c);
    if c == Uncompressed {
      OwedUncompressed(Heard(s, c), CompletedIn(s, e, w), w);
      OwedUncompressed(heard, CompletedIn(s, e, w), w);
    }
  }

  /** The client's encoder hears every completed frame and nothing else. */
  lemma {:induction false} RunFeedsEncoder(s: State, run: seq<Moment>, timeout: int, a: Address, c: Compression)
    requires Consistent(s) && c != Uncompressed && KeepsInRun(s, run, timeout, a, c)
    ensures Heard(After(s, run, timeout), c) == Heard(s, c) + PcmList(CompletedInRun(s, run, timeout))
  {
    if run == [] {
      assert Heard(s, c) + [] == Heard(s, c);
    } else {
      var n := |run| - 1;
      KeepsPrefix(s, run, timeout, a, c);
      RunFeedsEncoder(s, run[..n], timeout, a, c);
      var before, e, w := After(s, run[..n], timeout), run[n].event, run[n].world;
      KeepsAll(before, e, w, {}, timeout, a, c);
      RunConsistent(s, run[..n], timeout);
      StepHears(before, e, w, timeout, c);
      PcmListConcat(CompletedInRun(s, run[..n], timeout), CompletedIn(before, e, w));
      Regroup(Heard(s, c), PcmList(CompletedInRun(s, run[..n], timeout)), PcmList(CompletedIn(before, e, w)));
    }
  }

  /** An uncompressed client that stays is sent exactly the completed frames, each once, in order. */
  lemma {:induction false} OwedInRunUncompressed(heard: seq<Bytes>, s: State, run: seq<Moment>, timeout: int)
    ensures OwedInRun(heard, s, run, timeout, Uncompressed) == UncompressedPackets(CompletedInRun(s, run, timeout))
  {
    if run != [] {
      var n := |run| - 1;
      OwedInRunUncompressed(heard, s, run[..n], timeout);
      var before := After(s, run[..n], timeout);
      var fs, more := CompletedInRun(s, run[..n], timeout), CompletedIn(before, run[n].event, run[n].world);
      OwedUncompressed(heard + PcmList(fs), more, run[n].world);
      UncompressedConcat(fs, more);
    }
  }

  /** While a client and its pipe stay, no byte is lost. */
  lemma {:induction false} RunConserves(s: State, run: seq<Moment>, timeout: int, a: Address, c: Compression)
    requires KeepsInRun(s, run, timeout, a, c)
    ensures Buffered(s) + AcceptedInRun(s, run, timeout)
         == PcmOf(CompletedInRun(s, run, timeout)) + Buffered(After(s, run, timeout))
  {
    EveryRunConserves(s, run, timeout);
    NothingLost(s, run, timeout, a, c);
  }

  lemma {:induction false} NothingLost(s: State, run: seq<Moment>, timeout: int, a: Address, c: Compression)
    requires KeepsInRun(s, run, timeout, a, c)
    ensures SpentInRun(s, run, timeout) == PcmOf(CompletedInRun(s, run, timeout))
  {
    if run != [] {
      var n := |run| - 1;
      KeepsPrefix(s, run, timeout, a, c);
      NothingLost(s, run[..n], timeout, a, c);
      var before, e, w := After(s, run[..n], timeout), run[n].event, run[n].world;
      KeepsAll(before, e, w, {}, timeout, a, c);
      PcmOfConcat(CompletedInRun(s, run[..n], timeout), CompletedIn(before, e, w));
    }
  }

  // ---- Everybody else ------------------------------------------------------------------------

  /** Audio goes to registered addresses only; whoever is not in the registry is sent nothing but, possibly, the
      acknowledgement of its own request. */
  lemma OnlyClientsAreSent(s: State, e: Event, w: World, served: set<Compression>, a: Address)
    requires s.Running? && a !in s.registry
    ensures Sent(s, e, w, served, a) == [] || (e.Receive? && e.from == a && Sent(s, e, w, served, a) == Answer(e.datagram))
    ensures AudioOnly(Sent(s, e, w, served, a)) == []
  {
  }
}
