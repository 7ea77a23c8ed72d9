/** The theorems about runs, brought back to the running server's outbox and to the keyboard. */
module EndToEnd {
  import opened AudioTypes
  import opened Machine
  import opened Framing
  import opened Runs
  import opened Deliveries
  import opened Readings
  import Reissues
  import Keystrokes
  import opened FanOut

  method StartAndRun(timeout: int, w: World, run: seq<Moment>) returns (app: App, ghost served: seq<set<Compression>>)
    ensures app.Valid() && fresh(app.Repr() - {null}) && app.clients.timeout == timeout && |served| == |run|
    ensures app.Abs() == After(INITIAL, run, timeout) && app.server.TypesAll()
    ensures forall a :: StreamTo(app.server.outbox, a) == SentInRun(INITIAL, run, served, timeout, a)
  {
    app := new App(timeout, w);
    served := app.Run(run);
  }

  /** Start the server and let anything happen. The audio that has left for any address is, step by step, what the
      completed frames owed it and the stray packets of failed ones, and reads as such; the completed frames are
      numbered from 1; what was accepted is in completed frames, lost with a pipe, or still buffered; and no key is left
      held down. */
  method ServeEveryone(timeout: int, w: World, run: seq<Moment>) returns (app: App, ghost served: seq<set<Compression>>)
    ensures app.Valid() && app.Abs() == After(INITIAL, run, timeout) && |served| == |run|
    ensures forall a :: AudioOnly(StreamTo(app.server.outbox, a)) == DeliveredInRun(INITIAL, run, served, timeout, a)
    ensures forall a :: ReadsAs(AudioOnly(StreamTo(app.server.outbox, a)), ReadInRun(INITIAL, run, served, timeout, a))
    ensures Consecutive(CompletedInRun(INITIAL, run, timeout), 1)
    ensures AcceptedInRun(INITIAL, run, timeout)
         == SpentInRun(INITIAL, run, timeout) + Buffered(After(INITIAL, run, timeout))
    ensures forall vk :: Keystrokes.Held(app.server.keyboard, vk) == 0
  {
    app, served := StartAndRun(timeout, w, run);
    forall a ensures AudioOnly(StreamTo(app.server.outbox, a)) == DeliveredInRun(INITIAL, run, served, timeout, a) {
      EveryRunDelivers(INITIAL, run, served, timeout, a);
    }
    forall a
      ensures ReadsAs(AudioOnly(StreamTo(app.server.outbox, a)), ReadInRun(INITIAL, run, served, timeout, a))
    {
      EveryRunReads(INITIAL, run, served, timeout, a);
    }
    RunNumbers(INITIAL, run, timeout);
    EveryRunConserves(INITIAL, run, timeout);
    assert Buffered(INITIAL) + AcceptedInRun(INITIAL, run, timeout) == AcceptedInRun(INITIAL, run, timeout);
    forall vk ensures Keystrokes.Held(app.server.keyboard, vk) == 0 {
      Keystrokes.TypingIsBalanced(app.server.keyboard, app.server.typed, vk);
    }
  }

  /** Whether all audio packets that have left for an address carry different numbers, exactly, as long as the numbers
      have not come round. */
  method NumberPackets(timeout: int, w: World, run: seq<Moment>, a: Address)
    returns (app: App, ghost served: seq<set<Compression>>)
    ensures app.Valid() && app.Abs() == After(INITIAL, run, timeout) && |served| == |run|
    ensures |CompletedInRun(INITIAL, run, timeout)| < TWO_TO_THE_32 ==>
              (Reissues.NumbersDistinct(AudioOnly(StreamTo(app.server.outbox, a)))
               <==> !Reissues.ReissuesSomewhere(INITIAL, run, served, timeout, a))
  {
    app, served := StartAndRun(timeout, w, run);
    if |CompletedInRun(INITIAL, run, timeout)| < TWO_TO_THE_32 {
      Reissues.PacketNumbersDistinctIff(INITIAL, run, served, timeout, a);
    }
  }

  /** Start the server, let anything happen, then run on while an uncompressed client stays connected and the capture
      pipe stays in place. The audio packets that the server has sent to that client's address are those it had sent
      before and then exactly the frames completed since, each once, in order, under consecutive numbers; and their
      audio, followed by what is still buffered, is what was buffered followed by every byte accepted since. */
  method ServeUncompressedClient(timeout: int, w: World, setup: seq<Moment>, run: seq<Moment>, a: Address)
    returns (app: App, ghost servedBefore: seq<set<Compression>>)
    requires KeepsInRun(After(INITIAL, setup, timeout), run, timeout, a, Uncompressed)
    ensures app.Valid() && app.Abs() == After(INITIAL, setup + run, timeout) && |servedBefore| == |setup|
    ensures var s := After(INITIAL, setup, timeout);
            var frames := CompletedInRun(s, run, timeout);
            && AudioOnly(StreamTo(app.server.outbox, a))
               == AudioOnly(SentInRun(INITIAL, setup, servedBefore, timeout, a)) + UncompressedPackets(frames)
            && (s.Running? ==> Consecutive(frames, s.next))
            && PcmOf(frames) + Buffered(After(INITIAL, setup + run, timeout))
               == Buffered(s) + AcceptedInRun(s, run, timeout)
  {
    app, servedBefore := StartAndRun(timeout, w, setup);
    ghost var s, before := app.Abs(), StreamTo(app.server.outbox, a);
    ghost var served := app.Run(run);
    RunConsistent(INITIAL, setup, timeout);
    AfterConcat(INITIAL, setup, run, timeout);
    ClientAccount(s, run, timeout, served, before, StreamTo(app.server.outbox, a), a);
  }

  lemma ClientAccount(s: State, run: seq<Moment>, timeout: int, served: seq<set<Compression>>,
                      before: seq<Bytes>, after: seq<Bytes>, a: Address)
    requires Consistent(s) && |served| == |run| && KeepsInRun(s, run, timeout, a, Uncompressed)
    requires after == before + SentInRun(s, run, served, timeout, a)
    ensures var frames := CompletedInRun(s, run, timeout);
            && AudioOnly(after) == AudioOnly(before) + UncompressedPackets(frames)
            && (s.Running? ==> Consecutive(frames, s.next))
            && PcmOf(frames) + Buffered(After(s, run, timeout)) == Buffered(s) + AcceptedInRun(s, run, timeout)
  {
    AudioOnlyConcat(before, SentInRun(s, run, served, timeout, a));
    RunDelivers(s, run, served, timeout, a, Uncompressed);
    OwedInRunUncompressed(Heard(s, Uncompressed), s, run, timeout);
    RunConserves(s, run, timeout, a, Uncompressed);
    if s.Running? {
      RunNumbers(s, run, timeout);
    }
  }
}
