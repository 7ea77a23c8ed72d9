/** A run from start-up in which a client is sent two different frames under one number. */
module ReissueRun {
  import opened AudioTypes
  import opened Registry
  import opened Packets
  import opened Machine
  import opened Framing
  import opened Runs
  import opened Deliveries
  import opened Reissues
  import opened Registrations

  /** Every call of the Opus library returns `result`: below zero it fails, at zero it has nothing to send. */
  function WorldWith(result: int): World {
    World(0, {}, (c, heard, frame) => OpusAnswer(result, seq(MAX_PACKET_SIZE, _ => 0)), pcm => Some(pcm))
  }

  const PLAIN := Address(1)
  const CODED := Address(2)

  /** An uncompressed client and one at 64 kbit/s connect, and a device is selected. */
  function Setup(): seq<Moment> {
    [Moment(Receive(PLAIN, ConnectDatagram(1, 0, 0)), WorldWith(0)),
     Moment(Receive(CODED, ConnectDatagram(1, 0, 1)), WorldWith(0)),
     Moment(SelectDevice("mic", false, true, true), WorldWith(0))]
  }

  /** A frame on which the encoder fails, another device, and one more frame. */
  function FailAndGoOn(x: Bytes, y: Bytes): seq<Moment> {
    [Moment(Capture(x), WorldWith(-1)), Moment(SelectDevice("line", false, true, true), WorldWith(0)),
     Moment(Capture(y), WorldWith(0))]
  }

  const CLIENTS := map[PLAIN := Client(Uncompressed, 0), CODED := Client(Kbps64, 0)]
  const PIPE := FreshPipe(false, {Uncompressed, Kbps64})

  function Ready(device: string, pipe: Option<PipeState>): State {
    Running(CLIENTS, device, pipe, 1, [])
  }

  lemma BothInUse()
    ensures InUse(CLIENTS) == {Uncompressed, Kbps64}
  {
    var formats := Formats(CLIENTS);
    assert formats[PLAIN] == Uncompressed && formats[CODED] == Kbps64;
  }

  /** The audio that the uncompressed client is sent at a moment. */
  function AudioIn(s: State, m: Moment): seq<Bytes> {
    OwedIn(s, m.event, m.world, PLAIN) + StrayIn(s, m.event, m.world, {Uncompressed}, PLAIN)
  }

  /** From start-up the run leads to `s`, has sent the uncompressed client this audio and completed these frames. */
  ghost predicate Reached(run: seq<Moment>, timeout: int, s: State, audio: seq<Bytes>, frames: seq<NumberedFrame>) {
    && After(INITIAL, run, timeout) == s
    && DeliveredInRun(INITIAL, run, seq(|run|, _ => {Uncompressed}), timeout, PLAIN) == audio
    && CompletedInRun(INITIAL, run, timeout) == frames
  }

  lemma OneMore(run: seq<Moment>, timeout: int, s: State, audio: seq<Bytes>, frames: seq<NumberedFrame>, m: Moment,
                t: State, moreAudio: seq<Bytes>, moreFrames: seq<NumberedFrame>)
    requires Reached(run, timeout, s, audio, frames) && Step(s, m.event, m.world, timeout) == t
    requires AudioIn(s, m) == moreAudio && CompletedIn(s, m.event, m.world) == moreFrames
    ensures Reached(run + [m], timeout, t, audio + moreAudio, frames + moreFrames)
  {
    assert (run + [m])[..|run|] == run;
    assert seq(|run + [m]|, _ => {Uncompressed})[..|run|] == seq(|run|, _ => {Uncompressed});
  }

  lemma InThree(run: seq<Moment>, more: seq<Moment>)
    requires |more| == 3
    ensures run + [more[0]] + [more[1]] + [more[2]] == run + more
  {
  }

  lemma ConnectMoment(reg: ClientMap, from: Address, code: byte, c: Compression, timeout: int)
    requires CompressionFromNetworkValue(code) == Some(c)
    ensures var s, m := Running(reg, "", None, 1, []), Moment(Receive(from, ConnectDatagram(1, 0, code)), WorldWith(0));
            && Step(s, m.event, m.world, timeout) == s.(registry := reg[from := Client(c, 0)])
            && CompletedIn(s, m.event, m.world) == [] && AudioIn(s, m) == []
  {
    ConnectRoundTrip(reg, from, 1, 0, code, c, 0);
  }

  lemma SelectMoment(timeout: int)
    ensures var s := Ready("", None);
            var m := Moment(SelectDevice("mic", false, true, true), WorldWith(0));
            && Step(s, m.event, m.world, timeout) == Ready("mic", Some(PIPE))
            && CompletedIn(s, m.event, m.world) == [] && AudioIn(s, m) == []
  {
    BothInUse();
  }

  /** The two clients connect and the device is selected; no audio is sent. */
  lemma SetupDone(timeout: int)
    ensures Reached(Setup(), timeout, Ready("mic", Some(PIPE)), [], [])
  {
    var run, one := Setup(), map[PLAIN := Client(Uncompressed, 0)];
    var two := Ready("", None);
    assert Reached([], timeout, INITIAL, [], []);
    ConnectMoment(map[], PLAIN, 0, Uncompressed, timeout);
    OneMore([], timeout, INITIAL, [], [], run[0], INITIAL.(registry := one), [], []);
    ConnectMoment(one, CODED, 1, Kbps64, timeout);
    OneMore([] + [run[0]], timeout, INITIAL.(registry := one), [] + [], [] + [], run[1], two, [], []);
    SelectMoment(timeout);
    OneMore([] + [run[0]] + [run[1]], timeout, two, [] + [] + [], [] + [] + [], run[2], Ready("mic", Some(PIPE)), [], []);
    InThree([], run);
    assert [] + run == run;
  }

  /** The frame that fails: the uncompressed client has its packet already, the pipe is gone, nothing is counted. */
  lemma FrameLost(x: Bytes, timeout: int)
    requires |x| == FRAME_SIZE
    ensures var s, m := Ready("mic", Some(PIPE)), Moment(Capture(x), WorldWith(-1));
            && Step(s, m.event, m.world, timeout) == Ready("mic", None)
            && CompletedIn(s, m.event, m.world) == []
            && AudioIn(s, m) == [AudioPacket(AUDIO_UNCOMPRESSED, 1, x)]
  {
    var s, e, w := Ready("mic", Some(PIPE)), Capture(x), WorldWith(-1);
    var p := PIPE;
    assert Uncompressed in p.history && Feeds(s, e, w);
    assert [] + x == x && Filled(s, e, w) == p.(buffer := x) && x[..FRAME_SIZE] == x;
    assert Encoded(p.history, x, w, Kbps64) == None;
    assert FrameFails(p.history, x, w);
  }

  lemma OtherDevice(timeout: int)
    ensures var s, m := Ready("mic", None), Moment(SelectDevice("line", false, true, true), WorldWith(0));
            && Step(s, m.event, m.world, timeout) == Ready("line", Some(PIPE))
            && CompletedIn(s, m.event, m.world) == [] && AudioIn(s, m) == []
  {
    BothInUse();
    assert "mic"[0] != "line"[0];
  }

  lemma FrameSent(y: Bytes, timeout: int)
    requires |y| == FRAME_SIZE
    ensures var s, m := Ready("line", Some(PIPE)), Moment(Capture(y), WorldWith(0));
            && CompletedIn(s, m.event, m.world) == [NumberedFrame(1, y)]
            && AudioIn(s, m) == [AudioPacket(AUDIO_UNCOMPRESSED, 1, y)]
  {
    var s, e, w := Ready("line", Some(PIPE)), Capture(y), WorldWith(0);
    var p := PIPE;
    assert Uncompressed in p.history && Feeds(s, e, w);
    assert [] + y == y && Filled(s, e, w) == p.(buffer := y) && y[..FRAME_SIZE] == y && y[FRAME_SIZE..] == [];
    assert !FrameFails(p.history, y, w);
    CompletedCons(p.(buffer := y), 1, w);
    assert !Drain(p.(buffer := y), 1, w).failed;
    OwedUncompressed([], [NumberedFrame(1, y)], w);
  }

  /** From start-up: the client gets the frame `x` and then the frame `y`, both under number 1, of which only `y` is
      counted as completed. */
  lemma SameNumberTwice(x: Bytes, y: Bytes, timeout: int)
    requires |x| == |y| == FRAME_SIZE
    ensures var run, served := Setup() + FailAndGoOn(x, y), seq(6, _ => {Uncompressed});
            && AudioOnly(SentInRun(INITIAL, run, served, timeout, PLAIN))
               == [AudioPacket(AUDIO_UNCOMPRESSED, 1, x), AudioPacket(AUDIO_UNCOMPRESSED, 1, y)]
            && CompletedInRun(INITIAL, run, timeout) == [NumberedFrame(1, y)]
  {
    SetupDone(timeout);
    FailsAndGoesOn(Setup(), x, y, timeout, Step(Ready("line", Some(PIPE)), Capture(y), WorldWith(0), timeout));
    EveryRunDelivers(INITIAL, Setup() + FailAndGoOn(x, y), seq(6, _ => {Uncompressed}), timeout, PLAIN);
  }

  /** So the run is one that the exact condition is about. */
  lemma ReissueHappens(x: Bytes, y: Bytes, timeout: int)
    requires |x| == |y| == FRAME_SIZE
    ensures ReissuesSomewhere(INITIAL, Setup() + FailAndGoOn(x, y), seq(6, _ => {Uncompressed}), timeout, PLAIN)
  {
    SameNumberTwice(x, y, timeout);
    PacketNumbersDistinctIff(INITIAL, Setup() + FailAndGoOn(x, y), seq(6, _ => {Uncompressed}), timeout, PLAIN);
    AudioPacketRoundTrip(AUDIO_UNCOMPRESSED, 1, x);
    AudioPacketRoundTrip(AUDIO_UNCOMPRESSED, 1, y);
    var packets := [AudioPacket(AUDIO_UNCOMPRESSED, 1, x), AudioPacket(AUDIO_UNCOMPRESSED, 1, y)];
    assert Carries(packets, 0, 1) && Carries(packets, 1, 1);
  }

  lemma FailsAndGoesOn(run: seq<Moment>, x: Bytes, y: Bytes, timeout: int, z: State)
    requires |x| == |y| == FRAME_SIZE && Reached(run, timeout, Ready("mic", Some(PIPE)), [], [])
    requires z == Step(Ready("line", Some(PIPE)), Capture(y), WorldWith(0), timeout)
    ensures Reached(run + FailAndGoOn(x, y), timeout, z,
                    [AudioPacket(AUDIO_UNCOMPRESSED, 1, x), AudioPacket(AUDIO_UNCOMPRESSED, 1, y)], [NumberedFrame(1, y)])
  {
    var more, s, t := FailAndGoOn(x, y), Ready("mic", Some(PIPE)), Ready("mic", None);
    var px, py := AudioPacket(AUDIO_UNCOMPRESSED, 1, x), AudioPacket(AUDIO_UNCOMPRESSED, 1, y);
    FrameLost(x, timeout);
    OneMore(run, timeout, s, [], [], more[0], t, [px], []);
    OtherDevice(timeout);
    OneMore(run + [more[0]], timeout, t, [] + [px], [] + [], more[1], Ready("line", Some(PIPE)), [], []);
    FrameSent(y, timeout);
    OneMore(run + [more[0]] + [more[1]], timeout, Ready("line", Some(PIPE)), [] + [px] + [], [] + [] + [], more[2], z, [py],
            [NumberedFrame(1, y)]);
    InThree(run, more);
    assert [] + [px] + [] + [py] == [px, py];
  }
}
