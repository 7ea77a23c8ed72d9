/** Which audio packets share a number. A frame on which some encoder fails may already have gone to some clients, but
    it is not counted, so the frame after it goes out under the same number. */
module Reissues {
  import opened AudioTypes
  import opened Registry
  import opened Packets
  import opened Machine
  import opened Framing
  import opened Runs
  import opened Deliveries

  // ---- Frame by frame ------------------------------------------------------------------------

  /** A frame that was begun, and the packet a certain address got of it, if any. */
  datatype Turn = Turn(frame: NumberedFrame, completed: bool, copy: seq<Bytes>)

  /** The copy is at most one audio packet, under the frame's number. */
  ghost predicate Genuine(t: Turn) {
    |t.copy| <= 1 && (t.copy != [] ==> IsAudio(t.copy[0]) && AudioNumber(t.copy[0]) == t.frame.number)
  }

  ghost predicate AllGenuine(ts: seq<Turn>) {
    forall k :: 0 <= k < |ts| ==> Genuine(ts[k])
  }

  /** Completed frames in a row, for a client with the given compression or for a stranger. */
  function Turns(heard: seq<Bytes>, fs: seq<NumberedFrame>, w: World, c: Option<Compression>): seq<Turn>
    decreases |fs|
  {
    if fs == [] then []
    else [Turn(fs[0], true, if c.Some? then FrameOwed(heard, fs[0], w, c.value) else [])]
         + Turns(heard + [fs[0].pcm], fs[1..], w, c)
  }

  function CompressionOf(s: State, a: Address): Option<Compression> {
    if s.Running? && a in s.registry then Some(s.registry[a].compression) else None
  }

  /** The frame a step fails on. */
  function FailedTurn(s: State, e: Event, w: World, served: set<Compression>, a: Address): Turn
    requires FailsOn(s, e, w)
  {
    Turn(FailedFrame(s, e, w), false, StrayIn(s, e, w, served, a))
  }

  /** The frames a step begins: those it completes and the one it fails on. */
  function TurnsIn(s: State, e: Event, w: World, served: set<Compression>, a: Address): seq<Turn> {
    var c := CompressionOf(s, a);
    Turns(if c.Some? then Heard(s, c.value) else [], CompletedIn(s, e, w), w, c)
    + (if FailsOn(s, e, w) then [FailedTurn(s, e, w, served, a)] else [])
  }

  function TurnsInRun(s: State, run: seq<Moment>, served: seq<set<Compression>>, timeout: int, a: Address): seq<Turn>
    requires |served| == |run|
  {
    if run == [] then []
    else
      var n := |run| - 1;
      TurnsInRun(s, run[..n], served[..n], timeout, a)
      + TurnsIn(After(s, run[..n], timeout), run[n].event, run[n].world, served[n], a)
  }

  function Copies(ts: seq<Turn>): seq<Bytes> {
    if ts == [] then [] else ts[0].copy + Copies(ts[1..])
  }

  lemma {:induction false} CopiesConcat(x: seq<Turn>, y: seq<Turn>)
    ensures Copies(x + y) == Copies(x) + Copies(y)
  {
    if x == [] {
      assert x + y == y;
    } else {
      assert (x + y)[1..] == x[1..] + y;
      CopiesConcat(x[1..], y);
      Regroup(x[0].copy, Copies(x[1..]), Copies(y));
    }
  }

  lemma FrameOwedGenuine(heard: seq<Bytes>, f: NumberedFrame, completed: bool, w: World, c: Compression)
    ensures Genuine(Turn(f, completed, FrameOwed(heard, f, w, c)))
  {
    var payload := if c == Uncompressed then Some(f.pcm) else EncodeOutcome(w.opus(c, heard, f.pcm));
    if payload.Some? {
      AudioPacketRoundTrip(AudioCategory(c), f.number, payload.value);
    }
  }

  lemma {:induction false} TurnsOf(heard: seq<Bytes>, fs: seq<NumberedFrame>, w: World, c: Option<Compression>)
    ensures var ts := Turns(heard, fs, w, c);
            && |ts| == |fs| && (forall k :: 0 <= k < |ts| ==> ts[k].frame == fs[k] && ts[k].completed)
            && AllGenuine(ts)
            && Copies(ts) == if c.Some? then Owed(heard, fs, w, c.value) else []
    decreases |fs|
  {
    if fs != [] {
      TurnsOf(heard + [fs[0].pcm], fs[1..], w, c);
      var ts := Turns(heard, fs, w, c);
      assert ts[1..] == Turns(heard + [fs[0].pcm], fs[1..], w, c);
      if c.Some? {
        FrameOwedGenuine(heard, fs[0], true, w, c.value);
      }
      assert forall k :: 0 < k < |ts| ==> ts[k] == ts[1..][k - 1];
    }
  }

  /** `n` completed frames and possibly a failed one at the end. */
  ghost predicate FailsLast(ts: seq<Turn>, n: nat) {
    && n <= |ts| <= n + 1
    && (forall k :: 0 <= k < n ==> ts[k].completed)
    && (n < |ts| ==> !ts[n].completed)
  }

  lemma TurnsThenFailed(heard: seq<Bytes>, fs: seq<NumberedFrame>, w: World, c: Option<Compression>, failed: seq<Turn>)
    requires |failed| <= 1 && AllGenuine(failed) && (failed != [] ==> !failed[0].completed)
    ensures var ts := Turns(heard, fs, w, c) + failed;
            && FailsLast(ts, |fs|) && |ts| == |fs| + |failed|
            && (forall k :: 0 <= k < |fs| ==> ts[k].frame == fs[k])
            && (failed != [] ==> ts[|fs|] == failed[0])
            && AllGenuine(ts)
            && Copies(ts) == (if c.Some? then Owed(heard, fs, w, c.value) else [])
                             + (if failed == [] then [] else failed[0].copy)
  {
    TurnsOf(heard, fs, w, c);
    CopiesConcat(Turns(heard, fs, w, c), failed);
    assert failed != [] ==> Copies(failed) == failed[0].copy + Copies([]) == failed[0].copy;
  }

  lemma FailedTurnGenuine(s: State, e: Event, w: World, served: set<Compression>, timeout: int, a: Address)
    requires Consistent(s) && FailsOn(s, e, w)
    ensures Genuine(FailedTurn(s, e, w, served, a))
  {
    StrayIsOwed(s, e, w, served, timeout, a);
    if a in s.registry {
      var c := s.registry[a].compression;
      FrameOwedGenuine(Heard(s, c) + PcmList(CompletedIn(s, e, w)), FailedFrame(s, e, w), false, w, c);
    }
  }

  /** The frames of a step, and that their copies are all the audio it sends the address. */
  lemma StepTurns(s: State, e: Event, w: World, served: set<Compression>, timeout: int, a: Address)
    requires Consistent(s)
    ensures var ts, fs := TurnsIn(s, e, w, served, a), CompletedIn(s, e, w);
            && FailsLast(ts, |fs|) && (|fs| < |ts| <==> FailsOn(s, e, w))
            && (forall k :: 0 <= k < |fs| ==> ts[k].frame == fs[k])
            && (FailsOn(s, e, w) ==> ts[|fs|] == FailedTurn(s, e, w, served, a))
    ensures AllGenuine(TurnsIn(s, e, w, served, a))
    ensures Copies(TurnsIn(s, e, w, served, a)) == AudioOnly(Sent(s, e, w, served, a))
  {
    var c := CompressionOf(s, a);
    var failed := if FailsOn(s, e, w) then [FailedTurn(s, e, w, served, a)] else [];
    if FailsOn(s, e, w) {
      FailedTurnGenuine(s, e, w, served, timeout, a);
    } else {
      StrayIsOwed(s, e, w, served, timeout, a);
    }
    TurnsThenFailed(if c.Some? then Heard(s, c.value) else [], CompletedIn(s, e, w), w, c, failed);
    StepDelivers(s, e, w, served, a);
  }

  /** The audio packets sent to an address over a run are the copies it got of the frames begun, in order, each under
      its frame's number. */
  lemma {:induction false} CopiesAreTheAudio(s: State, run: seq<Moment>, served: seq<set<Compression>>, timeout: int,
                                             a: Address)
    requires Consistent(s) && |served| == |run|
    ensures var ts := TurnsInRun(s, run, served, timeout, a);
            AllGenuine(ts) && Copies(ts) == AudioOnly(SentInRun(s, run, served, timeout, a))
  {
    if run != [] {
      var n := |run| - 1;
      var before, e, w := After(s, run[..n], timeout), run[n].event, run[n].world;
      CopiesAreTheAudio(s, run[..n], served[..n], timeout, a);
      RunConsistent(s, run[..n], timeout);
      StepTurns(before, e, w, served[n], timeout, a);
      CopiesConcat(TurnsInRun(s, run[..n], served[..n], timeout, a), TurnsIn(before, e, w, served[n], a));
      AudioOnlyConcat(SentInRun(s, run[..n], served[..n], timeout, a), Sent(before, e, w, served[n], a));
    }
  }

  // ---- Numbers -------------------------------------------------------------------------------

  function Count(ts: seq<Turn>): nat {
    if ts == [] then 0 else Count(ts[..|ts| - 1]) + (if ts[|ts| - 1].completed then 1 else 0)
  }

  lemma {:induction false} CountConcat(x: seq<Turn>, y: seq<Turn>)
    ensures Count(x + y) == Count(x) + Count(y)
  {
    if y == [] {
      assert x + y == x;
    } else {
      assert (x + y)[..|x + y| - 1] == x + y[..|y| - 1];
      CountConcat(x, y[..|y| - 1]);
    }
  }

  lemma {:induction false} CountNone(ts: seq<Turn>)
    ensures Count(ts) <= |ts|
    ensures Count(ts) == 0 <==> NoneCompleted(ts)
    ensures Count(ts) == |ts| <==> forall k :: 0 <= k < |ts| ==> ts[k].completed
  {
    if ts != [] {
      CountNone(ts[..|ts| - 1]);
      assert NoneCompleted(ts) <==> NoneCompleted(ts[..|ts| - 1]) && !ts[|ts| - 1].completed;
    }
  }

  ghost predicate NoneCompleted(ts: seq<Turn>) {
    forall k :: 0 <= k < |ts| ==> !ts[k].completed
  }

  ghost predicate NumberedAt(ts: seq<Turn>, next: UInt32, k: nat)
    requires k < |ts|
  {
    ts[k].frame.number == NumberAt(next, Count(ts[..k]))
  }

  /** Every frame's number says how many were completed before it. */
  ghost predicate WellNumbered(ts: seq<Turn>, next: UInt32) {
    forall k :: 0 <= k < |ts| ==> NumberedAt(ts, next, k)
  }

  lemma WellNumberedConcat(x: seq<Turn>, y: seq<Turn>, next: UInt32)
    requires WellNumbered(x, next) && WellNumbered(y, NumberAt(next, Count(x)))
    ensures WellNumbered(x + y, next)
  {
    forall k | 0 <= k < |x + y| ensures NumberedAt(x + y, next, k) {
      NumberedAtConcat(x, y, next, k);
    }
  }

  lemma NumberedAtConcat(x: seq<Turn>, y: seq<Turn>, next: UInt32, k: nat)
    requires k < |x + y|
    requires if k < |x| then NumberedAt(x, next, k) else NumberedAt(y, NumberAt(next, Count(x)), k - |x|)
    ensures NumberedAt(x + y, next, k)
  {
    if k < |x| {
      assert (x + y)[..k] == x[..k];
    } else {
      assert (x + y)[..k] == x + y[..k - |x|];
      CountConcat(x, y[..k - |x|]);
      NumberAtSum(next, Count(x), Count(y[..k - |x|]));
    }
  }

  lemma CountFailsLast(ts: seq<Turn>, n: nat, k: nat)
    requires FailsLast(ts, n) && k <= |ts|
    ensures Count(ts[..k]) == if k <= n then k else n
  {
    CountNone(ts[..k]);
    if k > n {
      CountNone(ts[..n]);
      assert ts[..k][..n] == ts[..n];
    }
  }

  lemma StepWellNumbered(s: State, e: Event, w: World, served: set<Compression>, timeout: int, a: Address)
    requires Consistent(s) && s.Running?
    ensures var ts := TurnsIn(s, e, w, served, a);
            && Count(ts) == |CompletedIn(s, e, w)| && WellNumbered(ts, s.next)
  {
    var ts, fs := TurnsIn(s, e, w, served, a), CompletedIn(s, e, w);
    StepTurns(s, e, w, served, timeout, a);
    StepNumbers(s, e, w, timeout);
    StrayIsOwed(s, e, w, served, timeout, a);
    forall k | 0 <= k < |ts| ensures NumberedAt(ts, s.next, k) {
      CountFailsLast(ts, |fs|, k);
    }
    CountFailsLast(ts, |fs|, |ts|);
    assert ts[..|ts|] == ts;
  }

  lemma {:induction false} RunWellNumbered(s: State, run: seq<Moment>, served: seq<set<Compression>>, timeout: int,
                                           a: Address)
    requires Consistent(s) && s.Running? && |served| == |run|
    ensures var ts := TurnsInRun(s, run, served, timeout, a);
            && Count(ts) == |CompletedInRun(s, run, timeout)| && WellNumbered(ts, s.next)
  {
    if run != [] {
      var n := |run| - 1;
      var before, e, w := After(s, run[..n], timeout), run[n].event, run[n].world;
      var ts, us := TurnsInRun(s, run[..n], served[..n], timeout, a), TurnsIn(before, e, w, served[n], a);
      RunWellNumbered(s, run[..n], served[..n], timeout, a);
      if before.Stopped? {
        assert us == [] && ts + us == ts;
      } else {
        RunConsistent(s, run[..n], timeout);
        RunNumbers(s, run[..n], timeout);
        StepWellNumbered(before, e, w, served[n], timeout, a);
        WellNumberedConcat(ts, us, s.next);
        CountConcat(ts, us);
      }
    }
  }

  // ---- When two packets share a number -------------------------------------------------------

  ghost predicate Copied(ts: seq<Turn>, k: int) {
    0 <= k < |ts| && ts[k].copy != []
  }

  /** Copies of two frames fewer than 2^32 completed frames apart that carry the same number. */
  ghost predicate Clash(ts: seq<Turn>, j: int, k: int) {
    && Copied(ts, j) && Copied(ts, k) && j < k && Count(ts[j..k]) < TWO_TO_THE_32
    && ts[j].frame.number == ts[k].frame.number
  }

  ghost predicate NumbersDiffer(ts: seq<Turn>) {
    forall j, k :: !Clash(ts, j, k)
  }

  /** Two copies with no completed frame from the first of them up to the second. */
  ghost predicate Reissue(ts: seq<Turn>, j: int, k: int) {
    Copied(ts, j) && Copied(ts, k) && j < k && NoneCompleted(ts[j..k])
  }

  ghost predicate Reissues(ts: seq<Turn>) {
    exists j, k :: Reissue(ts, j, k)
  }

  lemma ClashIsReissue(ts: seq<Turn>, next: UInt32, j: nat, k: nat)
    requires j < k < |ts| && NumberedAt(ts, next, j) && NumberedAt(ts, next, k)
    ensures Clash(ts, j, k) <==> Reissue(ts, j, k)
  {
    assert ts[..k] == ts[..j] + ts[j..k];
    CountConcat(ts[..j], ts[j..k]);
    CountNone(ts[j..k]);
    if 0 < Count(ts[j..k]) < TWO_TO_THE_32 {
      CloseNumbersDiffer(next + Count(ts[..j]), Count(ts[j..k]));
    }
  }

  lemma DifferUnlessReissued(ts: seq<Turn>, next: UInt32)
    requires WellNumbered(ts, next)
    ensures NumbersDiffer(ts) <==> !Reissues(ts)
  {
    forall j, k | 0 <= j < k < |ts| ensures Clash(ts, j, k) <==> Reissue(ts, j, k) {
      ClashIsReissue(ts, next, j, k);
    }
  }

  /** A copy of a failed frame after which none was completed. */
  ghost predicate Open(ts: seq<Turn>) {
    exists j :: Copied(ts, j) && NoneCompleted(ts[j..])
  }

  /** A copy before which no frame was completed. */
  ghost predicate Closes(ts: seq<Turn>) {
    exists k :: Copied(ts, k) && NoneCompleted(ts[..k])
  }

  lemma NoneCompletedConcat(x: seq<Turn>, y: seq<Turn>)
    ensures NoneCompleted(x + y) <==> NoneCompleted(x) && NoneCompleted(y)
  {
    CountConcat(x, y);
    CountNone(x);
    CountNone(y);
    CountNone(x + y);
  }

  lemma OpenConcat(x: seq<Turn>, y: seq<Turn>)
    ensures Open(x + y) <==> Open(y) || (Open(x) && NoneCompleted(y))
  {
    var ts := x + y;
    forall j | 0 <= j < |x| ensures NoneCompleted(ts[j..]) <==> NoneCompleted(x[j..]) && NoneCompleted(y) {
      NoneCompletedConcat(x[j..], y);
      assert ts[j..] == x[j..] + y;
    }
    forall j | 0 <= j < |y| ensures ts[|x| + j..] == y[j..] {
    }
    if Open(y) {
      var j :| Copied(y, j) && NoneCompleted(y[j..]);
      assert Copied(ts, |x| + j);
    }
    if Open(x) && NoneCompleted(y) {
      var j :| Copied(x, j) && NoneCompleted(x[j..]);
      assert Copied(ts, j);
    }
    if Open(ts) {
      var j :| Copied(ts, j) && NoneCompleted(ts[j..]);
      assert if j < |x| then Copied(x, j) else Copied(y, j - |x|);
    }
  }

  /** Where the two copies of a reissue lie: both on one side, or one on either. */
  lemma ReissueConcat(x: seq<Turn>, y: seq<Turn>, j: nat, k: nat)
    ensures k < |x| ==> (Reissue(x + y, j, k) <==> Reissue(x, j, k))
    ensures Reissue(x + y, |x| + j, |x| + k) <==> Reissue(y, j, k)
    ensures j < |x| ==> (Reissue(x + y, j, |x| + k) <==> Copied(x, j) && NoneCompleted(x[j..]) && Copied(y, k)
                                                          && NoneCompleted(y[..k]))
  {
    var ts := x + y;
    if j < k < |x| {
      assert ts[j..k] == x[j..k];
    }
    if j < k < |y| {
      assert ts[|x| + j..|x| + k] == y[j..k];
    }
    if j < |x| && k < |y| {
      assert ts[j..|x| + k] == x[j..] + y[..k];
      NoneCompletedConcat(x[j..], y[..k]);
    }
  }

  lemma ReissuesConcat(x: seq<Turn>, y: seq<Turn>)
    ensures Reissues(x + y) <==> Reissues(x) || Reissues(y) || (Open(x) && Closes(y))
  {
    if Reissues(x + y) {
      var j, k :| Reissue(x + y, j, k);
      ReissueConcat(x, y, if j < |x| then j else j - |x|, if k < |x| then k else k - |x|);
    }
    if Reissues(x) {
      var j, k :| Reissue(x, j, k);
      ReissueConcat(x, y, j, k);
    }
    if Reissues(y) {
      var j, k :| Reissue(y, j, k);
      ReissueConcat(x, y, j, k);
    }
    if Open(x) && Closes(y) {
      var j :| Copied(x, j) && NoneCompleted(x[j..]);
      var k :| Copied(y, k) && NoneCompleted(y[..k]);
      ReissueConcat(x, y, j, k);
    }
  }

  /** The packet that the address gets of the first frame the step begins, if it begins one. */
  function FirstCopy(s: State, e: Event, w: World, served: set<Compression>, a: Address): seq<Bytes> {
    var ts := TurnsIn(s, e, w, served, a);
    if ts == [] then [] else ts[0].copy
  }

  lemma FailsLastReissues(ts: seq<Turn>, n: nat)
    requires FailsLast(ts, n)
    ensures !Reissues(ts)
    ensures Open(ts) <==> Copied(ts, n)
    ensures Closes(ts) <==> Copied(ts, 0)
    ensures NoneCompleted(ts) <==> n == 0
  {
    forall j, k | 0 <= j < k <= |ts| && NoneCompleted(ts[j..k]) ensures j == n {
      assert ts[j..k][0] == ts[j];
    }
    forall j | 0 <= j < |ts| ensures NoneCompleted(ts[j..]) ==> j == n {
      assert ts[j..] == ts[j..|ts|];
    }
    forall k | 0 < k <= |ts| ensures NoneCompleted(ts[..k]) ==> n == 0 {
      assert ts[..k] == ts[0..k];
    }
    assert ts[0..|ts|] == ts;
    assert Copied(ts, n) ==> NoneCompleted(ts[n..]);
    assert NoneCompleted(ts[..0]);
  }

  lemma StepReissues(s: State, e: Event, w: World, served: set<Compression>, timeout: int, a: Address)
    requires Consistent(s)
    ensures var ts := TurnsIn(s, e, w, served, a);
            && !Reissues(ts)
            && (Open(ts) <==> StrayIn(s, e, w, served, a) != [])
            && (Closes(ts) <==> FirstCopy(s, e, w, served, a) != [])
            && (NoneCompleted(ts) <==> CompletedIn(s, e, w) == [])
  {
    StepTurns(s, e, w, served, timeout, a);
    StrayIsOwed(s, e, w, served, timeout, a);
    FailsLastReissues(TurnsIn(s, e, w, served, a), |CompletedIn(s, e, w)|);
  }

  // ---- The exact condition, moment by moment -------------------------------------------------

  function CompletedAt(s: State, run: seq<Moment>, timeout: int, i: nat): seq<NumberedFrame>
    requires i < |run|
  {
    CompletedIn(After(s, run[..i], timeout), run[i].event, run[i].world)
  }

  function StrayAt(s: State, run: seq<Moment>, served: seq<set<Compression>>, timeout: int, a: Address, i: nat): seq<Bytes>
    requires i < |run| == |served|
  {
    StrayIn(After(s, run[..i], timeout), run[i].event, run[i].world, served[i], a)
  }

  function FirstCopyAt(s: State, run: seq<Moment>, served: seq<set<Compression>>, timeout: int, a: Address, i: nat)
    : seq<Bytes>
    requires i < |run| == |served|
  {
    FirstCopy(After(s, run[..i], timeout), run[i].event, run[i].world, served[i], a)
  }

  /** At moment `m` the address got a copy of a frame that then failed, and no frame is completed before moment `n`. */
  ghost predicate OpenAt(s: State, run: seq<Moment>, served: seq<set<Compression>>, timeout: int, a: Address, m: int, n: int)
    requires |served| == |run|
  {
    && 0 <= m < n <= |run| && StrayAt(s, run, served, timeout, a, m) != []
    && forall i :: m < i < n ==> CompletedAt(s, run, timeout, i) == []
  }

  ghost predicate OpenBefore(s: State, run: seq<Moment>, served: seq<set<Compression>>, timeout: int, a: Address, n: int)
    requires |served| == |run|
  {
    exists m :: OpenAt(s, run, served, timeout, a, m, n)
  }

  /** ... and of the first frame begun at moment `n` the address gets a copy too. */
  ghost predicate ReissuedAt(s: State, run: seq<Moment>, served: seq<set<Compression>>, timeout: int, a: Address, n: int)
    requires |served| == |run|
  {
    0 <= n < |run| && OpenBefore(s, run, served, timeout, a, n) && FirstCopyAt(s, run, served, timeout, a, n) != []
  }

  ghost predicate ReissuesSomewhere(s: State, run: seq<Moment>, served: seq<set<Compression>>, timeout: int, a: Address)
    requires |served| == |run|
  {
    exists n :: ReissuedAt(s, run, served, timeout, a, n)
  }

  lemma PrefixAt(s: State, run: seq<Moment>, served: seq<set<Compression>>, timeout: int, a: Address, i: nat, k: nat)
    requires |served| == |run| && i < k <= |run|
    ensures CompletedAt(s, run[..k], timeout, i) == CompletedAt(s, run, timeout, i)
    ensures StrayAt(s, run[..k], served[..k], timeout, a, i) == StrayAt(s, run, served, timeout, a, i)
    ensures FirstCopyAt(s, run[..k], served[..k], timeout, a, i) == FirstCopyAt(s, run, served, timeout, a, i)
  {
    assert run[..k][..i] == run[..i];
  }

  lemma OpenAtPrefix(s: State, run: seq<Moment>, served: seq<set<Compression>>, timeout: int, a: Address,
                     m: int, n: int, k: int)
    requires |served| == |run| && 0 <= n <= k <= |run|
    ensures OpenAt(s, run, served, timeout, a, m, n) <==> OpenAt(s, run[..k], served[..k], timeout, a, m, n)
  {
    forall i | 0 <= i < k
      ensures CompletedAt(s, run[..k], timeout, i) == CompletedAt(s, run, timeout, i)
      ensures StrayAt(s, run[..k], served[..k], timeout, a, i) == StrayAt(s, run, served, timeout, a, i)
    {
      PrefixAt(s, run, served, timeout, a, i, k);
    }
  }

  lemma OpenBeforePrefix(s: State, run: seq<Moment>, served: seq<set<Compression>>, timeout: int, a: Address, n: int, k: int)
    requires |served| == |run| && 0 <= n <= k <= |run|
    ensures OpenBefore(s, run, served, timeout, a, n) <==> OpenBefore(s, run[..k], served[..k], timeout, a, n)
  {
    forall m ensures OpenAt(s, run, served, timeout, a, m, n) <==> OpenAt(s, run[..k], served[..k], timeout, a, m, n) {
      OpenAtPrefix(s, run, served, timeout, a, m, n, k);
    }
  }

  lemma OpenAtNext(s: State, run: seq<Moment>, served: seq<set<Compression>>, timeout: int, a: Address, m: int, n: nat)
    requires n < |run| == |served|
    ensures OpenAt(s, run, served, timeout, a, m, n + 1)
       <==> if m == n then StrayAt(s, run, served, timeout, a, n) != []
            else OpenAt(s, run, served, timeout, a, m, n) && CompletedAt(s, run, timeout, n) == []
  {
  }

  lemma OpenBeforeNext(s: State, run: seq<Moment>, served: seq<set<Compression>>, timeout: int, a: Address, n: nat)
    requires n < |run| == |served|
    ensures OpenBefore(s, run, served, timeout, a, n + 1)
       <==> StrayAt(s, run, served, timeout, a, n) != []
            || (OpenBefore(s, run, served, timeout, a, n) && CompletedAt(s, run, timeout, n) == [])
  {
    OpenAtNext(s, run, served, timeout, a, n, n);
    if OpenBefore(s, run, served, timeout, a, n + 1) {
      var m :| OpenAt(s, run, served, timeout, a, m, n + 1);
      OpenAtNext(s, run, served, timeout, a, m, n);
    }
    if OpenBefore(s, run, served, timeout, a, n) {
      var m :| OpenAt(s, run, served, timeout, a, m, n);
      OpenAtNext(s, run, served, timeout, a, m, n);
    }
  }

  lemma {:induction false} OpenInRun(s: State, run: seq<Moment>, served: seq<set<Compression>>, timeout: int, a: Address)
    requires Consistent(s) && |served| == |run|
    ensures Open(TurnsInRun(s, run, served, timeout, a)) <==> OpenBefore(s, run, served, timeout, a, |run|)
  {
    if run != [] {
      var n := |run| - 1;
      var before, e, w := After(s, run[..n], timeout), run[n].event, run[n].world;
      OpenInRun(s, run[..n], served[..n], timeout, a);
      OpenBeforePrefix(s, run, served, timeout, a, n, n);
      OpenBeforeNext(s, run, served, timeout, a, n);
      RunConsistent(s, run[..n], timeout);
      StepReissues(before, e, w, served[n], timeout, a);
      OpenConcat(TurnsInRun(s, run[..n], served[..n], timeout, a), TurnsIn(before, e, w, served[n], a));
    }
  }

  lemma ReissuesStep(s: State, run: seq<Moment>, served: seq<set<Compression>>, timeout: int, a: Address)
    requires |served| == |run| && run != []
    ensures var n := |run| - 1;
            ReissuesSomewhere(s, run, served, timeout, a)
            <==> ReissuesSomewhere(s, run[..n], served[..n], timeout, a) || ReissuedAt(s, run, served, timeout, a, n)
  {
    var n := |run| - 1;
    forall k | 0 <= k < n
      ensures ReissuedAt(s, run, served, timeout, a, k) <==> ReissuedAt(s, run[..n], served[..n], timeout, a, k)
    {
      OpenBeforePrefix(s, run, served, timeout, a, k, n);
      PrefixAt(s, run, served, timeout, a, k, n);
    }
  }

  lemma {:induction false} ReissuesInRun(s: State, run: seq<Moment>, served: seq<set<Compression>>, timeout: int, a: Address)
    requires Consistent(s) && |served| == |run|
    ensures Reissues(TurnsInRun(s, run, served, timeout, a)) <==> ReissuesSomewhere(s, run, served, timeout, a)
  {
    if run != [] {
      var n := |run| - 1;
      var before, e, w := After(s, run[..n], timeout), run[n].event, run[n].world;
      ReissuesInRun(s, run[..n], served[..n], timeout, a);
      OpenInRun(s, run[..n], served[..n], timeout, a);
      OpenBeforePrefix(s, run, served, timeout, a, n, n);
      ReissuesStep(s, run, served, timeout, a);
      RunConsistent(s, run[..n], timeout);
      StepReissues(before, e, w, served[n], timeout, a);
      ReissuesConcat(TurnsInRun(s, run[..n], served[..n], timeout, a), TurnsIn(before, e, w, served[n], a));
    }
  }

  /** Over every run the copies that an address gets of two frames carry different numbers, unless 2^32 frames are
      completed between them, if and only if it never happens that a capture fails on a frame of which the address
      already has a copy and it also gets a copy of the next frame begun. */
  lemma NumbersDifferIff(s: State, run: seq<Moment>, served: seq<set<Compression>>, timeout: int, a: Address)
    requires Consistent(s) && s.Running? && |served| == |run|
    ensures NumbersDiffer(TurnsInRun(s, run, served, timeout, a)) <==> !ReissuesSomewhere(s, run, served, timeout, a)
  {
    RunWellNumbered(s, run, served, timeout, a);
    DifferUnlessReissued(TurnsInRun(s, run, served, timeout, a), s.next);
    ReissuesInRun(s, run, served, timeout, a);
  }

  // ---- The same for the packets themselves ---------------------------------------------------

  ghost predicate Carries(packets: seq<Bytes>, i: int, number: UInt32) {
    0 <= i < |packets| && IsAudio(packets[i]) && AudioNumber(packets[i]) == number
  }

  /** No two audio packets among these carry the same number. */
  ghost predicate NumbersDistinct(packets: seq<Bytes>) {
    forall i, j, number :: Carries(packets, i, number) && Carries(packets, j, number) ==> i == j
  }

  ghost predicate CopyCarries(ts: seq<Turn>, k: int, number: UInt32) {
    Copied(ts, k) && ts[k].frame.number == number
  }

  ghost predicate CopiesDistinct(ts: seq<Turn>) {
    forall j, k, number :: CopyCarries(ts, j, number) && CopyCarries(ts, k, number) ==> j == k
  }

  lemma {:induction false} SomeCopyCarries(ts: seq<Turn>, number: UInt32)
    requires AllGenuine(ts)
    ensures (exists i :: Carries(Copies(ts), i, number)) <==> (exists k :: CopyCarries(ts, k, number))
  {
    if ts != [] {
      var first, rest := ts[0], ts[1..];
      SomeCopyCarries(rest, number);
      if i :| Carries(Copies(rest), i, number) {
        assert Carries(Copies(ts), |first.copy| + i, number);
      }
      if i :| Carries(Copies(ts), i, number) {
        if i < |first.copy| {
          assert CopyCarries(ts, 0, number);
        } else {
          assert Carries(Copies(rest), i - |first.copy|, number);
        }
      }
      if k :| CopyCarries(ts, k, number) {
        if k == 0 {
          assert Carries(Copies(ts), 0, number);
        } else {
          assert CopyCarries(rest, k - 1, number);
        }
      }
      if k :| CopyCarries(rest, k, number) {
        assert CopyCarries(ts, k + 1, number);
      }
    }
  }

  lemma {:induction false} CopiesDistinctIff(ts: seq<Turn>)
    requires AllGenuine(ts)
    ensures NumbersDistinct(Copies(ts)) <==> CopiesDistinct(ts)
  {
    if ts != [] {
      var first, rest := ts[0], ts[1..];
      CopiesDistinctIff(rest);
      SomeCopyCarries(rest, first.frame.number);
      DistinctCons(first.copy, Copies(rest), first.frame.number);
      CopiesDistinctCons(first, rest);
      assert [first] + rest == ts;
    }
  }

  lemma DistinctCons(x: seq<Bytes>, y: seq<Bytes>, number: UInt32)
    requires |x| <= 1 && (x != [] ==> Carries(x, 0, number))
    ensures NumbersDistinct(x + y) <==> NumbersDistinct(y) && (x == [] || !exists i :: Carries(y, i, number))
  {
    if NumbersDistinct(x + y) {
      forall i, j, v | Carries(y, i, v) && Carries(y, j, v) ensures i == j {
        assert Carries(x + y, |x| + i, v) && Carries(x + y, |x| + j, v);
      }
      if i :| x != [] && Carries(y, i, number) {
        assert Carries(x + y, 0, number) && Carries(x + y, |x| + i, number);
      }
    } else {
      var i, j, v :| Carries(x + y, i, v) && Carries(x + y, j, v) && i < j;
      assert Carries(y, j - |x|, v) && (i < |x| || Carries(y, i - |x|, v));
    }
  }

  lemma CopiesDistinctCons(first: Turn, rest: seq<Turn>)
    ensures CopiesDistinct([first] + rest)
       <==> CopiesDistinct(rest) && (first.copy == [] || !exists k :: CopyCarries(rest, k, first.frame.number))
  {
    var ts := [first] + rest;
    if CopiesDistinct(ts) {
      forall j, k, v | CopyCarries(rest, j, v) && CopyCarries(rest, k, v) ensures j == k {
        assert CopyCarries(ts, j + 1, v) && CopyCarries(ts, k + 1, v);
      }
      if k :| first.copy != [] && CopyCarries(rest, k, first.frame.number) {
        assert CopyCarries(ts, 0, first.frame.number) && CopyCarries(ts, k + 1, first.frame.number);
      }
    } else {
      var j, k, v :| CopyCarries(ts, j, v) && CopyCarries(ts, k, v) && j < k;
      assert CopyCarries(rest, k - 1, v) && (j == 0 || CopyCarries(rest, j - 1, v));
    }
  }

  lemma ClashesAreAll(ts: seq<Turn>)
    requires Count(ts) < TWO_TO_THE_32
    ensures CopiesDistinct(ts) <==> NumbersDiffer(ts)
  {
    forall j, k | 0 <= j < k < |ts| ensures Count(ts[j..k]) < TWO_TO_THE_32 {
      CountSlice(ts, j, k);
    }
    if !CopiesDistinct(ts) {
      var j, k, v :| CopyCarries(ts, j, v) && CopyCarries(ts, k, v) && j < k;
      assert Clash(ts, j, k);
    }
    if !NumbersDiffer(ts) {
      var j, k :| Clash(ts, j, k);
      assert CopyCarries(ts, j, ts[j].frame.number) && CopyCarries(ts, k, ts[j].frame.number);
    }
  }

  lemma CountSlice(ts: seq<Turn>, j: nat, k: nat)
    requires j <= k <= |ts|
    ensures Count(ts[j..k]) <= Count(ts)
  {
    var x, y, z := ts[..j], ts[j..k], ts[k..];
    assert ts == (x + y) + z;
    CountConcat(x + y, z);
    CountConcat(x, y);
  }

  /** In a run that completes fewer than 2^32 frames the audio packets sent to an address all carry different numbers
      if and only if no such reissue happens. */
  lemma PacketNumbersDistinctIff(s: State, run: seq<Moment>, served: seq<set<Compression>>, timeout: int, a: Address)
    requires Consistent(s) && s.Running? && |served| == |run| && |CompletedInRun(s, run, timeout)| < TWO_TO_THE_32
    ensures NumbersDistinct(AudioOnly(SentInRun(s, run, served, timeout, a)))
       <==> !ReissuesSomewhere(s, run, served, timeout, a)
  {
    NumbersDifferIff(s, run, served, timeout, a);
    CopiesAreTheAudio(s, run, served, timeout, a);
    RunWellNumbered(s, run, served, timeout, a);
    CopiesDistinctIff(TurnsInRun(s, run, served, timeout, a));
    ClashesAreAll(TurnsInRun(s, run, served, timeout, a));
  }
}
