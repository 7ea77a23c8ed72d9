/** How the capture loop makes up for ticks without audio. Durations are in the source's 100 ns units. */
module Silence {

  /** The timer period is half the buffer duration, rounded down. */
  function Period(bufferDuration: nat): nat {
    bufferDuration / 2
  }

  /** Ticks are given by the size of the packet each found; this counts the silent ones since the last packet. */
  function SilentTicks(ticks: seq<nat>): nat {
    if ticks == [] || ticks[|ticks| - 1] != 0 then 0 else SilentTicks(ticks[..|ticks| - 1]) + 1
  }

  /** How many silent ticks in a row it takes until their time fills the buffer: two, or three if halving it lost a
      unit. None if the period is zero and the buffer is not. */
  function Patience(bufferDuration: nat): nat {
    if bufferDuration == 0 then 1 else if bufferDuration % 2 == 0 then 2 else 3
  }

  /** Whether the last tick yields a silence buffer, in closed form. */
  predicate Yields(bufferDuration: nat, ticks: seq<nat>) {
    ticks != [] && bufferDuration != 1 && SilentTicks(ticks) >= Patience(bufferDuration)
  }

  function Uncompensated(bufferDuration: nat, ticks: seq<nat>): nat {
    var k, p := SilentTicks(ticks), Patience(bufferDuration);
    Period(bufferDuration) * (if k < p then k else p - 1)
  }

  /** The loop itself: accumulate a period per silent tick, yield once the sum reaches the buffer duration. */
  method Capture(bufferDuration: nat, ticks: seq<nat>) returns (silences: seq<bool>, uncompensated: nat)
    ensures |silences| == |ticks|
    ensures forall i :: 0 <= i < |ticks| ==> (silences[i] <==> Yields(bufferDuration, ticks[..i + 1]))
    ensures uncompensated == Uncompensated(bufferDuration, ticks)
  {
    var timerPeriod := bufferDuration / 2;
    silences, uncompensated := [], 0;
    for i := 0 to |ticks|
      invariant |silences| == i
      invariant forall j :: 0 <= j < i ==> (silences[j] <==> Yields(bufferDuration, ticks[..j + 1]))
      invariant uncompensated == Uncompensated(bufferDuration, ticks[..i])
    {
      assert ticks[..i + 1][..i] == ticks[..i];
      var packetLength := ticks[i];
      var silence := false;
      if packetLength == 0 {
        uncompensated := uncompensated + timerPeriod;
        if uncompensated >= bufferDuration {
          silence := true;
          uncompensated := uncompensated - timerPeriod;
        }
      } else {
        uncompensated := 0;
      }
      silences := silences + [silence];
    }
    assert ticks[..|ticks|] == ticks;
  }

  /** The silence buffers yielded since the last packet. */
  function Yielded(bufferDuration: nat, ticks: seq<nat>): nat {
    if ticks == [] || ticks[|ticks| - 1] != 0 then 0
    else Yielded(bufferDuration, ticks[..|ticks| - 1]) + (if Yields(bufferDuration, ticks) then 1 else 0)
  }

  /** The k-th silent tick in a row has brought max(0, k - patience + 1) silence buffers; the time not made up for and
      the time made up for are together exactly the silent time; what is not made up for stays below the buffer.
      The patience is the buffer duration over the period, rounded up. */
  lemma {:induction false} SilenceAccounting(bufferDuration: nat, ticks: seq<nat>)
    requires bufferDuration != 1
    ensures var k, p := SilentTicks(ticks), Patience(bufferDuration);
            && Yielded(bufferDuration, ticks) == (if k < p then 0 else k - p + 1)
            && Uncompensated(bufferDuration, ticks) + Period(bufferDuration) * Yielded(bufferDuration, ticks)
               == Period(bufferDuration) * k
            && (bufferDuration > 0 ==> Uncompensated(bufferDuration, ticks) < bufferDuration)
            && (bufferDuration > 0 ==> Period(bufferDuration) * (p - 1) < bufferDuration <= Period(bufferDuration) * p)
  {
    if ticks != [] && ticks[|ticks| - 1] == 0 {
      SilenceAccounting(bufferDuration, ticks[..|ticks| - 1]);
    }
    var k, p := SilentTicks(ticks), Patience(bufferDuration);
    if p <= k {
      assert Period(bufferDuration) * (p - 1) + Period(bufferDuration) * (k - p + 1) == Period(bufferDuration) * k;
    }
  }

  /** The two degenerate durations: with no buffer every silent tick yields, with a single unit none ever does. */
  lemma DegenerateDurations(ticks: seq<nat>)
    requires ticks != []
    ensures Yields(0, ticks) <==> ticks[|ticks| - 1] == 0
    ensures !Yields(1, ticks)
  {
  }

  /** Packets wipe the slate: what came before one does not matter. */
  lemma {:induction false} PacketResets(bufferDuration: nat, before: seq<nat>, packet: nat, after: seq<nat>)
    requires packet != 0
    ensures SilentTicks(before + [packet] + after) == SilentTicks(after)
    ensures Uncompensated(bufferDuration, before + [packet] + after) == Uncompensated(bufferDuration, after)
  {
    var all := before + [packet] + after;
    if after != [] {
      assert all[..|all| - 1] == before + [packet] + after[..|after| - 1];
      PacketResets(bufferDuration, before, packet, after[..|after| - 1]);
    }
  }
}
