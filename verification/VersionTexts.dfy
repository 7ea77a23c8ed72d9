/** What a version text means: which numbers are read out of it, and how two such texts compare. */
module VersionTexts {
  import opened AudioTypes
  import opened Decimals
  import opened Versions

  ghost predicate NoDigits(s: string) {
    forall i :: 0 <= i < |s| ==> !('0' <= s[i] <= '9')
  }

  /** Three numbers behind any text without digits. */
  function Three(head: string, a: nat, b: nat, c: nat): string {
    head + Decimal(a) + "." + Decimal(b) + "." + Decimal(c)
  }

  // ---- Scanning ------------------------------------------------------------------------------

  lemma {:induction false} DigitsEndAt(s: string, i: nat, j: nat)
    requires i <= j <= |s| && AllDigits(s[i..j]) && (j < |s| ==> !IsDigit(s[j]))
    ensures DigitsEnd(s, i) == j
    decreases j - i
  {
    if i < j {
      assert s[i..j][0] == s[i] && s[i + 1..j] == s[i..j][1..];
      DigitsEndAt(s, i + 1, j);
    }
  }

  lemma {:induction false} SearchSkips(s: string, k: nat, start: nat)
    requires k <= start <= |s| && (forall i :: k <= i < start ==> !IsDigit(s[i])) && MatchAt(s, start).Some?
    ensures Search(s, k) == MatchAt(s, start)
    decreases start - k
  {
    if k < start {
      assert DigitsEnd(s, k) == k;
      SearchSkips(s, k + 1, start);
    }
  }

  /** The number `n` is written from `i` up to `j`, where the digits end. */
  ghost predicate NumberFrom(s: string, i: nat, j: nat, n: nat) {
    i < j <= |s| && s[i..j] == Decimal(n) && (j < |s| ==> !IsDigit(s[j]))
  }

  lemma NumberEndsAt(s: string, i: nat, j: nat, n: nat)
    requires NumberFrom(s, i, j, n)
    ensures DigitsEnd(s, i) == j && DecimalValue(s[i..j]) == n
  {
    DigitsEndAt(s, i, j);
    DecimalRoundTrip(n);
  }

  /** Three numbers from `i` on, with dots at `j` and `k`, ending at `e`. */
  ghost predicate ThreeFrom(s: string, i: nat, j: nat, k: nat, e: nat, a: nat, b: nat, c: nat) {
    && NumberFrom(s, i, j, a) && j < |s| && s[j] == '.'
    && NumberFrom(s, j + 1, k, b) && k < |s| && s[k] == '.'
    && NumberFrom(s, k + 1, e, c)
  }

  function MatchOf(s: string, i: nat, j: nat, k: nat, e: nat): Match
    requires e <= |s|
  {
    var dot := e < |s| && s[e] == '.';
    Match(i, j, k, e, dot, DigitsEnd(s, if dot then e + 1 else e))
  }

  lemma MatchAtThree(s: string, i: nat, j: nat, k: nat, e: nat)
    requires i < j && j + 1 < k && k + 1 < e <= |s| && s[j] == '.' && s[k] == '.'
    requires DigitsEnd(s, i) == j && DigitsEnd(s, j + 1) == k && DigitsEnd(s, k + 1) == e
    ensures MatchAt(s, i) == Some(MatchOf(s, i, j, k, e))
  {
  }

  /** The first three numbers behind a text without digits are found where they are written. */
  lemma ThreeFound(s: string, i: nat, j: nat, k: nat, e: nat, a: nat, b: nat, c: nat)
    requires ThreeFrom(s, i, j, k, e, a, b, c) && forall n :: 0 <= n < i ==> !IsDigit(s[n])
    ensures var m := MatchOf(s, i, j, k, e);
            && Versions.Fits(s, m) && Parse(s).Some?
            && Parse(s).value.parts[0] == Some(a) && Parse(s).value.parts[1] == Some(b) && Parse(s).value.parts[2] == Some(c)
            && Parse(s).value.parts[3]
               == (if m.FourthStart() < m.e4 then Some(DecimalValue(s[m.FourthStart()..m.e4])) else None)
            && Parse(s).value.suffix == (m.e4 < |s|)
  {
    NumberEndsAt(s, i, j, a);
    NumberEndsAt(s, j + 1, k, b);
    NumberEndsAt(s, k + 1, e, c);
    MatchAtThree(s, i, j, k, e);
    SearchSkips(s, 0, i);
    SearchFinds(s, 0);
  }

  // ---- Meanings ------------------------------------------------------------------------------

  lemma Join3<T>(x: seq<T>, y: seq<T>, z: seq<T>)
    ensures (x + y) + z == x + (y + z)
  {
  }

  lemma PieceAt(x: string, y: string, z: string)
    ensures (x + y + z)[|x|..|x| + |y|] == y && (z != "" ==> (x + y + z)[|x| + |y|] == z[0])
    ensures (x + y + z)[|x| + |y|..] == z
  {
  }

  lemma NumberWritten(before: string, n: nat, after: string)
    requires after != "" ==> !IsDigit(after[0])
    ensures var s, i, j := before + Decimal(n) + after, |before|, |before| + |Decimal(n)|;
            NumberFrom(s, i, j, n) && (after != "" ==> j < |s| && s[j] == after[0])
  {
    PieceAt(before, Decimal(n), after);
  }

  /** Where the pieces of such a text lie. */
  lemma ThreeWritten(head: string, a: nat, b: nat, c: nat, tail: string)
    requires tail != "" ==> !IsDigit(tail[0])
    ensures var s, i, j := Three(head, a, b, c) + tail, |head|, |head| + |Decimal(a)|;
            var k := j + 1 + |Decimal(b)|;
            var e := k + 1 + |Decimal(c)|;
            && ThreeFrom(s, i, j, k, e, a, b, c) && (forall n :: 0 <= n < i ==> s[n] == head[n])
            && e == |Three(head, a, b, c)| && s[e..] == tail
  {
    var x, y, z := Decimal(a), Decimal(b), Decimal(c);
    var upToC, upToB := head + x + "." + y + ".", head + x + ".";
    NumberWritten(upToC, c, tail);
    PieceAt(upToC, z, tail);
    Join3(upToB + y, ".", z);
    Join3(upToB + y, "." + z, tail);
    NumberWritten(upToB, b, "." + z + tail);
    Join3(head + x, ".", y);
    Join3(head + x, "." + y, "." + z + tail);
    NumberWritten(head, a, "." + y + ("." + z + tail));
  }

  lemma FourFound(s: string, i: nat, j: nat, k: nat, e: nat, f: nat, a: nat, b: nat, c: nat, d: nat)
    requires ThreeFrom(s, i, j, k, e, a, b, c) && forall n :: 0 <= n < i ==> !IsDigit(s[n])
    requires e < |s| && s[e] == '.' && NumberFrom(s, e + 1, f, d)
    ensures Parse(s) == Some(Version([Some(a), Some(b), Some(c), Some(d)], f < |s|))
  {
    ThreeFound(s, i, j, k, e, a, b, c);
    NumberEndsAt(s, e + 1, f, d);
    assert Parse(s).value.parts == [Some(a), Some(b), Some(c), Some(d)];
  }

  /** Four numbers: all four are read, and whatever follows them is a suffix. */
  lemma FourNumbers(head: string, a: nat, b: nat, c: nat, d: nat, tail: string)
    requires NoDigits(head) && (tail != "" ==> !('0' <= tail[0] <= '9'))
    ensures Parse(Three(head, a, b, c) + "." + Decimal(d) + tail)
         == Some(Version([Some(a), Some(b), Some(c), Some(d)], tail != ""))
  {
    var three, x := Three(head, a, b, c), Decimal(d);
    var s := three + "." + x + tail;
    Join3(three, ".", x);
    Join3(three, "." + x, tail);
    ThreeWritten(head, a, b, c, "." + x + tail);
    NumberWritten(three + ".", d, tail);
    var j := |head| + |Decimal(a)|;
    FourFound(s, |head|, j, j + 1 + |Decimal(b)|, |three|, |three| + 1 + |x|, a, b, c, d);
  }

  /** Three numbers and a tail that does not go on with a dot: there is no fourth number, and the tail is the suffix. */
  lemma ThreeNumbers(head: string, a: nat, b: nat, c: nat, tail: string)
    requires NoDigits(head) && (tail != "" ==> !('0' <= tail[0] <= '9') && tail[0] != '.')
    ensures Parse(Three(head, a, b, c) + tail) == Some(Version([Some(a), Some(b), Some(c), None], tail != ""))
  {
    var three := Three(head, a, b, c);
    var s := three + tail;
    ThreeWritten(head, a, b, c, tail);
    var j := |head| + |Decimal(a)|;
    ThreeFound(s, |head|, j, j + 1 + |Decimal(b)|, |three|, a, b, c);
    DigitsEndAt(s, |three|, |three|);
  }

  /** Three numbers, a dot and no fourth number: the dot belongs to the version, what follows it is the suffix. */
  lemma ThreeNumbersAndDot(head: string, a: nat, b: nat, c: nat, tail: string)
    requires NoDigits(head) && (tail != "" ==> !('0' <= tail[0] <= '9'))
    ensures Parse(Three(head, a, b, c) + "." + tail) == Some(Version([Some(a), Some(b), Some(c), None], tail != ""))
  {
    var three := Three(head, a, b, c);
    var s := three + ("." + tail);
    Join3(three, ".", tail);
    ThreeWritten(head, a, b, c, "." + tail);
    var j := |head| + |Decimal(a)|;
    ThreeFound(s, |head|, j, j + 1 + |Decimal(b)|, |three|, a, b, c);
    PieceAt(three + ".", "", tail);
    DigitsEndAt(s, |three| + 1, |three| + 1);
  }

  /** A text is no version exactly if the pattern matches nowhere in it. */
  lemma NoVersion(s: string)
    ensures Parse(s) == None <==> forall m :: !Versions.Fits(s, m)
  {
    SearchIsMatch(s);
  }

  // ---- Comparisons ---------------------------------------------------------------------------

  /** A version text of three or four numbers. */
  function Text(head: string, x: seq<nat>, tail: string): string
    requires |x| in {3, 4}
  {
    if |x| == 3 then Three(head, x[0], x[1], x[2]) + tail
    else Three(head, x[0], x[1], x[2]) + "." + Decimal(x[3]) + tail
  }

  ghost predicate WellWritten(head: string, x: seq<nat>, tail: string) {
    && |x| in {3, 4} && NoDigits(head) && (tail != "" ==> !('0' <= tail[0] <= '9'))
    && (|x| == 3 && tail != "" ==> tail[0] != '.')
  }

  /** All numbers before number `i` agree, both have one, and one of the two does not fit 32 bits. */
  ghost predicate TooBigAt(x: seq<nat>, y: seq<nat>, i: nat) {
    i < |x| && i < |y| && x[..i] == y[..i] && (x[i] >= 0x1_0000_0000 || y[i] >= 0x1_0000_0000)
  }

  ghost predicate TooBig(x: seq<nat>, y: seq<nat>) {
    exists i: nat :: TooBigAt(x, y, i)
  }

  /** At number `i` the one is smaller or already at its end. */
  ghost predicate BeforeAt(x: seq<nat>, y: seq<nat>, i: nat) {
    i < |y| && i <= |x| && x[..i] == y[..i] && (i == |x| || x[i] < y[i])
  }

  /** In the dictionary's order, number by number. */
  ghost predicate Before(x: seq<nat>, y: seq<nat>) {
    exists i: nat :: BeforeAt(x, y, i)
  }

  function VersionFrom(x: seq<nat>, suffix: bool): (v: Version)
    requires |x| in {3, 4}
    ensures Proper(v)
  {
    Version([Some(x[0]), Some(x[1]), Some(x[2]), if |x| == 4 then Some(x[3]) else None], suffix)
  }

  lemma TextParses(head: string, x: seq<nat>, tail: string)
    requires WellWritten(head, x, tail)
    ensures Parse(Text(head, x, tail)) == Some(VersionFrom(x, tail != ""))
  {
    if |x| == 3 {
      ThreeNumbers(head, x[0], x[1], x[2], tail);
    } else {
      FourNumbers(head, x[0], x[1], x[2], x[3], tail);
    }
  }

  lemma {:induction false} NewerByNumbers(x: seq<nat>, y: seq<nat>, xSuffix: bool, ySuffix: bool, i: nat)
    requires |x| in {3, 4} && |y| in {3, 4} && i <= |x| && i <= |y| && x[..i] == y[..i]
    requires forall n: nat :: n < i ==> !TooBigAt(x, y, n)
    ensures Newer(VersionFrom(x, xSuffix), VersionFrom(y, ySuffix), i)
         == if TooBig(x, y) then -3
            else if Before(x, y) || (x == y && (|x| == 3 || (xSuffix && !ySuffix))) then 1 else 0
    decreases 4 - i
  {
    if i < |x| && i < |y| && x[i] == y[i] < 0x1_0000_0000 {
      assert x[..i + 1] == x[..i] + [x[i]] && y[..i + 1] == y[..i] + [y[i]];
      NewerByNumbers(x, y, xSuffix, ySuffix, i + 1);
    } else if i == |x| || i == |y| || x[i] != y[i] {
      DecidedAt(x, y, i);
      TooBigIsDecided(x, y, i);
    } else {
      assert TooBigAt(x, y, i);
    }
  }

  lemma TooBigIsDecided(x: seq<nat>, y: seq<nat>, i: nat)
    requires i <= |x| && i <= |y| && x[..i] == y[..i] && (i == |x| || i == |y| || x[i] != y[i])
    requires forall n: nat :: n < i ==> !TooBigAt(x, y, n)
    ensures TooBig(x, y) <==> TooBigAt(x, y, i)
  {
    forall n: nat | TooBigAt(x, y, n) ensures n == i {
      AgreeUpTo(x, y, n);
    }
  }

  lemma AgreeUpTo(x: seq<nat>, y: seq<nat>, i: nat)
    requires i <= |x| && i <= |y| && x[..i] == y[..i]
    ensures forall n :: 0 <= n < i ==> x[n] == y[n]
  {
    assert forall n :: 0 <= n < i ==> x[n] == x[..i][n] && y[n] == y[..i][n];
  }

  /** The first place where two sequences do not both go on with the same number decides. */
  lemma DecidedAt(x: seq<nat>, y: seq<nat>, i: nat)
    requires i <= |x| && i <= |y| && x[..i] == y[..i] && (i == |x| || i == |y| || x[i] != y[i])
    ensures Before(x, y) <==> BeforeAt(x, y, i)
    ensures x == y <==> i == |x| == |y|
  {
    forall n: nat | BeforeAt(x, y, n) ensures n == i {
      AgreeUpTo(x, y, i);
      AgreeUpTo(x, y, n);
    }
    assert i == |x| ==> x[..i] == x;
    assert i == |y| ==> y[..i] == y;
  }

  /** Comparing two such texts compares their numbers, as long as those that decide fit 32 bits; only equal numbers let
      the suffixes decide, and equal three numbers count as newer. */
  method CompareTexts(head: string, x: seq<nat>, tail: string, head': string, y: seq<nat>, tail': string)
    returns (result: int)
    requires WellWritten(head, x, tail) && WellWritten(head', y, tail')
    ensures result == if TooBig(x, y) then -3
                      else if Before(x, y) || (x == y && (|x| == 3 || (tail != "" && tail' == ""))) then 1 else 0
  {
    TextParses(head, x, tail);
    TextParses(head', y, tail');
    NewerByNumbers(x, y, tail != "", tail' != "", 0);
    result := IsNewerVersion(Text(head, x, tail), Text(head', y, tail'));
  }
}
