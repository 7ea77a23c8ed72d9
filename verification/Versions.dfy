/** Comparing release versions: finding the version inside a text, and what "newer" comes down to. */
module Versions {
  import opened AudioTypes
  import opened Decimals

  // ---- The pattern  (\d+)\.(\d+)\.(\d+)\.?(\d+)?  --------------------------------------------

  /** A match begins at `start`; the first three numbers end at `e1`, `e2`, `e3`; `dot` says whether the optional dot
      was taken, and `e4` is the end of the match, which lies behind the dot exactly if there is a fourth number. */
  datatype Match = Match(start: nat, e1: nat, e2: nat, e3: nat, dot: bool, e4: nat) {
    function FourthStart(): nat {
      if dot then e3 + 1 else e3
    }
  }

  predicate IsNumber(s: string, i: nat, j: nat) {
    i < j <= |s| && AllDigits(s[i..j])
  }

  predicate Fits(s: string, m: Match) {
    && IsNumber(s, m.start, m.e1) && m.e1 < |s| && s[m.e1] == '.'
    && IsNumber(s, m.e1 + 1, m.e2) && m.e2 < |s| && s[m.e2] == '.'
    && IsNumber(s, m.e2 + 1, m.e3)
    && (m.dot ==> m.e3 < |s| && s[m.e3] == '.')
    && m.FourthStart() <= m.e4 <= |s| && AllDigits(s[m.FourthStart()..m.e4])
  }

  /** The search tries starts from the left, and every greedy piece long before short. */
  predicate TriedBefore(m: Match, n: Match) {
    || m.start < n.start
    || (m.start == n.start && (|| m.e1 > n.e1
    || (m.e1 == n.e1 && (|| m.e2 > n.e2
    || (m.e2 == n.e2 && (|| m.e3 > n.e3
    || (m.e3 == n.e3 && (|| (m.dot && !n.dot)
    || (m.dot == n.dot && m.e4 > n.e4)))))))))
  }

  ghost predicate IsMatch(s: string, m: Match) {
    Fits(s, m) && forall n :: Fits(s, n) && n != m ==> TriedBefore(m, n)
  }

  /** The end of the digits that begin at `i`. */
  function DigitsEnd(s: string, i: nat): (j: nat)
    requires i <= |s|
    ensures i <= j <= |s| && AllDigits(s[i..j]) && (j < |s| ==> !IsDigit(s[j]))
    decreases |s| - i
  {
    if i < |s| && IsDigit(s[i]) then
      var j := DigitsEnd(s, i + 1);
      assert s[i..j] == [s[i]] + s[i + 1..j];
      j
    else i
  }

  function MatchAt(s: string, start: nat): Option<Match>
    requires start <= |s|
  {
    var e1 := DigitsEnd(s, start);
    if e1 == start || e1 == |s| || s[e1] != '.' then None
    else
      var e2 := DigitsEnd(s, e1 + 1);
      if e2 == e1 + 1 || e2 == |s| || s[e2] != '.' then None
      else
        var e3 := DigitsEnd(s, e2 + 1);
        if e3 == e2 + 1 then None
        else
          var dot := e3 < |s| && s[e3] == '.';
          Some(Match(start, e1, e2, e3, dot, DigitsEnd(s, if dot then e3 + 1 else e3)))
  }

  function Search(s: string, start: nat): Option<Match>
    requires start <= |s|
    decreases |s| - start
  {
    var m := MatchAt(s, start);
    if m.Some? || start == |s| then m else Search(s, start + 1)
  }

  lemma NumberEnd(s: string, i: nat, j: nat)
    requires IsNumber(s, i, j)
    ensures j <= DigitsEnd(s, i) && (j < |s| && s[j] == '.' ==> j == DigitsEnd(s, i))
  {
    var k := DigitsEnd(s, i);
    if j < k {
      assert s[i..k][j - i] == s[j];
    }
  }

  /** At one starting point the scanner finds the first match to be tried, if there is any. */
  lemma MatchAtIsFirst(s: string, n: Match)
    requires Fits(s, n)
    ensures var m := MatchAt(s, n.start);
            m.Some? && Fits(s, m.value) && m.value.start == n.start && (n == m.value || TriedBefore(m.value, n))
  {
    NumberEnd(s, n.start, n.e1);
    NumberEnd(s, n.e1 + 1, n.e2);
    NumberEnd(s, n.e2 + 1, n.e3);
    var m := MatchAt(s, n.start).value;
    var f := n.FourthStart();
    if n.e3 == m.e3 && n.dot == m.dot && f < n.e4 {
      NumberEnd(s, f, n.e4);
    }
  }

  lemma {:induction false} SearchFinds(s: string, start: nat)
    requires start <= |s|
    ensures var m := Search(s, start);
            && (m.Some? ==> start <= m.value.start <= |s| && MatchAt(s, m.value.start) == m && Fits(s, m.value))
            && (forall k :: start <= k <= |s| && MatchAt(s, k).Some? ==> m.Some? && m.value.start <= k)
    decreases |s| - start
  {
    if MatchAt(s, start).None? && start < |s| {
      SearchFinds(s, start + 1);
    }
  }

  /** The leftmost greedy scan finds exactly the match the pattern search prescribes, or none if there is none. */
  lemma SearchIsMatch(s: string)
    ensures Search(s, 0).Some? ==> IsMatch(s, Search(s, 0).value)
    ensures Search(s, 0).None? ==> forall n :: !Fits(s, n)
  {
    SearchFinds(s, 0);
    forall n | Fits(s, n)
      ensures Search(s, 0).Some? && (n == Search(s, 0).value || TriedBefore(Search(s, 0).value, n))
    {
      MatchAtIsFirst(s, n);
    }
  }

  // ---- Versions ------------------------------------------------------------------------------

  /** The four numbers, the last of which may be missing, and whether any text follows the match. */
  datatype Version = Version(parts: seq<Option<nat>>, suffix: bool)

  predicate Proper(v: Version) {
    |v.parts| == 4 && forall i :: 0 <= i < 3 ==> v.parts[i].Some?
  }

  function VersionOf(s: string, m: Match): (v: Version)
    requires Fits(s, m)
    ensures Proper(v)
  {
    Version([Some(DecimalValue(s[m.start..m.e1])), Some(DecimalValue(s[m.e1 + 1..m.e2])),
             Some(DecimalValue(s[m.e2 + 1..m.e3])),
             if m.FourthStart() < m.e4 then Some(DecimalValue(s[m.FourthStart()..m.e4])) else None],
            m.e4 < |s|)
  }

  function Parse(s: string): (v: Option<Version>)
    ensures v.Some? ==> Proper(v.value)
  {
    SearchFinds(s, 0);
    var m := Search(s, 0);
    if m.None? then None else Some(VersionOf(s, m.value))
  }

  /** Reading a number fails if it does not fit an unsigned 32-bit integer. */
  predicate Readable(n: nat) {
    n < TWO_TO_THE_32
  }

  /** The comparison as the code makes it. */
  method IsNewerVersion(current: string, latest: string) returns (result: int)
    ensures Parse(current).None? ==> result == -1
    ensures Parse(current).Some? && Parse(latest).None? ==> result == -2
    ensures Parse(current).Some? && Parse(latest).Some? ==> result == Newer(Parse(current).value, Parse(latest).value, 0)
  {
    var currentMatch := Parse(current);
    if currentMatch.None? {
      return -1;
    }
    var latestMatch := Parse(latest);
    if latestMatch.None? {
      return -2;
    }
    var c, l := currentMatch.value, latestMatch.value;
    for i := 0 to 4
      invariant Newer(c, l, 0) == Newer(c, l, i)
    {
      if !(c.parts[i].Some? && l.parts[i].Some?) {
        return if c.parts[i].Some? then 0 else 1;
      }
      var curV, latestV := c.parts[i].value, l.parts[i].value;
      if !Readable(curV) || !Readable(latestV) {
        return -3;
      }
      if curV < latestV {
        return 1;
      } else if latestV < curV {
        return 0;
      }
    }
    if c.suffix && !l.suffix {
      return 1;
    }
    result := 0;
  }

  function Newer(c: Version, l: Version, i: nat): int
    requires Proper(c) && Proper(l) && i <= 4
    decreases 4 - i
  {
    if i == 4 then if c.suffix && !l.suffix then 1 else 0
    else if c.parts[i].None? then 1
    else if l.parts[i].None? then 0
    else
      var x, y := c.parts[i].value, l.parts[i].value;
      if !Readable(x) || !Readable(y) then -3
      else if x < y then 1
      else if y < x then 0
      else Newer(c, l, i + 1)
  }

  // ---- The order it is meant to be -----------------------------------------------------------

  /** A missing number comes before every number. */
  predicate PartLess(x: Option<nat>, y: Option<nat>) {
    y.Some? && (x.None? || x.value < y.value)
  }

  ghost predicate SameUpTo(a: Version, b: Version, i: nat)
    requires Proper(a) && Proper(b) && i <= 4
  {
    forall k :: 0 <= k < i ==> a.parts[k] == b.parts[k]
  }

  ghost predicate DiffersAt(a: Version, b: Version, i: nat)
    requires Proper(a) && Proper(b)
  {
    i < 4 && SameUpTo(a, b, i) && a.parts[i] != b.parts[i]
  }

  /** Number by number, then a version with a suffix before the same one without. */
  ghost predicate Less(a: Version, b: Version)
    requires Proper(a) && Proper(b)
  {
    || (exists i: nat :: DiffersAt(a, b, i) && PartLess(a.parts[i], b.parts[i]))
    || (a.parts == b.parts && a.suffix && !b.suffix)
  }

  /** The versions agree before their number `i`, both have it, and one of the two cannot be read. */
  ghost predicate UnreadableAt(a: Version, b: Version, i: nat)
    requires Proper(a) && Proper(b)
  {
    && i < 4 && SameUpTo(a, b, i) && a.parts[i].Some? && b.parts[i].Some?
    && !(Readable(a.parts[i].value) && Readable(b.parts[i].value))
  }

  lemma {:induction false} NewerFrom(c: Version, l: Version, i: nat)
    requires Proper(c) && Proper(l) && i <= 4 && SameUpTo(c, l, i)
    requires forall j :: 0 <= j < i ==> c.parts[j].Some? && Readable(c.parts[j].value)
    ensures Newer(c, l, i) in {-3, 0, 1}
    ensures Newer(c, l, i) == -3 <==> exists j: nat :: UnreadableAt(c, l, j)
    ensures Newer(c, l, i) != -3 ==>
              (Newer(c, l, i) == 1 <==> Less(c, l) || (c.parts == l.parts && c.parts[3].None?))
    decreases 4 - i
  {
    if i == 4 {
      assert c.parts == l.parts;
    } else if c.parts[i] != l.parts[i] {
      assert DiffersAt(c, l, i);
      OnlyOneDifference(c, l, i);
      assert UnreadableAt(c, l, i) <==> Newer(c, l, i) == -3;
      SameBefore(c, l, i);
    } else if c.parts[i].Some? && Readable(c.parts[i].value) {
      NewerFrom(c, l, i + 1);
    } else {
      assert c.parts[i].None? ==> i == 3 && c.parts == l.parts;
      assert c.parts[i].Some? ==> UnreadableAt(c, l, i);
      SameBefore(c, l, i);
    }
  }

  /** Past a difference the versions no longer agree, and before `i` everything can be read. */
  lemma SameBefore(c: Version, l: Version, i: nat)
    requires Proper(c) && Proper(l) && i < 4 && SameUpTo(c, l, i)
    requires forall j :: 0 <= j < i ==> c.parts[j].Some? && Readable(c.parts[j].value)
    ensures forall j: nat :: UnreadableAt(c, l, j) ==> i <= j && (c.parts[i] != l.parts[i] ==> j == i)
  {
  }

  lemma OnlyOneDifference(a: Version, b: Version, i: nat)
    requires Proper(a) && Proper(b) && DiffersAt(a, b, i)
    ensures forall j: nat :: DiffersAt(a, b, j) ==> j == i
    ensures a.parts != b.parts
    ensures Less(a, b) <==> PartLess(a.parts[i], b.parts[i])
  {
  }

  /** The whole contract on texts: -1 or -2 if a version cannot be found, -3 if the first numbers that decide cannot be
      read, and otherwise 1 exactly if the latest version is greater, or if both are the same three numbers. */
  lemma NewerExactly(c: Version, l: Version)
    requires Proper(c) && Proper(l)
    ensures Newer(c, l, 0) in {-3, 0, 1}
    ensures Newer(c, l, 0) == -3 <==> exists j: nat :: UnreadableAt(c, l, j)
    ensures Newer(c, l, 0) == 1 <==>
              (forall j: nat :: !UnreadableAt(c, l, j)) && (Less(c, l) || (c.parts == l.parts && c.parts[3].None?))
  {
    NewerFrom(c, l, 0);
  }

  /** `Less` is a strict order, and any two versions compare unless numbers and presence of a suffix coincide. */
  lemma LessIsStrictOrder(a: Version, b: Version, c: Version)
    requires Proper(a) && Proper(b) && Proper(c)
    ensures !Less(a, a)
    ensures Less(a, b) ==> !Less(b, a)
    ensures Less(a, b) && Less(b, c) ==> Less(a, c)
    ensures Less(a, b) || Less(b, a) || (a.parts == b.parts && a.suffix == b.suffix)
  {
    Compared(a, b);
    Compared(b, c);
    Compared(a, c);
    if Less(a, b) && Less(b, c) && a.parts != b.parts && b.parts != c.parts {
      var i: nat :| DiffersAt(a, b, i) && PartLess(a.parts[i], b.parts[i]);
      var j: nat :| DiffersAt(b, c, j) && PartLess(b.parts[j], c.parts[j]);
      var k := if i < j then i else j;
      assert DiffersAt(a, c, k) && PartLess(a.parts[k], c.parts[k]);
    }
  }

  /** Different numbers differ at one first place, and there the order is decided. */
  lemma Compared(a: Version, b: Version)
    requires Proper(a) && Proper(b)
    ensures a.parts == b.parts ==> forall i: nat :: !DiffersAt(a, b, i) && !DiffersAt(b, a, i)
    ensures a.parts != b.parts ==> (Less(a, b) <==> !Less(b, a))
  {
    if a.parts != b.parts {
      var i := FirstDifference(a, b, 0);
      OnlyOneDifference(a, b, i);
      assert DiffersAt(b, a, i);
      OnlyOneDifference(b, a, i);
    }
  }

  lemma {:induction false} FirstDifference(a: Version, b: Version, i: nat) returns (k: nat)
    requires Proper(a) && Proper(b) && i <= 4 && SameUpTo(a, b, i) && a.parts != b.parts
    ensures DiffersAt(a, b, k)
    decreases 4 - i
  {
    if i < 4 && a.parts[i] != b.parts[i] {
      k := i;
    } else {
      assert i == 4 ==> a.parts == b.parts;
      k := FirstDifference(a, b, i + 1);
    }
  }

  /** So apart from equal three-part versions the result 1 never goes both ways, and it carries over. */
  lemma NewerIsAsymmetric(a: Version, b: Version)
    requires Proper(a) && Proper(b)
    ensures Newer(a, b, 0) == 1 && Newer(b, a, 0) == 1 <==>
              a.parts == b.parts && a.parts[3].None? && forall j: nat :: !UnreadableAt(a, b, j)
  {
    NewerExactly(a, b);
    NewerExactly(b, a);
    LessIsStrictOrder(a, b, a);
    assert a.parts == b.parts ==> forall j: nat :: UnreadableAt(a, b, j) <==> UnreadableAt(b, a, j);
  }

  lemma NewerIsTransitive(a: Version, b: Version, c: Version)
    requires Proper(a) && Proper(b) && Proper(c)
    requires Newer(a, b, 0) == 1 && Newer(b, c, 0) == 1
    ensures Newer(a, c, 0) == 1
  {
  }

  /** A text compared with itself: three equal numbers count as newer, four do not. */
  lemma SameTextIsNewer()
    ensures Parse("1.2.3") == Some(Version([Some(1), Some(2), Some(3), None], false))
    ensures Newer(Parse("1.2.3").value, Parse("1.2.3").value, 0) == 1
  {
    var s := "1.2.3";
    assert DigitsEnd(s, 0) == 1 && DigitsEnd(s, 2) == 3 && DigitsEnd(s, 4) == 5;
    assert MatchAt(s, 0) == Some(Match(0, 1, 3, 5, false, 5));
    assert s[0..1] == "1" && s[2..3] == "2" && s[4..5] == "3";
    assert DecimalValue("1") == 1 && DecimalValue("2") == 2 && DecimalValue("3") == 3;
  }
}
