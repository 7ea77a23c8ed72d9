/** What a settings file means: which lines are skipped, read or refused, and which value of a setting is loaded. */
module SettingsFiles {
  import opened AudioTypes
  import opened Decimals
  import opened Settings

  // ---- Characters, one by one ----------------------------------------------------------------

  const BLANKS := {' ', '\t', '\n', '\r', '\U{000B}', '\U{000C}'}
  const UPPER := "ABCDEFGHIJKLMNOPQRSTUVWXYZ"
  const LOWER := "abcdefghijklmnopqrstuvwxyz"

  lemma BlanksAreSpaces(c: char)
    ensures IsSpace(c) <==> c in BLANKS
  {
  }

  lemma DotsAreAllBut(c: char)
    ensures IsDot(c) <==> c !in {'\n', '\r'}
  {
  }

  lemma LowerLetters(s: string, i: nat)
    requires i < |s|
    ensures |ToLower(s)| == |s|
    ensures s[i] !in UPPER ==> ToLower(s)[i] == s[i]
    ensures forall k :: 0 <= k < 26 && s[i] == UPPER[k] ==> ToLower(s)[i] == LOWER[k]
  {
    assert forall k :: 0 <= k < 26 ==> UPPER[k] as int == 'A' as int + k && LOWER[k] as int == 'a' as int + k;
    if 'A' <= s[i] <= 'Z' {
      assert s[i] == UPPER[s[i] as int - 'A' as int];
    }
  }

  /** The names the program uses survive being written and read. */
  lemma ProgramNames()
    ensures WellFormedName("server_port") && WellFormedName("client_port")
  {
    assert ToLower("server_port") == "server_port" && ToLower("client_port") == "client_port";
  }

  // ---- Numbers -------------------------------------------------------------------------------

  /** Blanks up to `i`, a sign up to `j` if there is one, and all the digits there are up to `k`. */
  ghost predicate NumberIn(s: string, i: nat, j: nat, k: nat) {
    && i <= j < k <= |s| && (forall n :: 0 <= n < i ==> s[n] in BLANKS)
    && (j == i || (j == i + 1 && s[i] in {'+', '-'}))
    && AllDigits(s[j..k]) && (k < |s| ==> !IsDigit(s[k]))
  }

  function NumberAt(s: string, i: nat, j: nat, k: nat): int
    requires i <= j < k <= |s| && AllDigits(s[j..k])
  {
    if s[i] == '-' then 0 - DecimalValue(s[j..k]) else DecimalValue(s[j..k])
  }

  ghost predicate ReadsAt(s: string, i: nat, j: nat, k: nat, value: int) {
    NumberIn(s, i, j, k) && value == NumberAt(s, i, j, k)
  }

  ghost predicate ReadsAs(s: string, value: int) {
    exists i: nat, j: nat, k: nat :: ReadsAt(s, i, j, k, value)
  }

  lemma {:induction false} SkipsBlanks(s: string, i: nat)
    requires i < |s| && (forall n :: 0 <= n < i ==> s[n] in BLANKS) && s[i] !in BLANKS
    ensures SkipSpaces(s) == s[i..]
  {
    if i > 0 {
      SkipsBlanks(s[1..], i - 1);
      assert s[1..][i - 1..] == s[i..];
    }
  }

  lemma {:induction false} SkippedBlanks(s: string)
    ensures |SkipSpaces(s)| <= |s| && SkipSpaces(s) == s[|s| - |SkipSpaces(s)|..]
    ensures forall n :: 0 <= n < |s| - |SkipSpaces(s)| ==> s[n] in BLANKS
  {
    if s != "" && IsSpace(s[0]) {
      SkippedBlanks(s[1..]);
      forall n | 0 <= n < |s| - |SkipSpaces(s)| ensures s[n] in BLANKS {
        assert n > 0 ==> s[1..][n - 1] == s[n];
      }
    }
  }

  lemma {:induction false} DigitsAre(s: string, k: nat)
    requires k <= |s| && AllDigits(s[..k]) && (k < |s| ==> !IsDigit(s[k]))
    ensures DigitsOf(s) == s[..k]
  {
    if k > 0 {
      assert IsDigit(s[..k][0]);
      assert s[1..][..k - 1] == s[..k][1..];
      DigitsAre(s[1..], k - 1);
    }
  }

  lemma NumberRead(s: string, i: nat, j: nat, k: nat)
    requires NumberIn(s, i, j, k)
    ensures Stoi(s) == if -0x8000_0000 <= NumberAt(s, i, j, k) < 0x8000_0000 then Some(NumberAt(s, i, j, k)) else None
  {
    SignThenDigits(s, i, j, k);
    SkipsBlanks(s, i);
    FirstDigit(s, j, k);
  }

  lemma SignThenDigits(s: string, i: nat, j: nat, k: nat)
    requires NumberIn(s, i, j, k)
    ensures s[i] !in BLANKS && IsDigit(s[j])
    ensures DigitsOf(if j == i then s[i..] else s[i..][1..]) == s[j..k]
  {
    FirstDigit(s, j, k);
    DigitsUpTo(s, j, k);
    assert j == i + 1 ==> s[i..][1..] == s[j..];
  }

  lemma FirstDigit(s: string, j: nat, k: nat)
    requires j < k <= |s| && AllDigits(s[j..k])
    ensures IsDigit(s[j]) && s[j] !in BLANKS && s[j] !in {'+', '-'}
  {
    assert s[j..k][0] == s[j];
  }

  lemma DigitsUpTo(s: string, j: nat, k: nat)
    requires j <= k <= |s| && AllDigits(s[j..k]) && (k < |s| ==> !IsDigit(s[k]))
    ensures DigitsOf(s[j..]) == s[j..k]
  {
    assert s[j..][..k - j] == s[j..k];
    DigitsAre(s[j..], k - j);
  }

  /** A value is read exactly if the text is blanks, perhaps a sign, and digits that make a 32-bit integer, whatever
      comes after them. */
  lemma StoiExactly(s: string, value: Int32)
    ensures Stoi(s) == Some(value) <==> ReadsAs(s, value)
  {
    if ReadsAs(s, value) {
      var i: nat, j: nat, k: nat :| ReadsAt(s, i, j, k, value);
      NumberRead(s, i, j, k);
    }
    if Stoi(s) == Some(value) {
      SomeNumber(s);
    }
  }

  function SignEnd(s: string, i: nat): nat
    requires i < |s|
  {
    if s[i] in {'-', '+'} then i + 1 else i
  }

  lemma SomeNumber(s: string)
    requires Stoi(s).Some?
    ensures ReadsAs(s, Stoi(s).value)
  {
    var i := NumberStart(s);
    var j := SignEnd(s, i);
    var k := DigitsFrom(s, j);
    NumberFound(s, i, j, k);
  }

  lemma NumberStart(s: string) returns (i: nat)
    requires Stoi(s).Some?
    ensures i < |s| && (forall n :: 0 <= n < i ==> s[n] in BLANKS) && DigitsOf(s[SignEnd(s, i)..]) != ""
  {
    SkippedBlanks(s);
    i := |s| - |SkipSpaces(s)|;
    assert s[i..] == SkipSpaces(s) != "";
    assert s[i..][0] == s[i] && s[i..][1..] == s[i + 1..];
  }

  lemma DigitsFrom(s: string, j: nat) returns (k: nat)
    requires j <= |s| && DigitsOf(s[j..]) != ""
    ensures j < k <= |s| && AllDigits(s[j..k]) && (k < |s| ==> !IsDigit(s[k]))
  {
    var digits := DigitsOf(s[j..]);
    k := j + |digits|;
    assert s[j..k] == digits;
  }

  lemma NumberFound(s: string, i: nat, j: nat, k: nat)
    requires NumberIn(s, i, j, k) && Stoi(s).Some?
    ensures ReadsAs(s, Stoi(s).value)
  {
    NumberRead(s, i, j, k);
    assert ReadsAt(s, i, j, k, Stoi(s).value);
  }

  // ---- Lines ---------------------------------------------------------------------------------

  /** Empty, a comment, or a section in brackets. */
  ghost predicate Skipped(line: string) {
    || line == ""
    || line[0] == ';'
    || (exists body: string :: AllDot(body) && line == "[" + body + "]")
  }

  /** The line has a first match, whose name in lower case is a setting and whose value is a number. */
  ghost predicate Sets(line: string, defaults: SettingsMap, name: string, value: Int32) {
    exists m :: IsMatch(line, m) && ToLower(line[m.w..m.e]) == name && name in defaults && ReadsAs(line[m.v..m.z], value)
  }

  lemma SectionsAreSections(line: string)
    ensures IsSection(line) <==> exists body: string :: AllDot(body) && line == "[" + body + "]"
  {
    if IsSection(line) {
      var body := line[1..|line| - 1];
      assert line == "[" + body + "]";
    }
    if body: string :| AllDot(body) && line == "[" + body + "]" {
      assert line[1..|line| - 1] == body;
    }
  }

  /** Every line is skipped, sets one value, or is refused, and when. */
  lemma LineExactly(line: string, defaults: SettingsMap)
    ensures ParseLine(line, defaults) == Ignored <==> Skipped(line)
    ensures forall name, value: Int32 :: ParseLine(line, defaults) == Assignment(name, value)
                                    <==> !Skipped(line) && Sets(line, defaults, name, value)
    ensures ParseLine(line, defaults) == Malformed
       <==> !Skipped(line) && forall name, value: Int32 :: !Sets(line, defaults, name, value)
  {
    SectionsAreSections(line);
    FindMatchIsMatch(line);
    if !Skipped(line) {
      if FindMatch(line).Some? {
        var m := FindMatch(line).value;
        forall value: Int32 ensures Stoi(line[m.v..m.z]) == Some(value) <==> ReadsAs(line[m.v..m.z], value) {
          StoiExactly(line[m.v..m.z], value);
        }
        forall n | IsMatch(line, n) ensures n == m {
          assert n != m ==> TriedBefore(m, n) && TriedBefore(n, m);
        }
        assert IsMatch(line, m);
      }
    }
  }

  /** A property line with any blanks around its name and its value. */
  function PropertyLine(b1: string, name: string, b2: string, b3: string, text: string, b4: string): string {
    b1 + name + b2 + "=" + b3 + text + b4
  }

  ghost predicate Blank(s: string) {
    forall i :: 0 <= i < |s| ==> s[i] in BLANKS
  }

  /** Begins and ends with something else than blanks and holds no line break. */
  ghost predicate Trimmed(s: string) {
    s != "" && s[0] !in BLANKS && s[|s| - 1] !in BLANKS && AllDot(s)
  }

  lemma PropertyFits(b1: string, name: string, b2: string, b3: string, text: string, b4: string)
    requires Blank(b1) && Blank(b2) && Blank(b3) && Blank(b4) && Trimmed(name) && Trimmed(text)
    ensures var line := PropertyLine(b1, name, b2, b3, text, b4);
            var w := |b1|;
            var e := w + |name|;
            var p := e + |b2|;
            var v := p + 1 + |b3|;
            var z := v + |text|;
            && |line| == z + |b4| && Fits(line, Match(w, e, p, v, z))
            && line[w..e] == name && line[v..z] == text
  {
    var line := PropertyLine(b1, name, b2, b3, text, b4);
    var w := |b1|;
    var e := w + |name|;
    var p := e + |b2|;
    var v := p + 1 + |b3|;
    var z := v + |text|;
    assert line[..w] == b1 && line[w..e] == name && line[e..p] == b2 && line[p] == '=';
    assert line[p + 1..v] == b3 && line[v..z] == text && line[z..] == b4;
  }

  /** A match whose pieces begin and end with something else than blanks, the first equals sign in between, is the one
      that the pattern finds. */
  lemma OnlyMatch(line: string, n: Match, m: Match)
    requires Decisive(line, n) && IsMatch(line, m)
    ensures m == n
  {
    assert n.p <= m.p;
    SpaceAt(line, 0, m.w, n.w);
    SpaceAt(line, m.e, m.p, n.e - 1);
    SpaceAt(line, m.e, m.p, n.p);
    SpaceAt(line, m.p + 1, m.v, n.v);
    SpaceAt(line, m.z, |line|, n.z - 1);
  }

  lemma SpaceAt(line: string, i: nat, j: nat, k: nat)
    requires i <= j <= |line| && AllSpace(line[i..j])
    ensures i <= k < j ==> IsSpace(line[k])
  {
    assert i <= k < j ==> line[i..j][k - i] == line[k];
  }

  /** The pieces of the match leave no other way to match, and the line is neither a comment nor a section. */
  ghost predicate Decisive(line: string, n: Match) {
    && Fits(line, n) && (forall i :: 0 <= i < n.p ==> line[i] != '=')
    && !IsSpace(line[n.w]) && !IsSpace(line[n.e - 1]) && !IsSpace(line[n.v]) && !IsSpace(line[n.z - 1])
    && line[0] != ';' && (line[0] != '[' || line[|line| - 1] != ']')
  }

  /** What such a match makes of its line. */
  lemma MatchParses(line: string, n: Match, name: string, text: string, defaults: SettingsMap)
    requires Decisive(line, n) && line[n.w..n.e] == name && line[n.v..n.z] == text
    ensures ParseLine(line, defaults)
         == if ToLower(name) in defaults && Stoi(text).Some? then Assignment(ToLower(name), Stoi(text).value)
            else Malformed
  {
    FindMatchIsMatch(line);
    OnlyMatch(line, n, FindMatch(line).value);
  }

  /** A property line is read as its name in lower case and its number, or refused if the name is not a setting or the
      value is not a number, however it is padded and whatever other equals signs the value holds. */
  lemma PropertyParses(b1: string, name: string, b2: string, b3: string, text: string, b4: string, defaults: SettingsMap)
    requires Blank(b1) && Blank(b2) && Blank(b3) && Blank(b4) && Trimmed(name) && Trimmed(text) && '=' !in name
    requires b1 != "" || name[0] != ';'
    requires b1 != "" || b4 != "" || name[0] != '[' || text[|text| - 1] != ']'
    ensures ParseLine(PropertyLine(b1, name, b2, b3, text, b4), defaults)
         == if ToLower(name) in defaults && Stoi(text).Some? then Assignment(ToLower(name), Stoi(text).value)
            else Malformed
  {
    var n := PropertyDecides(b1, name, b2, b3, text, b4);
    MatchParses(PropertyLine(b1, name, b2, b3, text, b4), n, name, text, defaults);
  }

  lemma PropertyDecides(b1: string, name: string, b2: string, b3: string, text: string, b4: string) returns (n: Match)
    requires Blank(b1) && Blank(b2) && Blank(b3) && Blank(b4) && Trimmed(name) && Trimmed(text) && '=' !in name
    requires b1 != "" || name[0] != ';'
    requires b1 != "" || b4 != "" || name[0] != '[' || text[|text| - 1] != ']'
    ensures var line := PropertyLine(b1, name, b2, b3, text, b4);
            Decisive(line, n) && line[n.w..n.e] == name && line[n.v..n.z] == text
  {
    PropertyFits(b1, name, b2, b3, text, b4);
    PropertyEdges(b1, name, b2, b3, text, b4);
    var e := |b1| + |name|;
    var v := e + |b2| + 1 + |b3|;
    n := Match(|b1|, e, e + |b2|, v, v + |text|);
  }

  lemma PropertyEdges(b1: string, name: string, b2: string, b3: string, text: string, b4: string)
    requires Blank(b1) && Blank(b2) && Blank(b4) && Trimmed(name) && Trimmed(text) && '=' !in name
    requires b1 != "" || name[0] != ';'
    requires b1 != "" || b4 != "" || name[0] != '[' || text[|text| - 1] != ']'
    ensures var line := PropertyLine(b1, name, b2, b3, text, b4);
            var e := |b1| + |name|;
            var v := e + |b2| + 1 + |b3|;
            && |line| == v + |text| + |b4|
            && !IsSpace(line[|b1|]) && !IsSpace(line[e - 1]) && !IsSpace(line[v]) && !IsSpace(line[v + |text| - 1])
            && line[0] != ';' && (line[0] != '[' || line[|line| - 1] != ']')
            && forall i :: 0 <= i < e + |b2| ==> line[i] != '='
  {
    var line := PropertyLine(b1, name, b2, b3, text, b4);
    var head := b1 + name + b2;
    assert line == head + ("=" + b3 + text + b4);
    var e := |b1| + |name|;
    var v := e + |b2| + 1 + |b3|;
    assert line[|b1|] == name[0] && line[e - 1] == name[|name| - 1];
    assert line[v] == text[0] && line[v + |text| - 1] == text[|text| - 1];
    assert line[0] == if b1 == "" then name[0] else b1[0];
    assert line[|line| - 1] == if b4 == "" then text[|text| - 1] else b4[|b4| - 1];
    forall i | 0 <= i < |head| ensures head[i] != '=' {
      assert head[i] == if i < |b1| then b1[i] else if i < |b1| + |name| then name[i - |b1|] else b2[i - |b1| - |name|];
    }
  }

  // ---- Which value is loaded -----------------------------------------------------------------

  /** The value that the last of the first `n` lines that sets `name` gives it. */
  function LastValue(lines: seq<string>, n: nat, defaults: SettingsMap, name: string): Option<Int32>
    requires n <= |lines|
  {
    if n == 0 then None
    else
      match ParseLine(lines[n - 1], defaults)
      case Assignment(read, value) => if read == name then Some(value) else LastValue(lines, n - 1, defaults, name)
      case _ => LastValue(lines, n - 1, defaults, name)
  }

  ghost predicate AllKnown(lines: seq<string>, n: nat, defaults: SettingsMap)
    requires n <= |lines|
  {
    forall name :: name in defaults ==> LastValue(lines, n, defaults, name).Some?
  }

  ghost predicate GoesOnAt(lines: seq<string>, i: nat, defaults: SettingsMap)
    requires i < |lines|
  {
    ParseLine(lines[i], defaults) != Malformed && !AllKnown(lines, i, defaults)
  }

  /** Reading stops after `n` lines: because there are no more, the next one is refused, or all settings are known; and
      not before. */
  ghost predicate StopsAfter(lines: seq<string>, n: nat, defaults: SettingsMap) {
    && n <= |lines| && (forall i :: 0 <= i < n ==> GoesOnAt(lines, i, defaults))
    && (n < |lines| ==> ParseLine(lines[n], defaults) == Malformed || AllKnown(lines, n, defaults))
  }

  ghost predicate Holds(settings: SettingsMap, lines: seq<string>, n: nat, defaults: SettingsMap)
    requires n <= |lines|
  {
    && settings.Keys <= defaults.Keys
    && forall name :: LastValue(lines, n, defaults, name) == if name in settings then Some(settings[name]) else None
  }

  lemma {:induction false} ReadOn(lines: seq<string>, k: nat, defaults: SettingsMap, settings: SettingsMap) returns (n: nat)
    requires k <= |lines| && Holds(settings, lines, k, defaults)
    requires forall i :: 0 <= i < k ==> GoesOnAt(lines, i, defaults)
    ensures StopsAfter(lines, n, defaults)
    ensures Holds(ReadLines(lines[k..], defaults, settings), lines, n, defaults)
    decreases |lines| - k
  {
    KnownByCount(lines, k, defaults, settings);
    if k == |lines| || |settings| >= |defaults| || ParseLine(lines[k], defaults) == Malformed {
      n := k;
      ReadStopsHere(lines, k, defaults, settings);
    } else {
      assert lines[k..] == [lines[k]] + lines[k + 1..];
      ReadStep(lines[k], lines[k + 1..], defaults, settings);
      HoldsNext(lines, k, defaults, settings);
      n := ReadOn(lines, k + 1, defaults, AfterLine(lines[k], defaults, settings));
    }
  }

  lemma ReadStopsHere(lines: seq<string>, k: nat, defaults: SettingsMap, settings: SettingsMap)
    requires k <= |lines|
    requires k == |lines| || |settings| >= |defaults| || ParseLine(lines[k], defaults) == Malformed
    ensures ReadLines(lines[k..], defaults, settings) == settings
  {
  }

  function AfterLine(line: string, defaults: SettingsMap, settings: SettingsMap): SettingsMap {
    match ParseLine(line, defaults)
    case Assignment(name, value) => settings[name := value]
    case _ => settings
  }

  lemma HoldsNext(lines: seq<string>, k: nat, defaults: SettingsMap, settings: SettingsMap)
    requires k < |lines| && Holds(settings, lines, k, defaults)
    ensures Holds(AfterLine(lines[k], defaults, settings), lines, k + 1, defaults)
  {
  }

  lemma KnownByCount(lines: seq<string>, k: nat, defaults: SettingsMap, settings: SettingsMap)
    requires k <= |lines| && Holds(settings, lines, k, defaults)
    ensures |settings| >= |defaults| <==> AllKnown(lines, k, defaults)
  {
    SubsetSize(settings.Keys, defaults.Keys);
    if AllKnown(lines, k, defaults) {
      assert settings.Keys == defaults.Keys;
    } else {
      var name :| name in defaults && LastValue(lines, k, defaults, name).None?;
      KeysSmaller(settings, defaults, name);
    }
  }

  /** Loading a file gives every setting the value of the last line read that sets it, and reads up to the first line
      that is refused or until all settings are known. */
  lemma LoadExactly(text: string, defaults: SettingsMap) returns (n: nat)
    ensures StopsAfter(Lines(text), n, defaults) && Holds(Load(Some(text), defaults), Lines(text), n, defaults)
  {
    n := ReadOn(Lines(text), 0, defaults, map[]);
    assert Lines(text)[0..] == Lines(text);
  }

  // ---- Lines that do not matter --------------------------------------------------------------

  lemma {:induction false} SkippedLineIsNothing(front: seq<string>, line: string, back: seq<string>, defaults: SettingsMap,
                                                settings: SettingsMap)
    requires Skipped(line)
    ensures ReadLines(front + [line] + back, defaults, settings) == ReadLines(front + back, defaults, settings)
  {
    if |settings| < |defaults| {
      var lines, without := front + [line] + back, front + back;
      if front == [] {
        LineExactly(line, defaults);
        assert lines[1..] == back == without && lines[0] == line;
      } else {
        assert lines[0] == without[0] == front[0];
        assert lines[1..] == front[1..] + [line] + back && without[1..] == front[1..] + back;
        match ParseLine(front[0], defaults)
        case Malformed =>
        case Ignored => SkippedLineIsNothing(front[1..], line, back, defaults, settings);
        case Assignment(name, value) => SkippedLineIsNothing(front[1..], line, back, defaults, settings[name := value]);
      }
    }
  }

  /** The lines of a text that ends in a line break. */
  function Whole(text: string): seq<string>
    requires text == "" || text[|text| - 1] == '\n'
  {
    if text == "" then []
    else
      var n := |FirstLine(text)|;
      assert n < |text|;
      assert text[n + 1..] == "" || text[n + 1..][|text[n + 1..]| - 1] == text[|text| - 1];
      [text[..n]] + Whole(text[n + 1..])
  }

  lemma Join3<T>(x: seq<T>, y: seq<T>, z: seq<T>)
    ensures (x + y) + z == x + (y + z)
  {
  }

  lemma {:induction false} LinesAfterWhole(x: string, y: string)
    requires x == "" || x[|x| - 1] == '\n'
    ensures Lines(x + y) == Whole(x) + Lines(y)
    decreases |x|
  {
    if x == "" {
      assert x + y == y;
    } else {
      var n := |FirstLine(x)|;
      var first, rest := x[..n], x[n + 1..];
      assert n < |x| && '\n' !in first && x == first + "\n" + rest;
      Join3(first + "\n", rest, y);
      LinesCons(first, rest + y);
      assert rest == "" || rest[|rest| - 1] == x[|x| - 1];
      LinesAfterWhole(rest, y);
      Join3([first], Whole(rest), Lines(y));
    }
  }

  /** Inserting an empty line, a comment or a section anywhere into a file changes nothing that is loaded. */
  lemma InsertedLineIsNothing(x: string, line: string, y: string, defaults: SettingsMap)
    requires (x == "" || x[|x| - 1] == '\n') && '\n' !in line && Skipped(line)
    ensures Load(Some(x + line + "\n" + y), defaults) == Load(Some(x + y), defaults)
  {
    Join3(x, line, "\n");
    Join3(x, line + "\n", y);
    LinesAfterWhole(x, line + "\n" + y);
    LinesCons(line, y);
    LinesAfterWhole(x, y);
    Join3(Whole(x), [line], Lines(y));
    SkippedLineIsNothing(Whole(x), line, Lines(y), defaults, map[]);
  }
}
