/** The settings file: reading it line by line, repairing it, and why a repaired file stays as it is. */
module Settings {
  import opened AudioTypes
  import opened Decimals

  type Int32 = x: int | -0x8000_0000 <= x < 0x8000_0000

  type SettingsMap = map<string, Int32>

  // ---- Characters ----------------------------------------------------------------------------

  predicate IsSpace(c: char) {
    c in {' ', '\t', '\n', '\r', '\U{000B}', '\U{000C}'}
  }

  /** What `.` matches. */
  predicate IsDot(c: char) {
    c != '\n' && c != '\r'
  }

  predicate AllSpace(s: string) {
    forall i :: 0 <= i < |s| ==> IsSpace(s[i])
  }

  predicate AllDot(s: string) {
    forall i :: 0 <= i < |s| ==> IsDot(s[i])
  }

  function LowerChar(c: char): char {
    if 'A' <= c <= 'Z' then c - 'A' + 'a' else c
  }

  function ToLower(s: string): string {
    seq(|s|, i requires 0 <= i < |s| => LowerChar(s[i]))
  }

  // ---- Numbers -------------------------------------------------------------------------------

  /** Not an Int32: the smallest value has no counterpart. */
  function Magnitude(n: Int32): nat {
    if n < 0 then 0 - n as int else n
  }

  function ToString(n: Int32): string {
    if n < 0 then "-" + Decimal(Magnitude(n)) else Decimal(n)
  }

  /** The longest prefix of digits. */
  function DigitsOf(s: string): (d: string)
    ensures AllDigits(d)
    ensures d <= s && (|d| < |s| ==> !IsDigit(s[|d|]))
  {
    if s == "" || !IsDigit(s[0]) then "" else [s[0]] + DigitsOf(s[1..])
  }

  function SkipSpaces(s: string): string {
    if s != "" && IsSpace(s[0]) then SkipSpaces(s[1..]) else s
  }

  /** `std::stoi`: leading blanks, an optional sign, at least one digit, anything after; None where it throws. */
  function Stoi(s: string): Option<Int32> {
    var t := SkipSpaces(s);
    var negative := t != "" && t[0] == '-';
    var digits := DigitsOf(if t != "" && t[0] in {'-', '+'} then t[1..] else t);
    var value: int := if negative then 0 - DecimalValue(digits) as int else DecimalValue(digits);
    if digits == "" || !(-0x8000_0000 <= value < 0x8000_0000) then None else Some(value)
  }

  lemma DigitsOfAll(s: string)
    requires AllDigits(s)
    ensures DigitsOf(s) == s
  {
    assert DigitsOf(s) <= s;
  }

  /** Printing and reading undo each other for every 32-bit value, the smallest included. */
  lemma StoiRoundTrip(n: Int32)
    ensures Stoi(ToString(n)) == Some(n)
  {
    var digits := Decimal(Magnitude(n));
    DecimalRoundTrip(Magnitude(n));
    DigitsOfAll(digits);
    assert ToString(n)[0] == '-' || IsDigit(ToString(n)[0]);
    assert SkipSpaces(ToString(n)) == ToString(n);
    assert n < 0 ==> ToString(n)[1..] == digits;
  }

  // ---- The property pattern  ^\s*(.+?)\s*=\s*(.+?)\s*$ ---------------------------------------------

  /** Where the pieces of a match end: blanks, name, blanks, the equals sign at `p`, blanks, value; blanks to the end. */
  datatype Match = Match(w: nat, e: nat, p: nat, v: nat, z: nat)

  predicate Fits(line: string, m: Match) {
    && m.w < m.e <= m.p < m.v < m.z <= |line|
    && AllSpace(line[..m.w]) && AllDot(line[m.w..m.e]) && AllSpace(line[m.e..m.p])
    && line[m.p] == '=' && AllSpace(line[m.p + 1..m.v]) && AllDot(line[m.v..m.z]) && AllSpace(line[m.z..])
  }

  /** A backtracking matcher tries greedy pieces long first and lazy pieces short first, left to right. */
  predicate TriedBefore(m: Match, n: Match) {
    || m.w > n.w
    || (m.w == n.w && (|| m.e < n.e
    || (m.e == n.e && (|| m.p > n.p
    || (m.p == n.p && (|| m.v > n.v
    || (m.v == n.v && m.z < n.z)))))))
  }

  ghost predicate IsMatch(line: string, m: Match) {
    Fits(line, m) && forall n :: Fits(line, n) && n != m ==> TriedBefore(m, n)
  }

  predicate ValueFits(line: string, v: nat, z: nat) {
    v < z <= |line| && AllDot(line[v..z]) && AllSpace(line[z..])
  }

  function FindEnd(line: string, v: nat, z: nat): (r: Option<nat>)
    requires v < z
    ensures r.Some? ==> z <= r.value && ValueFits(line, v, r.value)
    ensures forall y: nat :: z <= y && ValueFits(line, v, y) ==> r.Some? && r.value <= y
    decreases |line| - z
  {
    if z > |line| then None else if ValueFits(line, v, z) then Some(z) else FindEnd(line, v, z + 1)
  }

  predicate TailFits(line: string, p: nat, v: nat) {
    p < v <= |line| && AllSpace(line[p + 1..v]) && FindEnd(line, v, v + 1).Some?
  }

  function FindValue(line: string, p: nat, v: nat): (r: Option<nat>)
    requires p < |line|
    ensures r.Some? ==> r.value <= v && TailFits(line, p, r.value)
    ensures forall u: nat :: u <= v && TailFits(line, p, u) ==> r.Some? && u <= r.value
    decreases v
  {
    if TailFits(line, p, v) then Some(v) else if v == 0 then None else FindValue(line, p, v - 1)
  }

  /** The only place an equals sign can stand when blanks start at `e`. */
  function AfterSpaces(line: string, e: nat): (p: nat)
    requires e <= |line|
    ensures e <= p <= |line| && AllSpace(line[e..p]) && (p < |line| ==> !IsSpace(line[p]))
    decreases |line| - e
  {
    if e < |line| && IsSpace(line[e]) then
      var p := AfterSpaces(line, e + 1);
      assert line[e..p] == [line[e]] + line[e + 1..p];
      p
    else e
  }

  lemma {:induction false} SpacesEnd(line: string, e: nat, p: nat)
    requires e <= p < |line| && AllSpace(line[e..p]) && !IsSpace(line[p])
    ensures AfterSpaces(line, e) == p
    decreases p - e
  {
    if e < p {
      assert line[e..p][0] == line[e];
      assert line[e + 1..p] == line[e..p][1..];
      SpacesEnd(line, e + 1, p);
    }
  }

  predicate NameFits(line: string, w: nat, e: nat) {
    && w < e <= |line| && AllDot(line[w..e])
    && var p := AfterSpaces(line, e);
       p < |line| && line[p] == '=' && FindValue(line, p, |line|).Some?
  }

  function FindName(line: string, w: nat, e: nat): (r: Option<nat>)
    requires w < e
    ensures r.Some? ==> e <= r.value && NameFits(line, w, r.value)
    ensures forall f: nat :: e <= f && NameFits(line, w, f) ==> r.Some? && r.value <= f
    decreases |line| - e
  {
    if e > |line| then None else if NameFits(line, w, e) then Some(e) else FindName(line, w, e + 1)
  }

  predicate StartFits(line: string, w: nat) {
    w <= |line| && AllSpace(line[..w]) && FindName(line, w, w + 1).Some?
  }

  function FindStart(line: string, w: nat): (r: Option<nat>)
    ensures r.Some? ==> r.value <= w && StartFits(line, r.value)
    ensures forall u: nat :: u <= w && StartFits(line, u) ==> r.Some? && u <= r.value
    decreases w
  {
    if StartFits(line, w) then Some(w) else if w == 0 then None else FindStart(line, w - 1)
  }

  function FindMatch(line: string): Option<Match> {
    var start := FindStart(line, |line|);
    if start.None? then None
    else
      var w := start.value;
      var e := FindName(line, w, w + 1).value;
      var p := AfterSpaces(line, e);
      var v := FindValue(line, p, |line|).value;
      Some(Match(w, e, p, v, FindEnd(line, v, v + 1).value))
  }

  lemma FitsInSteps(line: string, n: Match)
    requires Fits(line, n)
    ensures ValueFits(line, n.v, n.z) && TailFits(line, n.p, n.v)
    ensures n.p == AfterSpaces(line, n.e) && NameFits(line, n.w, n.e) && StartFits(line, n.w)
  {
    assert ValueFits(line, n.v, n.z);
    SpacesEnd(line, n.e, n.p);
    assert TailFits(line, n.p, n.v);
    assert NameFits(line, n.w, n.e);
  }

  /** The scanner finds exactly the match that the pattern's backtracking order prescribes, or none if there is none. */
  lemma FindMatchIsMatch(line: string)
    ensures FindMatch(line).Some? ==> IsMatch(line, FindMatch(line).value)
    ensures FindMatch(line).None? ==> forall n :: !Fits(line, n)
  {
    forall n | Fits(line, n)
      ensures FindMatch(line).Some? && (n == FindMatch(line).value || TriedBefore(FindMatch(line).value, n))
    {
      FitsInSteps(line, n);
    }
  }

  // ---- One line ------------------------------------------------------------------------------

  datatype Parsed = Ignored | Assignment(name: string, value: Int32) | Malformed

  predicate IsSection(line: string) {
    2 <= |line| && line[0] == '[' && line[|line| - 1] == ']' && AllDot(line[1..|line| - 1])
  }

  function ParseLine(line: string, defaults: SettingsMap): Parsed {
    if line == "" || line[0] == ';' || IsSection(line) then Ignored
    else
      match FindMatch(line)
      case None => Malformed
      case Some(m) =>
        assert Fits(line, m) by { FindMatchIsMatch(line); }
        var name := ToLower(line[m.w..m.e]);
        if name !in defaults then Malformed
        else
          match Stoi(line[m.v..m.z])
          case None => Malformed
          case Some(value) => Assignment(name, value)
  }

  /** Names that survive being written as `name=value` and read back. */
  predicate WellFormedName(name: string) {
    && name != "" && AllDot(name) && '=' !in name && name[0] != ';'
    && !IsSpace(name[0]) && !IsSpace(name[|name| - 1]) && ToLower(name) == name
  }

  function PrintLine(name: string, value: Int32): string {
    name + "=" + ToString(value)
  }

  lemma ToStringChars(n: Int32)
    ensures ToString(n) != ""
    ensures forall i :: 0 <= i < |ToString(n)| ==> IsDigit(ToString(n)[i]) || ToString(n)[i] == '-'
  {
  }

  /** Where a printed line has its only equals sign, and where it has no blanks. */
  lemma PrintedLineShape(name: string, value: Int32)
    requires WellFormedName(name)
    ensures var line, k := PrintLine(name, value), |name|;
            && |line| > k + 1 && line[k] == '=' && (forall i :: 0 <= i < |line| && i != k ==> line[i] != '=')
            && (forall i :: 0 <= i < |line| ==> IsDot(line[i]))
            && !IsSpace(line[0]) && !IsSpace(line[k - 1]) && !IsSpace(line[k + 1]) && !IsSpace(line[|line| - 1])
  {
    var line, k := PrintLine(name, value), |name|;
    ToStringChars(value);
    assert forall i :: 0 <= i < k ==> line[i] == name[i];
    assert forall i :: k < i < |line| ==> line[i] == ToString(value)[i - k - 1];
  }

  /** A printed line can be matched in one way only. */
  lemma PrintedLineFits(name: string, value: Int32, m: Match)
    requires WellFormedName(name) && Fits(PrintLine(name, value), m)
    ensures m == Match(0, |name|, |name|, |name| + 1, |PrintLine(name, value)|)
  {
    PrintedLineShape(name, value);
    assert m.p == |name|;
    BlankEnds(PrintLine(name, value), m);
  }

  lemma PrintedLineCanMatch(name: string, value: Int32)
    requires WellFormedName(name)
    ensures Fits(PrintLine(name, value), Match(0, |name|, |name|, |name| + 1, |PrintLine(name, value)|))
  {
    PrintedLineShape(name, value);
  }

  /** Pieces that stand for blanks are empty where the line has none. */
  lemma BlankEnds(line: string, m: Match)
    requires Fits(line, m)
    ensures !IsSpace(line[0]) ==> m.w == 0
    ensures !IsSpace(line[m.p - 1]) ==> m.e == m.p
    ensures m.p + 1 < |line| && !IsSpace(line[m.p + 1]) ==> m.v == m.p + 1
    ensures !IsSpace(line[|line| - 1]) ==> m.z == |line|
  {
    assert m.w > 0 ==> line[..m.w][0] == line[0];
    assert m.e < m.p ==> line[m.e..m.p][m.p - 1 - m.e] == line[m.p - 1];
    assert m.p + 1 < m.v ==> line[m.p + 1..m.v][0] == line[m.p + 1];
    assert m.z < |line| ==> line[m.z..][|line| - 1 - m.z] == line[|line| - 1];
  }

  lemma PrintedLineMatch(name: string, value: Int32)
    requires WellFormedName(name)
    ensures var line := PrintLine(name, value);
            FindMatch(line) == Some(Match(0, |name|, |name|, |name| + 1, |line|))
  {
    var line := PrintLine(name, value);
    FindMatchIsMatch(line);
    PrintedLineCanMatch(name, value);
    if FindMatch(line).Some? {
      PrintedLineFits(name, value, FindMatch(line).value);
    }
  }

  lemma PrintedLineIsProperty(name: string, value: Int32)
    requires WellFormedName(name)
    ensures var line := PrintLine(name, value);
            && line != "" && line[0] != ';' && !IsSection(line)
            && line[0..|name|] == name && line[|name| + 1..|line|] == ToString(value)
  {
    var line := PrintLine(name, value);
    ToStringChars(value);
    assert line[|line| - 1] == ToString(value)[|ToString(value)| - 1];
  }

  /** Every printed setting is read back as itself. */
  lemma PrintedLineParses(name: string, value: Int32, defaults: SettingsMap)
    requires WellFormedName(name) && name in defaults
    ensures ParseLine(PrintLine(name, value), defaults) == Assignment(name, value)
  {
    PrintedLineMatch(name, value);
    PrintedLineIsProperty(name, value);
    StoiRoundTrip(value);
  }

  // ---- Lines of a file -----------------------------------------------------------------------

  /** `std::getline` until the end of the file: what follows the last line break is a line too, even if empty. */
  function Lines(text: string): seq<string> {
    var n := |FirstLine(text)|;
    if n == |text| then [text] else [text[..n]] + Lines(text[n + 1..])
  }

  function FirstLine(text: string): (line: string)
    ensures line <= text && '\n' !in line && (|line| < |text| ==> text[|line|] == '\n')
  {
    if text == "" || text[0] == '\n' then "" else [text[0]] + FirstLine(text[1..])
  }

  lemma {:induction false} FirstLineIs(line: string, rest: string)
    requires '\n' !in line
    ensures FirstLine(line + "\n" + rest) == line
  {
    if line != "" {
      assert (line + "\n" + rest)[1..] == line[1..] + "\n" + rest;
      FirstLineIs(line[1..], rest);
    }
  }

  lemma LinesCons(line: string, rest: string)
    requires '\n' !in line
    ensures Lines(line + "\n" + rest) == [line] + Lines(rest)
  {
    FirstLineIs(line, rest);
    var text := line + "\n" + rest;
    assert text[..|line|] == line && text[|line| + 1..] == rest;
  }

  /** Reading stops at the first malformed line and as soon as all settings are known. */
  function ReadLines(lines: seq<string>, defaults: SettingsMap, settings: SettingsMap): SettingsMap {
    if lines == [] || |settings| >= |defaults| then settings
    else
      match ParseLine(lines[0], defaults)
      case Malformed => settings
      case Ignored => ReadLines(lines[1..], defaults, settings)
      case Assignment(name, value) => ReadLines(lines[1..], defaults, settings[name := value])
  }

  lemma ReadStep(line: string, rest: seq<string>, defaults: SettingsMap, settings: SettingsMap)
    requires |settings| < |defaults|
    ensures ReadLines([line] + rest, defaults, settings)
         == match ParseLine(line, defaults)
            case Malformed => settings
            case Ignored => ReadLines(rest, defaults, settings)
            case Assignment(name, value) => ReadLines(rest, defaults, settings[name := value])
  {
  }

  /** Taking one line off the stream. */
  lemma ReadNext(text: string, defaults: SettingsMap, settings: SettingsMap)
    requires |settings| < |defaults|
    ensures var line := FirstLine(text);
            var rest := if |line| == |text| then [] else Lines(text[|line| + 1..]);
            ReadLines(Lines(text), defaults, settings)
            == match ParseLine(line, defaults)
               case Malformed => settings
               case Ignored => ReadLines(rest, defaults, settings)
               case Assignment(name, value) => ReadLines(rest, defaults, settings[name := value])
  {
    var line := FirstLine(text);
    var rest := if |line| == |text| then [] else Lines(text[|line| + 1..]);
    if |line| == |text| {
      assert line == text;
      assert Lines(text) == [text] == [line] + rest;
    } else {
      assert text[..|line|] == line;
      assert Lines(text) == [line] + rest;
    }
    ReadStep(line, rest, defaults, settings);
  }

  function Load(content: Option<string>, defaults: SettingsMap): SettingsMap {
    match content
    case None => map[]
    case Some(text) => ReadLines(Lines(text), defaults, map[])
  }

  function Overlay(defaults: SettingsMap, settings: SettingsMap): SettingsMap {
    map name | name in defaults :: if name in settings then settings[name] else defaults[name]
  }

  function TextLine(name: string, value: Int32): string {
    PrintLine(name, value) + "\n"
  }

  function Render(order: seq<string>, values: SettingsMap): string
    requires forall name :: name in order ==> name in values
  {
    if order == [] then "" else TextLine(order[0], values[order[0]]) + Render(order[1..], values)
  }

  ghost predicate Lists(order: seq<string>, names: set<string>) {
    && (forall i, j :: 0 <= i < j < |order| ==> order[i] != order[j])
    && (forall name :: name in order <==> name in names)
  }

  /** `text` is one line for each value, in whatever order the hash map is visited. */
  ghost predicate Renders(text: string, values: SettingsMap) {
    exists order: seq<string> :: Lists(order, values.Keys) && text == Render(order, values)
  }

  /** What loading does to the settings and to the file. */
  ghost predicate Loads(defaults: SettingsMap, before: Option<string>, settings: SettingsMap, after: Option<string>) {
    && settings == Load(before, defaults)
    && if before.Some? && |settings| == |defaults| then after == before
       else after.Some? && Renders(after.value, Overlay(defaults, settings))
  }

  function Value(defaults: SettingsMap, settings: SettingsMap, name: string): Option<Int32> {
    if name in settings then Some(settings[name])
    else if name in defaults then Some(defaults[name])
    else None
  }

  // ---- The settings object -------------------------------------------------------------------

  /** None: the file does not exist. */
  class File {
    var content: Option<string>

    constructor (content: Option<string>)
      ensures this.content == content
    {
      this.content := content;
    }
  }

  class SettingsImpl {
    var settings: SettingsMap
    var defaults: SettingsMap

    constructor ()
      ensures settings == map[] && defaults == map[]
    {
      settings, defaults := map[], map[];
    }

    method AddSetting(name: string, value: Int32)
      modifies this`defaults
      ensures defaults == old(defaults)[name := value]
    {
      defaults := defaults[name := value];
    }

    function GetValue(name: string): (value: Option<Int32>)
      reads this
      ensures value == Value(defaults, settings, name)
      ensures name in settings ==> value == Some(settings[name])
      ensures name !in settings && name in defaults ==> value == Some(defaults[name])
      ensures name !in settings && name !in defaults ==> value == None
    {
      if name in settings then Some(settings[name])
      else if name in defaults then Some(defaults[name])
      else None
    }

    method SetFile(f: File)
      modifies this`settings, f
      ensures Loads(defaults, old(f.content), settings, f.content)
    {
      settings := map[];
      if f.content.Some? {
        ReadFile(f.content.value);
        if |settings.Keys| == |defaults.Keys| {
          return;
        }
      }
      var text := WriteToString();
      f.content := Some(text);
    }

    /** The read loop: `rest` is what the stream has not delivered yet, `good` turns false at its end. */
    method ReadFile(text: string)
      requires settings == map[]
      modifies this`settings
      ensures settings == ReadLines(Lines(text), defaults, map[])
    {
      ghost var result := ReadLines(Lines(text), defaults, map[]);
      var rest, good, parseSuccess := text, true, true;
      while good && parseSuccess && |settings.Keys| < |defaults.Keys|
        invariant result == if good && parseSuccess then ReadLines(Lines(rest), defaults, settings) else settings
        decreases good, |rest|
      {
        var line := FirstLine(rest);
        ReadNext(rest, defaults, settings);
        if |line| == |rest| {
          good := false;
        } else {
          rest := rest[|line| + 1..];
        }
        parseSuccess := ParseInto(line);
      }
    }

    method ParseInto(line: string) returns (success: bool)
      modifies this`settings
      ensures success <==> ParseLine(line, defaults) != Malformed
      ensures settings == match ParseLine(line, defaults)
                          case Assignment(name, value) => old(settings)[name := value]
                          case _ => old(settings)
    {
      var parsed := ParseLine(line, defaults);
      match parsed {
        case Assignment(name, value) => settings := settings[name := value];
        case _ =>
      }
      success := parsed != Malformed;
    }

    method WriteToString() returns (text: string)
      ensures Renders(text, Overlay(defaults, settings))
    {
      text := "";
      ghost var order: seq<string> := [];
      ghost var values := Overlay(defaults, settings);
      var remaining := defaults.Keys;
      while remaining != {}
        invariant remaining <= defaults.Keys
        invariant Lists(order, defaults.Keys - remaining)
        invariant text == Render(order, values)
      {
        var name :| name in remaining;
        var value := if name in settings then settings[name] else defaults[name];
        text := text + TextLine(name, value);
        RenderSnoc(order, name, values);
        order := order + [name];
        remaining := remaining - {name};
      }
      assert Lists(order, values.Keys);
    }
  }

  lemma {:induction false} RenderSnoc(order: seq<string>, name: string, values: SettingsMap)
    requires name in values && forall x :: x in order ==> x in values
    ensures Render(order + [name], values) == Render(order, values) + TextLine(name, values[name])
  {
    if order != [] {
      assert (order + [name])[1..] == order[1..] + [name];
      RenderSnoc(order[1..], name, values);
      assert Render(order + [name], values)
          == TextLine(order[0], values[order[0]]) + (Render(order[1..], values) + TextLine(name, values[name]));
    }
  }

  // ---- Repairing a file settles it -----------------------------------------------------------

  ghost predicate AllWellFormed(defaults: SettingsMap) {
    forall name :: name in defaults ==> WellFormedName(name)
  }

  lemma PrintedLineHasNoBreak(name: string, value: Int32)
    requires WellFormedName(name)
    ensures '\n' !in PrintLine(name, value)
  {
  }

  /** Reading a rendering back adds exactly the rendered values to those already known. */
  lemma {:induction false} RenderReadsBack(order: seq<string>, values: SettingsMap, defaults: SettingsMap,
                                           known: SettingsMap)
    requires AllWellFormed(defaults) && values.Keys == defaults.Keys && Pending(order, values, known)
    ensures ReadLines(Lines(Render(order, values)), defaults, known) == values
  {
    if order == [] {
      assert known == values;
    } else {
      RenderStep(order, values, defaults, known);
      PendingStep(order, values, known);
      RenderReadsBack(order[1..], values, defaults, known[order[0] := values[order[0]]]);
    }
  }

  /** The names in `order` are those not yet known, each once; the known ones have their values. */
  ghost predicate Pending(order: seq<string>, values: SettingsMap, known: SettingsMap) {
    && (forall i, j :: 0 <= i < j < |order| ==> order[i] != order[j])
    && (forall name :: name in order ==> name in values && name !in known)
    && (forall name :: name in values ==> name in known || name in order)
    && (forall name :: name in known ==> name in values && known[name] == values[name])
  }

  lemma PendingStep(order: seq<string>, values: SettingsMap, known: SettingsMap)
    requires order != [] && Pending(order, values, known)
    ensures Pending(order[1..], values, known[order[0] := values[order[0]]])
  {
    assert forall name :: name in order ==> name == order[0] || name in order[1..];
  }

  lemma RenderStep(order: seq<string>, values: SettingsMap, defaults: SettingsMap, known: SettingsMap)
    requires AllWellFormed(defaults) && values.Keys == defaults.Keys && known.Keys <= defaults.Keys
    requires order != [] && order[0] !in known && forall name :: name in order ==> name in defaults
    ensures ReadLines(Lines(Render(order, values)), defaults, known)
         == ReadLines(Lines(Render(order[1..], values)), defaults, known[order[0] := values[order[0]]])
  {
    var name, rest := order[0], order[1..];
    var line := PrintLine(name, values[name]);
    PrintedLineHasNoBreak(name, values[name]);
    LinesCons(line, Render(rest, values));
    assert Render(order, values) == line + "\n" + Render(rest, values);
    PrintedLineParses(name, values[name], defaults);
    KeysSmaller(known, defaults, name);
    ReadStep(line, Lines(Render(rest, values)), defaults, known);
  }

  lemma KeysSmaller(small: SettingsMap, large: SettingsMap, name: string)
    requires small.Keys <= large.Keys && name in large && name !in small
    ensures |small| < |large|
  {
    SubsetSize(small.Keys, large.Keys - {name});
  }

  lemma SubsetSize(small: set<string>, large: set<string>)
    requires small <= large
    ensures |small| <= |large|
  {
    assert large == small + (large - small);
  }

  /** Whatever the file held, what loading leaves in it is read back as the values now in force. */
  lemma WrittenFileReadsBack(values: SettingsMap, defaults: SettingsMap, text: string)
    requires AllWellFormed(defaults) && values.Keys == defaults.Keys && Renders(text, values)
    ensures Load(Some(text), defaults) == values
  {
    var order: seq<string> :| Lists(order, values.Keys) && text == Render(order, values);
    RenderReadsBack(order, values, defaults, map[]);
  }

  /** For any file content, missing file included, and any order of writing: loading the file a second time changes
      neither the file nor the value of any setting. */
  lemma SecondLoadChangesNothing(defaults: SettingsMap, before: Option<string>,
                                 settings: SettingsMap, after: Option<string>,
                                 again: SettingsMap, afterAgain: Option<string>, name: string)
    requires AllWellFormed(defaults)
    requires Loads(defaults, before, settings, after) && Loads(defaults, after, again, afterAgain)
    ensures afterAgain == after
    ensures Value(defaults, again, name) == Value(defaults, settings, name)
  {
    if !(before.Some? && |settings| == |defaults|) {
      var values := Overlay(defaults, settings);
      WrittenFileReadsBack(values, defaults, after.value);
      assert again.Keys == defaults.Keys;
      LoadedNamesAreDefaults(before, defaults);
    }
  }

  lemma LoadedNamesAreDefaults(content: Option<string>, defaults: SettingsMap)
    ensures Load(content, defaults).Keys <= defaults.Keys
  {
    if content.Some? {
      ReadNamesAreDefaults(Lines(content.value), defaults, map[]);
    }
  }

  lemma {:induction false} ReadNamesAreDefaults(lines: seq<string>, defaults: SettingsMap, settings: SettingsMap)
    requires settings.Keys <= defaults.Keys
    ensures ReadLines(lines, defaults, settings).Keys <= defaults.Keys
  {
    if lines != [] && |settings| < |defaults| {
      match ParseLine(lines[0], defaults)
      case Malformed =>
      case Ignored => ReadNamesAreDefaults(lines[1..], defaults, settings);
      case Assignment(name, value) => ReadNamesAreDefaults(lines[1..], defaults, settings[name := value]);
    }
  }

  /** What was read before a malformed line is kept; what follows it is not looked at. */
  lemma {:induction false} MalformedLineStops(front: seq<string>, bad: string, back: seq<string>,
                                              defaults: SettingsMap, settings: SettingsMap)
    requires ParseLine(bad, defaults) == Malformed
    ensures ReadLines(front + [bad] + back, defaults, settings) == ReadLines(front, defaults, settings)
  {
    var lines := front + [bad] + back;
    if front == [] {
      assert lines[0] == bad;
    } else {
      assert lines[0] == front[0] && lines[1..] == front[1..] + [bad] + back;
      if |settings| < |defaults| {
        match ParseLine(front[0], defaults)
        case Malformed =>
        case Ignored => MalformedLineStops(front[1..], bad, back, defaults, settings);
        case Assignment(name, value) => MalformedLineStops(front[1..], bad, back, defaults, settings[name := value]);
      }
    }
  }

  /** A setting whose name is not lower case is never read, so a file is rewritten on every load as long as there is
      one: the names have to be lower case for a file to settle. */
  lemma {:induction false} OnlyLowerCaseIsRead(lines: seq<string>, defaults: SettingsMap, settings: SettingsMap, name: string)
    requires ToLower(name) != name && name !in settings
    ensures name !in ReadLines(lines, defaults, settings)
  {
    if lines != [] && |settings| < |defaults| {
      match ParseLine(lines[0], defaults)
      case Malformed =>
      case Ignored => OnlyLowerCaseIsRead(lines[1..], defaults, settings, name);
      case Assignment(read, value) =>
        var m := FindMatch(lines[0]).value;
        FindMatchIsMatch(lines[0]);
        LowerTwice(lines[0][m.w..m.e]);
        OnlyLowerCaseIsRead(lines[1..], defaults, settings[read := value], name);
    }
  }

  lemma LowerTwice(s: string)
    ensures ToLower(ToLower(s)) == ToLower(s)
  {
  }
}
