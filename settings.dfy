/**
 * The program settings: a map from property names to their text, filled
 * with defaults, overridden by the `key = value` lines of the settings file,
 * read back through typed getters that fall back to the defaults.
 */
module Configuration {
  import opened Wrappers
  import opened JavaLang
  import opened Text
  import opened CelestialMechanics
  import opened DawFiles

  const EDGE_HARMONIC_DEFAULT: int := 108
  const ORBS_DIVISOR_DEFAULT: int := 30
  const HALF_ORBS_FOR_DOUBLES_DEFAULT: bool := true
  const AUTOSAVE_DEFAULT: bool := false
  const AUTOLOAD_FILE_DEFAULT: string := "autosave.daw"
  const AUTOLOAD_ENABLED_DEFAULT: bool := true

  const EDGE_HARMONIC_KEY: string := "HARMONICA_ULTIMA"
  const ORBS_DIVISOR_KEY: string := "ORBS_DIVISOR"
  const HALF_ORBS_KEY: string := "ORBES_DIMIDII_DUPLICIBUS"
  const AUTOSAVE_KEY: string := "AUTOSAVE"
  const AUTOLOAD_FILE_KEY: string := "AUTOLOAD_FILE"
  const AUTOLOAD_ENABLED_KEY: string := "AUTOLOAD_ENABLED"

  /** String.valueOf(boolean). */
  function BoolToString(b: bool): string
  {
    if b then "true" else "false"
  }

  /** Boolean.parseBoolean: "true" in any letter case. */
  function ParseBoolean(s: string): bool
  {
    ToLowerCase(s) == "true"
  }

  /** Printing a boolean and parsing it back gives the boolean. */
  lemma ParseBooleanOfToString(b: bool)
    ensures ParseBoolean(BoolToString(b)) == b
  {
    if b {
      assert ToLowerCase("true") == "true";
    } else {
      assert ToLowerCase("false")[0] == 'f';
    }
  }

  /** The map the static initialiser fills. */
  function Defaults(): map<string, string>
  {
    map[EDGE_HARMONIC_KEY := IntToString(EDGE_HARMONIC_DEFAULT),
        ORBS_DIVISOR_KEY := IntToString(ORBS_DIVISOR_DEFAULT),
        HALF_ORBS_KEY := BoolToString(HALF_ORBS_FOR_DOUBLES_DEFAULT),
        AUTOSAVE_KEY := BoolToString(AUTOSAVE_DEFAULT),
        AUTOLOAD_FILE_KEY := AUTOLOAD_FILE_DEFAULT,
        AUTOLOAD_ENABLED_KEY := BoolToString(AUTOLOAD_ENABLED_DEFAULT)]
  }

  // ---------------------------------------------------------------------
  // the settings file, line by line
  // ---------------------------------------------------------------------

  /**
   * One line of the settings file: the property and value it sets, or None
   * for a line the loader skips (blank, a `#` comment, no `=`, or an empty
   * side).
   */
  function ParseSettingLine(line: string): (r: Option<(string, string)>)
  {
    if IsBlank(line) || StartsWith(line, "#") then None
    else
      var operatorPosition := IndexOfChar(line, '=');
      if operatorPosition == -1 then None else SplitAt(line, operatorPosition)
  }

  /** The lines the loader skips, and what a line it keeps sets. */
  lemma ParseSettingLineSkips(line: string)
    ensures IsBlank(line) || StartsWith(line, "#") || '=' !in line ==> ParseSettingLine(line) == None
    ensures ParseSettingLine(line).Some? ==>
      var (property, value) := ParseSettingLine(line).value;
      '=' !in property && '=' in line && !IsBlank(property) && !IsBlank(value)
  {
  }

  /** The trimmed sides of the first `=` at `op`; None if either is blank. */
  function SplitAt(line: string, op: nat): (r: Option<(string, string)>)
    requires op < |line| && '=' !in line[..op]
    ensures r.Some? ==> '=' !in r.value.0 && !IsBlank(r.value.0) && !IsBlank(r.value.1)
  {
    var property := Trim(line[..op]);
    var value := Trim(line[op + 1..]);
    assert '=' !in property by {
      TrimIsInfix(line[..op]);
    }
    if IsBlank(property) || IsBlank(value) then None else Some((property, value))
  }

  /** The trim of a string is a piece of it. */
  lemma TrimIsInfix(s: string)
    ensures forall c :: c in Trim(s) ==> c in s
  {
    var t := TrimStart(s);
    assert forall c :: c in t ==> c in s by {
      forall c | c in t ensures c in s {
        var k :| 0 <= k < |t| && t[k] == c;
        assert s[|s| - |t| + k] == c;
      }
    }
  }

  /** What one parsed line does to the map. */
  function Store(m: map<string, string>, entry: Option<(string, string)>): (r: map<string, string>)
    ensures entry.Some? ==> entry.value.0 in r && r[entry.value.0] == entry.value.1
    ensures entry.None? ==> r == m
  {
    match entry
    case None => m
    case Some((property, value)) => m[property := value]
  }

  /** The map after a run of parsed lines, in order. */
  function Overrides(m: map<string, string>, entries: seq<Option<(string, string)>>): map<string, string>
  {
    if entries == [] then m else Store(Overrides(m, entries[..|entries| - 1]), entries[|entries| - 1])
  }

  /** Whether a parsed line sets the property. */
  predicate SetsEntry(entry: Option<(string, string)>, property: string)
  {
    entry.Some? && entry.value.0 == property
  }

  /** The last entry setting a property decides its value. */
  lemma {:induction false} LastEntryWins(m: map<string, string>, entries: seq<Option<(string, string)>>, i: nat, property: string, value: string)
    requires i < |entries| && entries[i] == Some((property, value))
    requires forall j :: i < j < |entries| ==> !SetsEntry(entries[j], property)
    ensures property in Overrides(m, entries) && Overrides(m, entries)[property] == value
    decreases |entries|
  {
    var init := entries[..|entries| - 1];
    if i < |entries| - 1 {
      assert forall j :: 0 <= j < |init| ==> init[j] == entries[j];
      LastEntryWins(m, init, i, property, value);
    }
  }

  /** A property no entry sets keeps the value it had (or stays absent). */
  lemma {:induction false} UnsetEntryKept(m: map<string, string>, entries: seq<Option<(string, string)>>, property: string)
    requires forall j :: 0 <= j < |entries| ==> !SetsEntry(entries[j], property)
    ensures property in Overrides(m, entries) <==> property in m
    ensures property in m ==> Overrides(m, entries)[property] == m[property]
    decreases |entries|
  {
    if entries != [] {
      var init := entries[..|entries| - 1];
      assert forall j :: 0 <= j < |init| ==> init[j] == entries[j];
      UnsetEntryKept(m, init, property);
    }
  }

  /** What one line does to the map. */
  function ApplyLine(m: map<string, string>, line: string): map<string, string>
  {
    Store(m, ParseSettingLine(line))
  }

  /** The map after the lines of the file, in order. */
  function ApplyLines(m: map<string, string>, lines: seq<string>): (r: map<string, string>)
    ensures m.Keys <= r.Keys
  {
    if lines == [] then m else ApplyLine(ApplyLines(m, lines[..|lines| - 1]), lines[|lines| - 1])
  }

  lemma ApplyStep(m: map<string, string>, lines: seq<string>, i: nat)
    requires i < |lines|
    ensures ApplyLines(m, lines[..i + 1]) == ApplyLine(ApplyLines(m, lines[..i]), lines[i])
  {
    assert lines[..i + 1][..i] == lines[..i];
  }

  /** The lines of a file as the loader reads them. */
  function Parsed(lines: seq<string>): (r: seq<Option<(string, string)>>)
    ensures |r| == |lines|
  {
    seq(|lines|, i requires 0 <= i < |lines| => ParseSettingLine(lines[i]))
  }

  /** Loading the lines is overriding with their parsed entries. */
  lemma {:induction false} ApplyLinesOverrides(m: map<string, string>, lines: seq<string>)
    ensures ApplyLines(m, lines) == Overrides(m, Parsed(lines))
    decreases |lines|
  {
    if lines != [] {
      var init := lines[..|lines| - 1];
      assert Parsed(lines)[..|lines| - 1] == Parsed(init);
      ApplyLinesOverrides(m, init);
    }
  }

  /** Whether a line sets the property. */
  predicate Sets(line: string, property: string)
  {
    SetsEntry(ParseSettingLine(line), property)
  }

  /** Loading a file in two parts is loading the first part, then the second. */
  lemma {:induction false} ApplyLinesConcat(m: map<string, string>, a: seq<string>, b: seq<string>)
    ensures ApplyLines(m, a + b) == ApplyLines(ApplyLines(m, a), b)
    decreases |b|
  {
    if b == [] {
      assert a + b == a;
    } else {
      assert (a + b)[..|a + b| - 1] == a + b[..|b| - 1];
      ApplyLinesConcat(m, a, b[..|b| - 1]);
    }
  }

  /** The last line setting a property decides its value. */
  lemma LastLineWins(m: map<string, string>, lines: seq<string>, i: nat, property: string, value: string)
    requires i < |lines| && ParseSettingLine(lines[i]) == Some((property, value))
    requires forall j :: i < j < |lines| ==> !Sets(lines[j], property)
    ensures property in ApplyLines(m, lines) && ApplyLines(m, lines)[property] == value
  {
    ApplyLinesOverrides(m, lines);
    LastEntryWins(m, Parsed(lines), i, property, value);
  }

  /** A property no line sets keeps the value it had (or stays absent). */
  lemma UnsetPropertyKept(m: map<string, string>, lines: seq<string>, property: string)
    requires forall j :: 0 <= j < |lines| ==> !Sets(lines[j], property)
    ensures property in ApplyLines(m, lines) <==> property in m
    ensures property in m ==> ApplyLines(m, lines)[property] == m[property]
  {
    ApplyLinesOverrides(m, lines);
    UnsetEntryKept(m, Parsed(lines), property);
  }

  /** A property name the file can hold: not blank, no `=`, not a comment, no padding. */
  predicate StorableProperty(property: string)
  {
    property != [] && !IsBlank(property) && '=' !in property && property[0] != '#'
    && !IsTrimmable(property[0]) && !IsTrimmable(property[|property| - 1])
  }

  /** A value the file can hold: not blank and without padding. */
  predicate StorableValue(value: string)
  {
    value != [] && !IsBlank(value) && !IsTrimmable(value[0]) && !IsTrimmable(value[|value| - 1])
  }

  /** The `key = value` line saveSettings writes for an entry. */
  function SettingLine(property: string, value: string): string
  {
    property + " = " + value
  }

  /** A written line reads back as the entry it was written from. */
  lemma SettingLineRoundTrip(property: string, value: string)
    requires StorableProperty(property) && StorableValue(value)
    ensures ParseSettingLine(SettingLine(property, value)) == Some((property, value))
  {
    var line := SettingLine(property, value);
    var op := |property| + 1;
    assert !IsBlank(line) && !StartsWith(line, "#") by {
      SettingLineKept(property, value);
    }
    assert IndexOfChar(line, '=') == op by {
      SettingLineOperator(property, value);
    }
    assert Trim(line[..op]) == property && Trim(line[op + 1..]) == value by {
      SettingLinePieces(property, value);
    }
    ParseOfPieces(line, op, property, value);
  }

  /** A written line is neither blank nor a comment. */
  lemma SettingLineKept(property: string, value: string)
    requires StorableProperty(property)
    ensures !IsBlank(SettingLine(property, value)) && !StartsWith(SettingLine(property, value), "#")
  {
    var line := SettingLine(property, value);
    var k :| 0 <= k < |property| && !IsWhitespace(property[k]);
    assert line[k] == property[k];
    assert line[0] == property[0];
  }

  /** The `=` of a written line is the one after the property. */
  lemma SettingLineOperator(property: string, value: string)
    requires '=' !in property
    ensures IndexOfChar(SettingLine(property, value), '=') == |property| + 1
  {
    var key := property + " ";
    assert SettingLine(property, value) == key + ['='] + (" " + value);
    IndexOfCharAfter(key, '=', " " + value);
  }

  /** The two sides of a written line trim to the property and the value. */
  lemma SettingLinePieces(property: string, value: string)
    requires StorableProperty(property) && StorableValue(value)
    ensures Trim(SettingLine(property, value)[..|property| + 1]) == property
    ensures Trim(SettingLine(property, value)[|property| + 2..]) == value
  {
    SettingLineKey(property, value);
    SettingLineValue(property, value);
  }

  /** The left side of a written line is the property and a space. */
  lemma SettingLineKey(property: string, value: string)
    requires StorableProperty(property)
    ensures Trim(SettingLine(property, value)[..|property| + 1]) == property
  {
    assert SettingLine(property, value)[..|property| + 1] == property + " ";
    TrimDropsTail(property, " ");
  }

  /** The right side of a written line is a space and the value. */
  lemma SettingLineValue(property: string, value: string)
    requires StorableValue(value)
    ensures Trim(SettingLine(property, value)[|property| + 2..]) == value
  {
    assert SettingLine(property, value)[|property| + 2..] == " " + value;
    TrimPadded(value);
  }

  /** The first occurrence of a character after a prefix without it. */
  lemma IndexOfCharAfter(prefix: string, c: char, rest: string)
    requires c !in prefix
    ensures IndexOfChar(prefix + [c] + rest, c) == |prefix|
  {
    var s := prefix + [c] + rest;
    assert s[|prefix|] == c;
    assert s[..|prefix|] == prefix;
  }

  /** A line with a blank side of its first `=` sets nothing. */
  lemma ParseOfBlankPiece(line: string, op: nat)
    requires !IsBlank(line) && !StartsWith(line, "#")
    requires op < |line| && IndexOfChar(line, '=') == op
    requires IsBlank(Trim(line[..op])) || IsBlank(Trim(line[op + 1..]))
    ensures ParseSettingLine(line) == None
  {
    assert SplitAt(line, op) == None;
  }

  /** A skipped line leaves the map as it was. */
  lemma ApplySkipped(m: map<string, string>, line: string)
    requires IsBlank(line) || StartsWith(line, "#") || IndexOfChar(line, '=') == -1
    ensures ApplyLine(m, line) == m
  {
    assert ParseSettingLine(line) == None;
  }

  /** So does a line with a blank side. */
  lemma ApplyBlankPiece(m: map<string, string>, line: string, op: nat)
    requires !IsBlank(line) && !StartsWith(line, "#")
    requires op < |line| && IndexOfChar(line, '=') == op
    requires IsBlank(Trim(line[..op])) || IsBlank(Trim(line[op + 1..]))
    ensures ApplyLine(m, line) == m
  {
    ParseOfBlankPiece(line, op);
  }

  /** A line with both sides stores the trimmed value under the trimmed property. */
  lemma ApplyPieces(m: map<string, string>, line: string, op: nat, property: string, value: string)
    requires !IsBlank(line) && !StartsWith(line, "#")
    requires op < |line| && IndexOfChar(line, '=') == op
    requires Trim(line[..op]) == property && Trim(line[op + 1..]) == value
    requires !IsBlank(property) && !IsBlank(value)
    ensures ApplyLine(m, line) == m[property := value]
  {
    ParseOfPieces(line, op, property, value);
  }

  /** A line whose pieces are known parses to them. */
  lemma ParseOfPieces(line: string, op: nat, property: string, value: string)
    requires !IsBlank(line) && !StartsWith(line, "#")
    requires op < |line| && IndexOfChar(line, '=') == op
    requires Trim(line[..op]) == property && Trim(line[op + 1..]) == value
    requires !IsBlank(property) && !IsBlank(value)
    ensures ParseSettingLine(line) == Some((property, value))
  {
    assert SplitAt(line, op) == Some((property, value));
  }

  /**
   * saveSettings followed by loadSettings: writing each entry as a line and
   * reading the lines back gives every entry its own value again.
   */
  lemma ReloadSaved(m: map<string, string>, entries: seq<(string, string)>)
    requires forall i :: 0 <= i < |entries| ==> StorableProperty(entries[i].0) && StorableValue(entries[i].1)
    requires forall i, j :: 0 <= i < j < |entries| ==> entries[i].0 != entries[j].0
    ensures forall i :: 0 <= i < |entries| ==>
      entries[i].0 in ApplyLines(m, SavedLines(entries)) && ApplyLines(m, SavedLines(entries))[entries[i].0] == entries[i].1
  {
    var lines := SavedLines(entries);
    forall i | 0 <= i < |entries|
      ensures entries[i].0 in ApplyLines(m, lines) && ApplyLines(m, lines)[entries[i].0] == entries[i].1
    {
      SettingLineRoundTrip(entries[i].0, entries[i].1);
      forall j | i < j < |lines| ensures !Sets(lines[j], entries[i].0) {
        SettingLineRoundTrip(entries[j].0, entries[j].1);
      }
      LastLineWins(m, lines, i, entries[i].0, entries[i].1);
    }
  }

  /** The lines saveSettings writes for the entries, in the order given. */
  function SavedLines(entries: seq<(string, string)>): (r: seq<string>)
    ensures |r| == |entries|
    ensures forall i :: 0 <= i < |entries| ==> r[i] == SettingLine(entries[i].0, entries[i].1)
  {
    seq(|entries|, i requires 0 <= i < |entries| => SettingLine(entries[i].0, entries[i].1))
  }

  // ---------------------------------------------------------------------
  // the settings store
  // ---------------------------------------------------------------------

  /** The static settings map, as one object. */
  class Settings {
    var settingsMap: map<string, string>

    /** The static initialiser: every property at its default. */
    constructor ()
      ensures settingsMap == Defaults()
    {
      settingsMap := Defaults();
    }

    /** The loop of loadSettings over the lines of the settings file. */
    method LoadSettings(lines: seq<string>)
      modifies this
      ensures settingsMap == ApplyLines(old(settingsMap), lines)
    {
      for i := 0 to |lines|
        invariant settingsMap == ApplyLines(old(settingsMap), lines[..i])
      {
        ApplyStep(old(settingsMap), lines, i);
        LoadLine(lines[i]);
      }
      assert lines[..|lines|] == lines;
    }

    /** The body of that loop: one line of the settings file. */
    method LoadLine(line: string)
      modifies this
      ensures settingsMap == ApplyLine(old(settingsMap), line)
    {
      if !(IsBlank(line) || StartsWith(line, "#")) {
        var operatorPosition := IndexOfChar(line, '=');
        if operatorPosition != -1 {
          var property := Trim(line[..operatorPosition]);
          var value := Trim(line[operatorPosition + 1..]);
          if !(IsBlank(property) || IsBlank(value)) {
            ApplyPieces(settingsMap, line, operatorPosition, property, value);
            settingsMap := settingsMap[property := value];
          } else {
            ApplyBlankPiece(settingsMap, line, operatorPosition);
          }
        } else {
          ApplySkipped(settingsMap, line);
        }
      } else {
        ApplySkipped(settingsMap, line);
      }
    }

    /** getIntProperty: the stored text as an int, if it is one. */
    function IntProperty(property: string): Option<int>
      reads this
    {
      if property in settingsMap then ParseInt(settingsMap[property]) else None
    }

    /** getBoolProperty: the stored text as a boolean, if there is one. */
    function BoolProperty(property: string): Option<bool>
      reads this
    {
      if property in settingsMap then Some(ParseBoolean(settingsMap[property])) else None
    }

    /** getEdgeHarmonic: the stored int, or 108 when it is absent or not an int. */
    function EdgeHarmonic(): (r: int)
      reads this
      ensures IsInt32(r)
      ensures EDGE_HARMONIC_KEY in settingsMap && ParseInt(settingsMap[EDGE_HARMONIC_KEY]).Some? ==>
        r == ParseInt(settingsMap[EDGE_HARMONIC_KEY]).value
      ensures EDGE_HARMONIC_KEY !in settingsMap || ParseInt(settingsMap[EDGE_HARMONIC_KEY]).None? ==>
        r == EDGE_HARMONIC_DEFAULT
    {
      match IntProperty(EDGE_HARMONIC_KEY)
      case Some(n) => n
      case None => EDGE_HARMONIC_DEFAULT
    }

    /** getOrbDivisor: the stored int, or 30 when it is absent or not an int. */
    function OrbDivisor(): (r: int)
      reads this
      ensures IsInt32(r)
      ensures ORBS_DIVISOR_KEY in settingsMap && ParseInt(settingsMap[ORBS_DIVISOR_KEY]).Some? ==>
        r == ParseInt(settingsMap[ORBS_DIVISOR_KEY]).value
      ensures ORBS_DIVISOR_KEY !in settingsMap || ParseInt(settingsMap[ORBS_DIVISOR_KEY]).None? ==>
        r == ORBS_DIVISOR_DEFAULT
    {
      match IntProperty(ORBS_DIVISOR_KEY)
      case Some(n) => n
      case None => ORBS_DIVISOR_DEFAULT
    }

    /** isHalfOrbsForDoubles: "true" in any case when stored, else the default (true). */
    function IsHalfOrbsForDoubles(): (r: bool)
      reads this
      ensures HALF_ORBS_KEY in settingsMap ==> (r <==> ToLowerCase(settingsMap[HALF_ORBS_KEY]) == "true")
      ensures HALF_ORBS_KEY !in settingsMap ==> r == HALF_ORBS_FOR_DOUBLES_DEFAULT
    {
      match BoolProperty(HALF_ORBS_KEY)
      case Some(b) => b
      case None => HALF_ORBS_FOR_DOUBLES_DEFAULT
    }

    /** isAutosave: "true" in any case when stored, else the default (false). */
    function IsAutosave(): (r: bool)
      reads this
      ensures AUTOSAVE_KEY in settingsMap ==> (r <==> ToLowerCase(settingsMap[AUTOSAVE_KEY]) == "true")
      ensures AUTOSAVE_KEY !in settingsMap ==> r == AUTOSAVE_DEFAULT
    {
      match BoolProperty(AUTOSAVE_KEY)
      case Some(b) => b
      case None => AUTOSAVE_DEFAULT
    }

    /** isAutoloadEnabled: "true" in any case when stored, else the default (true). */
    function IsAutoloadEnabled(): (r: bool)
      reads this
      ensures AUTOLOAD_ENABLED_KEY in settingsMap ==> (r <==> ToLowerCase(settingsMap[AUTOLOAD_ENABLED_KEY]) == "true")
      ensures AUTOLOAD_ENABLED_KEY !in settingsMap ==> r == AUTOLOAD_ENABLED_DEFAULT
    {
      match BoolProperty(AUTOLOAD_ENABLED_KEY)
      case Some(b) => b
      case None => AUTOLOAD_ENABLED_DEFAULT
    }

    /** getAutoloadFile: the stored text, or "autosave.daw". */
    function AutoloadFile(): (r: string)
      reads this
      ensures AUTOLOAD_FILE_KEY in settingsMap ==> r == settingsMap[AUTOLOAD_FILE_KEY]
      ensures AUTOLOAD_FILE_KEY !in settingsMap ==> r == AUTOLOAD_FILE_DEFAULT
    {
      if AUTOLOAD_FILE_KEY in settingsMap then settingsMap[AUTOLOAD_FILE_KEY] else AUTOLOAD_FILE_DEFAULT
    }

    /**
     * getPrimalOrb: the circle divided by the orb divisor; None stands for
     * the infinite double a zero divisor gives.
     */
    function PrimalOrb(): (r: Option<real>)
      reads this
      ensures r.None? <==> OrbDivisor() == 0
      ensures r.Some? ==> r.value * OrbDivisor() as real == CIRCLE
    {
      if OrbDivisor() == 0 then None else Some(CIRCLE / OrbDivisor() as real)
    }

    /** setAutosave: only the autosave property changes, and reads back as set. */
    method SetAutosave(turnAutosaveOn: bool)
      modifies this
      ensures settingsMap == old(settingsMap)[AUTOSAVE_KEY := BoolToString(turnAutosaveOn)]
      ensures IsAutosave() == turnAutosaveOn
    {
      settingsMap := settingsMap[AUTOSAVE_KEY := BoolToString(turnAutosaveOn)];
      ParseBooleanOfToString(turnAutosaveOn);
    }

    /** setAutoloadFile: the name, with ".daw" appended unless it ends so already. */
    method SetAutoloadFile(autoloadFile: string)
      modifies this
      ensures settingsMap == old(settingsMap)[AUTOLOAD_FILE_KEY := AddExtension(autoloadFile)]
      ensures EndsWith(AutoloadFile(), EXTENSION)
    {
      var name := autoloadFile;
      if !EndsWith(name, EXTENSION) {
        name := name + EXTENSION;
      }
      settingsMap := settingsMap[AUTOLOAD_FILE_KEY := name];
    }

    /** setEdgeHarmonic: only the edge harmonic changes, and reads back as set. */
    method SetEdgeHarmonic(edgeHarmonic: int)
      requires IsInt32(edgeHarmonic)
      modifies this
      ensures settingsMap == old(settingsMap)[EDGE_HARMONIC_KEY := IntToString(edgeHarmonic)]
      ensures EdgeHarmonic() == edgeHarmonic
    {
      settingsMap := settingsMap[EDGE_HARMONIC_KEY := IntToString(edgeHarmonic)];
      ParseIntOfToString(edgeHarmonic);
    }

    /** setOrbDivider: only the orb divisor changes, and reads back as set. */
    method SetOrbDivider(orbsDivisor: int)
      requires IsInt32(orbsDivisor)
      modifies this
      ensures settingsMap == old(settingsMap)[ORBS_DIVISOR_KEY := IntToString(orbsDivisor)]
      ensures OrbDivisor() == orbsDivisor
    {
      settingsMap := settingsMap[ORBS_DIVISOR_KEY := IntToString(orbsDivisor)];
      ParseIntOfToString(orbsDivisor);
    }

    /** disableHalfOrbForDoubles: the flag stored as "false". */
    method DisableHalfOrbForDoubles()
      modifies this
      ensures settingsMap == old(settingsMap)[HALF_ORBS_KEY := "false"]
      ensures !IsHalfOrbsForDoubles()
    {
      settingsMap := settingsMap[HALF_ORBS_KEY := "false"];
      ParseBooleanOfToString(false);
    }

    /** enableHalfOrbForDoubles: the flag stored as "true". */
    method EnableHalfOrbForDoubles()
      modifies this
      ensures settingsMap == old(settingsMap)[HALF_ORBS_KEY := "true"]
      ensures IsHalfOrbsForDoubles()
    {
      settingsMap := settingsMap[HALF_ORBS_KEY := "true"];
      ParseBooleanOfToString(true);
    }
  }

  /** With nothing loaded, the getters give the defaults: edge 108, divisor 30, a 12° primal orb. */
  lemma DefaultsRead(s: Settings)
    requires s.settingsMap == Defaults()
    ensures s.EdgeHarmonic() == 108 && s.OrbDivisor() == 30 && s.PrimalOrb() == Some(12.0)
    ensures s.IsHalfOrbsForDoubles() && !s.IsAutosave() && s.IsAutoloadEnabled()
    ensures s.AutoloadFile() == "autosave.daw"
  {
    ParseIntOfToString(EDGE_HARMONIC_DEFAULT);
    ParseIntOfToString(ORBS_DIVISOR_DEFAULT);
    ParseBooleanOfToString(true);
    ParseBooleanOfToString(false);
  }
}
