/**
 * The `.daw` album files of the file chart repository: the file-name
 * extension, the line reader that rebuilds an album's charts and
 * multicharts, and the summary of an album's chart names.
 *
 * The reader works on the lines of a file, given as a sequence; charts are
 * modelled by value (a name and the astra readings placed in it), so an
 * album is a list of slots holding chart or multichart values.
 */
module DawFiles {
  import opened Wrappers
  import opened Text
  import opened Lists
  import opened Charts

  const EXTENSION: string := ".daw"

  // ---------------------------------------------------------------------
  // the extension
  // ---------------------------------------------------------------------

  /** addExtension: the name with ".daw" at its end, appended unless already there. */
  function AddExtension(albumName: string): (r: string)
    ensures EndsWith(r, EXTENSION) && StartsWith(r, albumName)
  {
    if EndsWith(albumName, EXTENSION) then albumName else albumName + EXTENSION
  }

  /** removeExtension: one trailing ".daw" removed, if there is one. */
  function RemoveExtension(filename: string): (r: string)
    ensures r == filename || r + EXTENSION == filename
  {
    if EndsWith(filename, EXTENSION) then filename[..|filename| - |EXTENSION|] else filename
  }

  /** Adding the extension twice is adding it once. */
  lemma AddExtensionIdempotent(albumName: string)
    ensures AddExtension(AddExtension(albumName)) == AddExtension(albumName)
  {
  }

  /** A name without the extension comes back from adding and removing it. */
  lemma RemoveAddedExtension(albumName: string)
    requires !EndsWith(albumName, EXTENSION)
    ensures RemoveExtension(AddExtension(albumName)) == albumName
  {
    var r := albumName + EXTENSION;
    assert r[|r| - |EXTENSION|..] == EXTENSION;
    assert r[..|r| - |EXTENSION|] == albumName;
  }

  /**
   * A file name with one extension comes back from removing and adding it;
   * with two ("a.daw.daw") it does not, since only one is removed and none
   * is added back.
   */
  lemma AddRemovedExtension(filename: string)
    requires EndsWith(filename, EXTENSION) && !EndsWith(RemoveExtension(filename), EXTENSION)
    ensures AddExtension(RemoveExtension(filename)) == filename
  {
    var stem := RemoveExtension(filename);
    assert stem + EXTENSION == filename;
  }

  /** Only one extension is removed: "a.daw.daw" gives "a.daw". */
  lemma RemoveOnlyOneExtension()
    ensures RemoveExtension("a.daw.daw") == "a.daw"
  {
    assert EndsWith("a.daw.daw", EXTENSION);
  }

  // ---------------------------------------------------------------------
  // the album as values
  // ---------------------------------------------------------------------

  /** A chart by value: its name and the readings of its astras, unique by name. */
  datatype Draft = Draft(name: string, astras: seq<(string, real)>)

  /** A chart object by value: a chart, or a multichart over charts. */
  datatype Entry = ChartEntry(chart: Draft) | MultiEntry(name: string, moments: seq<Draft>)
  {
    function Name(): string
    {
      match this
      case ChartEntry(d) => d.name
      case MultiEntry(n, _) => n
    }
  }

  /** The chart list a file reads into: its name and its slots (None is a null slot). */
  datatype Album = Album(name: string, charts: seq<Option<Entry>>)

  function SlotName(o: Option<Entry>): Option<string>
  {
    if o.Some? then Some(o.value.Name()) else None
  }

  function SlotNames(read: seq<Option<Entry>>): (r: seq<Option<string>>)
    ensures |r| == |read| && forall i :: 0 <= i < |read| ==> r[i] == SlotName(read[i])
  {
    Map(read, SlotName)
  }

  /**
   * ChartList.add on the slots: null is appended; an entry whose name is
   * listed goes to the collision resolution, modelled by its cancel outcome
   * (nothing changes); any other entry is appended.
   */
  function AddSlot(read: seq<Option<Entry>>, e: Option<Entry>): (r: seq<Option<Entry>>)
    ensures r == read || r == read + [e]
    ensures e.None? ==> r == read + [None]
    ensures e.Some? ==> (r == read <==> exists i :: 0 <= i < |read| && read[i].Some? && read[i].value.Name() == e.value.Name())
  {
    if e.None? then read + [None]
    else if SlotName(e) in SlotNames(read) then read
    else read + [e]
  }

  /** No two entries of the slots have the same name. */
  predicate UniqueNames(read: seq<Option<Entry>>)
  {
    forall i, j :: 0 <= i < j < |read| && read[i].Some? && read[j].Some? ==> read[i].value.Name() != read[j].value.Name()
  }

  /** Adding a slot never lists a chart name twice. */
  lemma AddSlotKeepsNamesUnique(read: seq<Option<Entry>>, e: Option<Entry>)
    requires UniqueNames(read)
    ensures UniqueNames(AddSlot(read, e))
  {
  }

  /** The slot a chart being filled goes to: its entry, or null when there is none. */
  function DraftEntry(d: Option<Draft>): Option<Entry>
  {
    if d.Some? then Some(ChartEntry(d.value)) else None
  }

  /** Chart.addAstra on the value: the reading replaces the astra of its name, or is appended. */
  function AddAstra(d: Draft, a: (string, real)): Draft
  {
    Draft(d.name, Placed(d.astras, a, ReadingName))
  }

  // ---------------------------------------------------------------------
  // the line loop of readChartsFromDAW
  // ---------------------------------------------------------------------

  /** The variables of the line loop. */
  datatype ScanState = ScanState(read: seq<Option<Entry>>, nextChart: Option<Draft>, fillingChart: bool, descriptions: seq<string>)

  const START: ScanState := ScanState([], None, false, [])

  /** A line the reader skips: blank, or a `//` comment. */
  predicate Ignored(line: string)
  {
    IsBlank(line) || StartsWith(line, "//")
  }

  /**
   * One line of the loop: a "<…>" line closes the chart being filled, queues
   * its description and reserves a null slot; a "#name" line closes the chart
   * being filled and starts a new one; any other line is an astra of the
   * chart being filled, if there is one.
   */
  function ScanLine(s: ScanState, line: string): Result<ScanState>
  {
    if Ignored(line) then Ok(s)
    else if StartsWith(line, "<") then
      var read := if s.fillingChart then AddSlot(s.read, DraftEntry(s.nextChart)) else s.read;
      var nextChart := if s.fillingChart then None else s.nextChart;
      var close := LastIndexOfChar(line, '>');
      if close < 1 then Err(IndexOutOfBounds)
      else Ok(ScanState(AddSlot(read, None), nextChart, false, s.descriptions + [Trim(line[1..close])]))
    else if StartsWith(line, "#") then
      var read := if s.fillingChart then AddSlot(s.read, DraftEntry(s.nextChart)) else s.read;
      Ok(ScanState(read, Some(Draft(Trim(line[1..]), [])), true, s.descriptions))
    else if s.nextChart.Some? then
      match ReadAstraLine(line)
      case Err(e) => Err(e)
      case Ok(a) => Ok(s.(nextChart := Some(AddAstra(s.nextChart.value, a))))
    else Ok(s)
  }

  /** The loop over the lines from a state, stopping at the first exception. */
  function ScanFrom(s: ScanState, lines: seq<string>): Result<ScanState>
  {
    if lines == [] then Ok(s)
    else
      match ScanFrom(s, lines[..|lines| - 1])
      case Err(e) => Err(e)
      case Ok(t) => ScanLine(t, lines[|lines| - 1])
  }

  /** Scanning in two parts is scanning the first, then the second from there. */
  lemma {:induction false} ScanFromConcat(s: ScanState, a: seq<string>, b: seq<string>)
    ensures ScanFrom(s, a + b) ==
      match ScanFrom(s, a)
      case Err(e) => Err(e)
      case Ok(t) => ScanFrom(t, b)
    decreases |b|
  {
    if b == [] {
      assert a + b == a;
    } else {
      assert (a + b)[..|a + b| - 1] == a + b[..|b| - 1];
      ScanFromConcat(s, a, b[..|b| - 1]);
      if ScanFrom(s, a).Err? {
        assert ScanFrom(s, a + b[..|b| - 1]).Err?;
      }
    }
  }

  lemma {:induction false} ScanErrorPersists(lines: seq<string>, n: nat)
    requires 1 <= n <= |lines| && ScanFrom(START, lines[..n]).Err?
    ensures ScanFrom(START, lines) == ScanFrom(START, lines[..n])
    decreases |lines| - n
  {
    if n < |lines| {
      assert lines[..n + 1][..n] == lines[..n];
      ScanErrorPersists(lines, n + 1);
    } else {
      assert lines[..n] == lines;
    }
  }

  /** The number of null slots. */
  function Holes(read: seq<Option<Entry>>): nat
  {
    if read == [] then 0 else Holes(read[..|read| - 1]) + (if read[|read| - 1].None? then 1 else 0)
  }

  lemma HolesAppend(read: seq<Option<Entry>>, e: Option<Entry>)
    ensures Holes(read + [e]) == Holes(read) + (if e.None? then 1 else 0)
  {
    assert (read + [e])[..|read|] == read;
  }

  /** Slots that hold charts or are null: no multichart yet. */
  predicate OnlyCharts(read: seq<Option<Entry>>)
  {
    forall i :: 0 <= i < |read| && read[i].Some? ==> read[i].value.ChartEntry?
  }

  /**
   * What the loop keeps: the filling flag says exactly whether a chart is
   * being filled, there is one null slot per queued description, only
   * charts are in the list, and no chart name is listed twice.
   */
  predicate Consistent(s: ScanState)
  {
    (s.fillingChart <==> s.nextChart.Some?) && Holes(s.read) == |s.descriptions| && OnlyCharts(s.read) && UniqueNames(s.read)
  }

  /** Closing a chart keeps the null slots and the chart-only list. */
  lemma AddChartKeeps(read: seq<Option<Entry>>, d: Draft)
    requires OnlyCharts(read)
    ensures Holes(AddSlot(read, Some(ChartEntry(d)))) == Holes(read)
    ensures OnlyCharts(AddSlot(read, Some(ChartEntry(d))))
  {
    HolesAppend(read, Some(ChartEntry(d)));
  }

  /** Closing the chart being filled keeps the null slots, the chart-only list and the unique names. */
  lemma CloseKeeps(s: ScanState)
    requires Consistent(s)
    ensures var read := if s.fillingChart then AddSlot(s.read, DraftEntry(s.nextChart)) else s.read;
      Holes(read) == Holes(s.read) && OnlyCharts(read) && UniqueNames(read)
  {
    if s.fillingChart {
      AddChartKeeps(s.read, s.nextChart.value);
      AddSlotKeepsNamesUnique(s.read, DraftEntry(s.nextChart));
    }
  }

  lemma ScanLineConsistent(s: ScanState, line: string)
    requires Consistent(s) && ScanLine(s, line).Ok?
    ensures Consistent(ScanLine(s, line).value)
  {
    if Ignored(line) {
    } else if StartsWith(line, "<") {
      var close := LastIndexOfChar(line, '>');
      MultiHeaderConsistent(s, Trim(line[1..close]));
    } else if StartsWith(line, "#") {
      CloseKeeps(s);
    }
  }

  /** A multi-chart header line closes the chart being filled and adds one null slot and one description. */
  lemma MultiHeaderConsistent(s: ScanState, description: string)
    requires Consistent(s)
    ensures var read := if s.fillingChart then AddSlot(s.read, DraftEntry(s.nextChart)) else s.read;
      var nextChart := if s.fillingChart then None else s.nextChart;
      Consistent(ScanState(AddSlot(read, None), nextChart, false, s.descriptions + [description]))
  {
    var read := if s.fillingChart then AddSlot(s.read, DraftEntry(s.nextChart)) else s.read;
    CloseKeeps(s);
    HolesAppend(read, None);
    AddSlotKeepsNamesUnique(read, None);
  }

  /** Every state the loop reaches is consistent. */
  lemma {:induction false} ScanConsistent(lines: seq<string>)
    requires ScanFrom(START, lines).Ok?
    ensures Consistent(ScanFrom(START, lines).value)
  {
    if lines != [] {
      var init := lines[..|lines| - 1];
      ScanConsistent(init);
      ScanLineConsistent(ScanFrom(START, init).value, lines[|lines| - 1]);
    }
  }

  /** The slots after the loop: the chart still being filled is added last. */
  function Closed(s: ScanState): seq<Option<Entry>>
  {
    if s.nextChart.Some? then AddSlot(s.read, DraftEntry(s.nextChart)) else s.read
  }

  /** The loop of readChartsFromDAW over the lines, with its variables. */
  method ScanLines(lines: seq<string>) returns (r: Result<ScanState>)
    ensures r == ScanFrom(START, lines)
  {
    var read: seq<Option<Entry>> := [];
    var nextChart: Option<Draft> := None;
    var fillingChart := false;
    var multiChartDescriptions: seq<string> := [];
    for i := 0 to |lines|
      invariant ScanFrom(START, lines[..i]) == Ok(ScanState(read, nextChart, fillingChart, multiChartDescriptions))
    {
      var line := lines[i];
      assert lines[..i + 1][..i] == lines[..i];
      if IsBlank(line) || StartsWith(line, "//") {
      } else if StartsWith(line, "<") {
        if fillingChart {
          fillingChart := false;
          read := AddSlot(read, DraftEntry(nextChart));
          nextChart := None;
        }
        var close := LastIndexOfChar(line, '>');
        if close < 1 {
          ScanErrorPersists(lines, i + 1);
          return Err(IndexOutOfBounds);
        }
        multiChartDescriptions := multiChartDescriptions + [Trim(line[1..close])];
        read := AddSlot(read, None);
      } else if StartsWith(line, "#") {
        if fillingChart {
          read := AddSlot(read, DraftEntry(nextChart));
        }
        nextChart := Some(Draft(Trim(line[1..]), []));
        fillingChart := true;
      } else if nextChart.Some? {
        var astra := ReadAstraLine(line);
        if astra.Err? {
          ScanErrorPersists(lines, i + 1);
          return Err(astra.error);
        }
        nextChart := Some(AddAstra(nextChart.value, astra.value));
      }
    }
    assert lines[..|lines|] == lines;
    r := Ok(ScanState(read, nextChart, fillingChart, multiChartDescriptions));
  }

  // ---------------------------------------------------------------------
  // the multicharts and the null slots
  // ---------------------------------------------------------------------

  /** (Chart) read.get(name): the chart of the first slot with this name. */
  function FindDraft(read: seq<Option<Entry>>, name: string): Option<Draft>
  {
    var i := IndexOf(SlotNames(read), Some(name));
    if i < 0 then None
    else match read[i]
      case Some(ChartEntry(d)) => Some(d)
      // no multichart is in the list while descriptions are resolved
      case _ => None
  }

  /** The charts the trimmed parts name, or None if a name is not a chart of the list. */
  function Components(read: seq<Option<Entry>>, parts: seq<string>): (r: Option<seq<Draft>>)
    ensures r.Some? ==> |r.value| == |parts|
  {
    if parts == [] then Some([])
    else
      match Components(read, parts[..|parts| - 1])
      case None => None
      case Some(cs) =>
        match FindDraft(read, Trim(parts[|parts| - 1]))
        case None => None
        case Some(c) => Some(cs + [c])
  }

  /**
   * One description: its parts between '#' are the title and the component
   * names; fewer than two parts or an unknown component is a format error.
   * The title is the trimmed first part cut at the last ':' of the whole
   * description, which is out of bounds when that ':' lies beyond the title.
   */
  function MultiOf(read: seq<Option<Entry>>, description: string): Result<Entry>
  {
    var parts := Split(description, '#');
    if |parts| < 2 then Err(FileFormat)
    else
      match Components(read, parts[1..])
      case None => Err(FileFormat)
      case Some(moments) =>
        var head := Trim(parts[0]);
        var colon := LastIndexOfChar(description, ':');
        if colon < 0 || colon > |head| then Err(IndexOutOfBounds)
        else Ok(MultiEntry(head[..colon], moments))
  }

  /** The multicharts of the queued descriptions, in order, or the first exception. */
  function Multis(read: seq<Option<Entry>>, descriptions: seq<string>): (r: Result<seq<Entry>>)
    ensures r.Ok? ==> |r.value| == |descriptions|
  {
    if descriptions == [] then Ok([])
    else
      match Multis(read, descriptions[..|descriptions| - 1])
      case Err(e) => Err(e)
      case Ok(ms) =>
        match MultiOf(read, descriptions[|descriptions| - 1])
        case Err(e) => Err(e)
        case Ok(m) => Ok(ms + [m])
  }

  /** The null slots filled in order from the queue; an empty queue throws NoSuchElement. */
  function Fill(read: seq<Option<Entry>>, multis: seq<Entry>): Result<seq<Option<Entry>>>
  {
    if read == [] then Ok([])
    else if read[0].Some? then
      match Fill(read[1..], multis)
      case Err(e) => Err(e)
      case Ok(rest) => Ok([read[0]] + rest)
    else if multis == [] then Err(NoSuchElement)
    else
      match Fill(read[1..], multis[1..])
      case Err(e) => Err(e)
      case Ok(rest) => Ok([Some(multis[0])] + rest)
  }

  /**
   * readChartsFromDAW over the lines of a present or missing file: a
   * blank name is an IllegalArgument and a missing file FileNotFound;
   * otherwise the line loop, the last chart, the multicharts and the filled
   * slots, under the name without its extension.
   */
  function ReadDaw(filename: string, present: bool, lines: seq<string>): Result<Album>
  {
    if IsBlank(filename) then Err(IllegalArgument)
    else if !present then Err(FileNotFound)
    else
      match ScanFrom(START, lines)
      case Err(e) => Err(e)
      case Ok(s) =>
        match Assemble(s)
        case Err(e) => Err(e)
        case Ok(charts) => Ok(Album(RemoveExtension(filename), charts))
  }

  /** After the loop: the last chart added, the multicharts made, the null slots filled. */
  function Assemble(s: ScanState): Result<seq<Option<Entry>>>
  {
    var read := Closed(s);
    match Multis(read, s.descriptions)
    case Err(e) => Err(e)
    case Ok(ms) => Fill(read, ms)
  }

  // ---------------------------------------------------------------------
  // the methods
  // ---------------------------------------------------------------------

  /** The multichart loop: each description split, its components looked up, its title cut. */
  method RestoreMultis(read: seq<Option<Entry>>, descriptions: seq<string>) returns (r: Result<seq<Entry>>)
    ensures r == Multis(read, descriptions)
  {
    var multiCharts: seq<Entry> := [];
    for k := 0 to |descriptions|
      invariant Multis(read, descriptions[..k]) == Ok(multiCharts)
    {
      MultisStep(read, descriptions, k);
      var multi := RestoreMulti(read, descriptions[k]);
      if multi.Err? {
        MultisErrorPersists(read, descriptions, k + 1);
        return Err(multi.error);
      }
      multiCharts := multiCharts + [multi.value];
    }
    assert descriptions[..|descriptions|] == descriptions;
    r := Ok(multiCharts);
  }

  /** The body of the multichart loop for one description. */
  method RestoreMulti(read: seq<Option<Entry>>, description: string) returns (r: Result<Entry>)
    ensures r == MultiOf(read, description)
  {
    var parts := Split(description, '#');
    if |parts| < 2 {
      return Err(FileFormat);
    }
    var components := FindComponents(read, parts[1..]);
    if components.None? {
      return Err(FileFormat);
    }
    var head := Trim(parts[0]);
    var colon := LastIndexOfChar(description, ':');
    if colon < 0 || colon > |head| {
      return Err(IndexOutOfBounds);
    }
    r := Ok(MultiEntry(head[..colon], components.value));
  }

  /** The component loop: each part trimmed and looked up; the first unknown name stops it. */
  method FindComponents(read: seq<Option<Entry>>, parts: seq<string>) returns (r: Option<seq<Draft>>)
    ensures r == Components(read, parts)
  {
    var components: seq<Draft> := [];
    for i := 0 to |parts|
      invariant Components(read, parts[..i]) == Some(components)
    {
      assert parts[..i + 1][..i] == parts[..i];
      var chart := FindDraft(read, Trim(parts[i]));
      if chart.None? {
        ComponentsMissingPersists(read, parts, i + 1);
        return None;
      }
      components := components + [chart.value];
    }
    assert parts[..|parts|] == parts;
    r := Some(components);
  }

  /** One more description: the multichart loop's step. */
  lemma MultisStep(read: seq<Option<Entry>>, descriptions: seq<string>, k: nat)
    requires k < |descriptions|
    ensures Multis(read, descriptions[..k + 1]) ==
      match Multis(read, descriptions[..k])
      case Err(e) => Err(e)
      case Ok(ms) =>
        match MultiOf(read, descriptions[k])
        case Err(e) => Err(e)
        case Ok(m) => Ok(ms + [m])
  {
    assert descriptions[..k + 1][..k] == descriptions[..k];
  }

  lemma {:induction false} MultisErrorPersists(read: seq<Option<Entry>>, descriptions: seq<string>, n: nat)
    requires 1 <= n <= |descriptions| && Multis(read, descriptions[..n]).Err?
    ensures Multis(read, descriptions) == Multis(read, descriptions[..n])
    decreases |descriptions| - n
  {
    if n < |descriptions| {
      assert descriptions[..n + 1][..n] == descriptions[..n];
      MultisErrorPersists(read, descriptions, n + 1);
    } else {
      assert descriptions[..n] == descriptions;
    }
  }

  lemma {:induction false} ComponentsMissingPersists(read: seq<Option<Entry>>, parts: seq<string>, n: nat)
    requires 1 <= n <= |parts| && Components(read, parts[..n]).None?
    ensures Components(read, parts).None?
    decreases |parts| - n
  {
    if n < |parts| {
      assert parts[..n + 1][..n] == parts[..n];
      ComponentsMissingPersists(read, parts, n + 1);
    } else {
      assert parts[..n] == parts;
    }
  }

  /** The in-place filling: each null slot, in order, takes the next multichart of the queue. */
  method FillSlots(read: seq<Option<Entry>>, multis: seq<Entry>) returns (r: Result<seq<Option<Entry>>>)
    ensures r == Fill(read, multis)
  {
    var slots := read;
    var queue := multis;
    assert read[0..] == read && slots[..0] == [];
    FillAfterEmpty(Fill(read, multis));
    for i := 0 to |read|
      invariant |slots| == |read| && slots[i..] == read[i..]
      invariant Fill(read, multis) == FillAfter(slots[..i], Fill(read[i..], queue))
    {
      ghost var before := queue;
      assert read[i..][0] == read[i] && read[i..][1..] == read[i + 1..];
      assert slots[i] == read[i] by {
        assert slots[i..][0] == read[i..][0];
      }
      if slots[i].None? {
        if queue == [] {
          assert Fill(read[i..], queue) == Err(NoSuchElement);
          return Err(NoSuchElement);
        }
        slots := slots[i := Some(queue[0])];
        queue := queue[1..];
      }
      assert slots[i + 1..] == read[i + 1..];
      assert Fill(read[i..], before) == FillAfter([slots[i]], Fill(read[i + 1..], queue));
      FillAfterAppend(slots[..i], slots[i], Fill(read[i + 1..], queue));
      assert slots[..i + 1] == slots[..i] + [slots[i]];
    }
    assert slots[..|read|] == slots && read[|read|..] == [] && slots + [] == slots;
    return Ok(slots);
  }

  /** A result with filled slots put before it. */
  function FillAfter(done: seq<Option<Entry>>, rest: Result<seq<Option<Entry>>>): Result<seq<Option<Entry>>>
  {
    match rest
    case Err(e) => Err(e)
    case Ok(xs) => Ok(done + xs)
  }

  lemma FillAfterEmpty(rest: Result<seq<Option<Entry>>>)
    ensures FillAfter([], rest) == rest
  {
    if rest.Ok? {
      assert [] + rest.value == rest.value;
    }
  }

  lemma FillAfterAppend(done: seq<Option<Entry>>, x: Option<Entry>, rest: Result<seq<Option<Entry>>>)
    ensures FillAfter(done + [x], rest) == FillAfter(done, FillAfter([x], rest))
  {
    if rest.Ok? {
      assert done + [x] + rest.value == done + ([x] + rest.value);
    }
  }

  /** readChartsFromDAW: the loop, the last chart, the multicharts, the filled slots. */
  method ReadChartsFromDaw(filename: string, present: bool, lines: seq<string>) returns (r: Result<Album>)
    ensures r == ReadDaw(filename, present, lines)
  {
    if IsBlank(filename) {
      return Err(IllegalArgument);
    }
    var listName := RemoveExtension(filename);
    if !present {
      return Err(FileNotFound);
    }
    var scanned := ScanLines(lines);
    if scanned.Err? {
      return Err(scanned.error);
    }
    var read := scanned.value.read;
    if scanned.value.nextChart.Some? {
      read := AddSlot(read, DraftEntry(scanned.value.nextChart));
    }
    var multiCharts := RestoreMultis(read, scanned.value.descriptions);
    if multiCharts.Err? {
      return Err(multiCharts.error);
    }
    var filled := FillSlots(read, multiCharts.value);
    if filled.Err? {
      return Err(filled.error);
    }
    r := Ok(Album(listName, filled.value));
  }

  // ---------------------------------------------------------------------
  // what the reader promises
  // ---------------------------------------------------------------------

  /** With as many multicharts as null slots, every slot is filled. */
  lemma {:induction false} FillComplete(read: seq<Option<Entry>>, multis: seq<Entry>)
    requires Holes(read) == |multis|
    ensures Fill(read, multis).Ok?
    ensures |Fill(read, multis).value| == |read|
    ensures forall i :: 0 <= i < |read| ==> Fill(read, multis).value[i].Some?
    ensures forall i :: 0 <= i < |read| && read[i].Some? ==> Fill(read, multis).value[i] == read[i]
    decreases |read|
  {
    if read != [] {
      HolesFront(read);
      var tail := if read[0].Some? then multis else multis[1..];
      FillComplete(read[1..], tail);
      var rest := Fill(read[1..], tail).value;
      var r := Fill(read, multis).value;
      forall i | 1 <= i < |read| ensures r[i] == rest[i - 1] && read[i] == read[1..][i - 1] {
      }
    }
  }

  /** The null slots counted from the front. */
  lemma {:induction false} HolesFront(read: seq<Option<Entry>>)
    requires read != []
    ensures Holes(read) == (if read[0].None? then 1 else 0) + Holes(read[1..])
    decreases |read|
  {
    if |read| > 1 {
      var init := read[..|read| - 1];
      HolesFront(init);
      assert init[1..] == read[1..][..|read[1..]| - 1];
    } else {
      assert read[1..] == [];
    }
  }

  /**
   * A file the reader accepts gives a list without null slots: every
   * reserved slot is taken by a multichart, and every chart keeps its slot.
   */
  lemma ReadLeavesNoHoles(filename: string, present: bool, lines: seq<string>)
    requires ReadDaw(filename, present, lines).Ok?
    ensures forall i :: 0 <= i < |ReadDaw(filename, present, lines).value.charts| ==>
      ReadDaw(filename, present, lines).value.charts[i].Some?
    ensures |ReadDaw(filename, present, lines).value.charts| == |Closed(ScanFrom(START, lines).value)|
  {
    var s := ScanFrom(START, lines).value;
    ScanConsistent(lines);
    if s.nextChart.Some? {
      AddChartKeeps(s.read, s.nextChart.value);
    }
    FillComplete(Closed(s), Multis(Closed(s), s.descriptions).value);
  }

  /** Blank lines and comments anywhere in the file change nothing. */
  lemma IgnoredLineChangesNothing(filename: string, present: bool, before: seq<string>, line: string, after: seq<string>)
    requires Ignored(line)
    ensures ReadDaw(filename, present, before + [line] + after) == ReadDaw(filename, present, before + after)
  {
    ScanFromConcat(START, before + [line], after);
    ScanFromConcat(START, before, after);
    assert (before + [line])[..|before|] == before;
  }

  /** A plain line read by the chart text reader: not ignored, not a header. */
  predicate AstraBody(lines: seq<string>)
  {
    forall i :: 0 <= i < |lines| ==> !StartsWith(lines[i], "<") && !StartsWith(lines[i], "#")
  }

  /** Astra lines that read as the chart text reader reads them. */
  lemma {:induction false} ScanBody(d: Draft, body: seq<string>)
    requires AstraBody(body) && ReadAstraLines(body).Ok?
    ensures ScanFrom(ScanState([], Some(d), true, []), body)
      == Ok(ScanState([], Some(Draft(d.name, PlaceAll(d.astras, ReadAstraLines(body).value, ReadingName))), true, []))
    decreases |body|
  {
    if body != [] {
      var init := body[..|body| - 1];
      assert ReadAstraLines(init).Ok?;
      ScanBody(d, init);
      var line := body[|body| - 1];
      if IsAstraLine(line) {
        assert ReadAstraLines(body).value == ReadAstraLines(init).value + [ReadAstraLine(line).value];
        PlaceAllAppend(d.astras, ReadAstraLines(init).value, ReadAstraLine(line).value);
      }
    }
  }

  lemma PlaceAllAppend(list: seq<(string, real)>, xs: seq<(string, real)>, x: (string, real))
    ensures PlaceAll(list, xs + [x], ReadingName) == Placed(PlaceAll(list, xs, ReadingName), x, ReadingName)
  {
    assert (xs + [x])[..|xs|] == xs;
  }

  /**
   * A file holding one chart, its "#name" header followed by astra lines,
   * reads as the one chart Chart.readFromString makes of the same name and
   * lines.
   */
  lemma OneChartFile(filename: string, name: string, body: seq<string>)
    requires !IsBlank(filename) && AstraBody(body) && ReadAstraLines(body).Ok?
    ensures ReadDaw(filename, true, ["#" + name] + body)
      == Ok(Album(RemoveExtension(filename), [Some(ChartEntry(Draft(Trim(name), PlaceAll([], ReadAstraLines(body).value, ReadingName))))]))
  {
    var done := Draft(Trim(name), PlaceAll([], ReadAstraLines(body).value, ReadingName));
    OneChartScan(name, body);
    AssembleOneChart(done);
    ReadOfScan(filename, ["#" + name] + body, ScanState([], Some(done), true, []), [Some(ChartEntry(done))]);
  }

  /** A chart still being filled at the end, and nothing else, is the whole list. */
  lemma AssembleOneChart(done: Draft)
    ensures Assemble(ScanState([], Some(done), true, [])) == Ok([Some(ChartEntry(done))])
  {
    var s := ScanState([], Some(done), true, []);
    var read := [Some(ChartEntry(done))];
    assert Closed(s) == read;
    assert Multis(read, []) == Ok([]);
    assert Holes(read) == 0 by {
      assert read[..0] == [];
    }
    FillComplete(read, []);
    assert Fill(read, []).value == read;
  }

  lemma ReadOfScan(filename: string, lines: seq<string>, s: ScanState, charts: seq<Option<Entry>>)
    requires !IsBlank(filename) && ScanFrom(START, lines) == Ok(s) && Assemble(s) == Ok(charts)
    ensures ReadDaw(filename, true, lines) == Ok(Album(RemoveExtension(filename), charts))
  {
  }

  /** The scan of a one-chart file ends filling that chart. */
  lemma OneChartScan(name: string, body: seq<string>)
    requires AstraBody(body) && ReadAstraLines(body).Ok?
    ensures ScanFrom(START, ["#" + name] + body)
      == Ok(ScanState([], Some(Draft(Trim(name), PlaceAll([], ReadAstraLines(body).value, ReadingName))), true, []))
  {
    var d := Draft(Trim(name), []);
    HeaderScan(name);
    ScanFromConcat(START, ["#" + name], body);
    ScanBody(d, body);
  }

  /** A "#name" line opens a chart of that name, with no astras yet. */
  lemma HeaderScan(name: string)
    ensures ScanFrom(START, ["#" + name]) == Ok(ScanState([], Some(Draft(Trim(name), [])), true, []))
  {
    var header := "#" + name;
    assert !IsBlank(header) by {
      assert !IsWhitespace(header[0]);
    }
    FirstCharDecides(header, "//");
    FirstCharDecides(header, "<");
    assert header[..1] == "#";
    assert header[1..] == name;
    var first: seq<string> := [header];
    assert first[..0] == [];
  }

  /** A line whose first character differs from a prefix's does not start with it. */
  lemma FirstCharDecides(line: string, prefix: string)
    requires |line| > 0 && |prefix| > 0 && line[0] != prefix[0]
    ensures !StartsWith(line, prefix)
  {
    if |prefix| <= |line| {
      assert line[..|prefix|][0] == line[0];
    }
  }

  // ---------------------------------------------------------------------
  // buildSummery
  // ---------------------------------------------------------------------

  /** The summary of an album file: its name, its chart names, its modification time. */
  datatype AlbumInfo = AlbumInfo(name: string, chartNames: seq<string>, modified: int)

  /** A header line of the summary: starting with '#' or '<' and longer than one character. */
  predicate IsHeader(line: string)
  {
    (StartsWith(line, "#") || StartsWith(line, "<")) && |line| > 1
  }

  /** The name a header gives: after '#', or between '<' and the last ':', stripped. */
  function HeaderName(line: string): (r: Result<string>)
    requires IsHeader(line)
    ensures r.Err? <==> StartsWith(line, "<") && ':' !in line
    ensures r.Ok? ==> r.value == [] || (!IsWhitespace(r.value[0]) && !IsWhitespace(r.value[|r.value| - 1]))
  {
    if StartsWith(line, "<") then
      var colon := LastIndexOfChar(line, ':');
      if colon < 1 then Err(IndexOutOfBounds) else Ok(Strip(line[1..colon]))
    else Ok(Strip(line[1..]))
  }

  /** The names of the header lines, in order, or the exception of the first '<' line without ':'. */
  function SummaryNames(lines: seq<string>): (r: Result<seq<string>>)
    ensures r.Ok? ==> |r.value| == |Filter(lines, IsHeader)|
  {
    if lines == [] then Ok([])
    else
      var line := lines[|lines| - 1];
      match SummaryNames(lines[..|lines| - 1])
      case Err(e) => Err(e)
      case Ok(names) =>
        if !IsHeader(line) then Ok(names)
        else
          match HeaderName(line)
          case Err(e) => Err(e)
          case Ok(n) => Ok(names + [n])
  }

  /** buildSummery: the file name without extension, the header names, the time. */
  function BuildSummery(fileName: string, lines: seq<string>, modified: int): Result<AlbumInfo>
  {
    match SummaryNames(lines)
    case Err(e) => Err(e)
    case Ok(names) => Ok(AlbumInfo(RemoveExtension(fileName), names, modified))
  }

  /** A "#name" header with an unpadded name is summarised as that name. */
  lemma ChartHeaderName(name: string)
    requires name != [] && !IsWhitespace(name[0]) && !IsWhitespace(name[|name| - 1])
    ensures HeaderName("#" + name) == Ok(name)
  {
    assert ("#" + name)[1..] == name;
    StripNoop(name);
  }

  /** A multichart header "<title: …>" is summarised as its title. */
  lemma MultiHeaderName(title: string, rest: string)
    requires title != [] && !IsWhitespace(title[0]) && !IsWhitespace(title[|title| - 1])
    requires ':' !in rest
    ensures HeaderName("<" + title + ":" + rest) == Ok(title)
  {
    var line := "<" + title + ":" + rest;
    var colon := |title| + 1;
    assert line[colon] == ':';
    assert line[colon + 1..] == rest;
    LastIndexOfCharAt(line, ':', colon);
    assert line[1..colon] == title;
    StripNoop(title);
  }
}
