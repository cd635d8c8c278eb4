/**
 * The helpers of the command-line controller: yes/no answers, the search
 * for a chart in a chart list by number, name or name prefix, the argument
 * cut out of a command line, and the silent merge of a chart into a list.
 */
module Controller {
  import opened Wrappers
  import opened JavaLang
  import opened Text
  import opened Charts
  import opened ChartLists

  // ---------------------------------------------------------------------
  // yes and no
  // ---------------------------------------------------------------------

  const YES_VALUES: set<string> := {"да", "+", "yes", "true", "д", "y", "t", "1"}
  const NO_VALUES: set<string> := {"нет", "-", "no", "false", "н", "n", "f", "0"}

  /** positiveAnswer: the lower-cased answer is one of the yes words. */
  predicate PositiveAnswer(value: string)
  {
    ToLowerCase(value) in YES_VALUES
  }

  /** negativeAnswer: the lower-cased answer is one of the no words. */
  predicate NegativeAnswer(value: string)
  {
    ToLowerCase(value) in NO_VALUES
  }

  /** No answer is both yes and no. */
  lemma AnswersExclusive(value: string)
    ensures !(PositiveAnswer(value) && NegativeAnswer(value))
  {
    assert YES_VALUES !! NO_VALUES;
  }

  lemma LowerCharIdempotent(c: char)
    ensures LowerChar(LowerChar(c)) == LowerChar(c)
  {
  }

  /** The letter case of an answer does not matter. */
  lemma AnswersIgnoreCase(value: string)
    ensures PositiveAnswer(ToLowerCase(value)) == PositiveAnswer(value)
    ensures NegativeAnswer(ToLowerCase(value)) == NegativeAnswer(value)
  {
    forall i | 0 <= i < |value| ensures ToLowerCase(ToLowerCase(value))[i] == ToLowerCase(value)[i] {
      LowerCharIdempotent(value[i]);
    }
    assert ToLowerCase(ToLowerCase(value)) == ToLowerCase(value);
  }

  /** Upper-case yes and no are understood. */
  lemma ShoutedAnswers()
    ensures PositiveAnswer("ДА") && PositiveAnswer("Yes") && NegativeAnswer("НЕТ") && NegativeAnswer("No")
  {
    assert ToLowerCase("ДА") == "да";
    assert ToLowerCase("Yes") == "yes";
    assert ToLowerCase("НЕТ") == "нет";
    assert ToLowerCase("No") == "no";
  }

  // ---------------------------------------------------------------------
  // findChart
  // ---------------------------------------------------------------------

  /**
   * The first name slot that stops the prefix search: a null name (the
   * search fails on it) or a name starting with the query; -1 if none.
   */
  function FirstPrefixStop(names: seq<Option<string>>, order: string): (i: int)
    ensures -1 <= i < |names|
    ensures i >= 0 ==> names[i].None? || StartsWith(names[i].value, order)
    ensures forall k :: 0 <= k < |names| && (i < 0 || k < i) ==> names[k].Some? && !StartsWith(names[k].value, order)
  {
    if names == [] then -1
    else if names[0].None? || StartsWith(names[0].value, order) then 0
    else
      var j := FirstPrefixStop(names[1..], order);
      assert forall k :: 1 <= k < |names| ==> names[k] == names[1..][k - 1];
      if j < 0 then -1 else j + 1
  }

  /**
   * The chart object a query finds in a list: a blank query is an empty
   * request; digits only are a position from 1; otherwise the exact name,
   * then the first name the query begins.
   */
  function Located(charts: seq<Option<ChartObject>>, order: string): (r: Result<Option<ChartObject>>)
    ensures r.Err? ==> r.error in {EmptyRequest, ChartNotFound, NullPointer}
    ensures r.Err? && r.error == EmptyRequest <==> IsBlank(order)
    ensures r.Ok? ==> r.value in charts
  {
    if IsBlank(order) then Err(EmptyRequest)
    else if IsDigits(order) then ByPosition(charts, order)
    else
      var names := NamesOf(charts);
      if Some(order) in names then Ok(charts[IndexOf(names, Some(order))])
      else ByPrefix(charts, order)
  }

  /** A query of digits: the slot at that position from 1, if the number is an int in range. */
  function ByPosition(charts: seq<Option<ChartObject>>, order: string): (r: Result<Option<ChartObject>>)
    ensures r.Err? ==> r.error == ChartNotFound
    ensures r.Ok? ==> r.value in charts
  {
    match ParseInt(order)
    case None => Err(ChartNotFound)
    case Some(n) => if 0 <= n - 1 < |charts| then Ok(charts[n - 1]) else Err(ChartNotFound)
  }

  /** The prefix search over the names: fails on a null name met before any match. */
  function ByPrefix(charts: seq<Option<ChartObject>>, order: string): (r: Result<Option<ChartObject>>)
    ensures r.Err? ==> r.error in {ChartNotFound, NullPointer}
    ensures r.Ok? ==> r.value in charts
  {
    var names := NamesOf(charts);
    var i := FirstPrefixStop(names, order);
    if i < 0 then Err(ChartNotFound)
    else if names[i].None? then Err(NullPointer)
    else Ok(charts[i])
  }

  /** findChart: the number, the name, then the names one by one. */
  method FindChart(list: ChartList, order: string) returns (r: Result<Option<ChartObject>>)
    requires list.Valid()
    ensures r == Located(list.charts, order)
  {
    if IsBlank(order) {
      return Err(EmptyRequest);
    }
    if IsDigits(order) {
      var parsed := ParseInt(order);
      if parsed.None? {
        return Err(ChartNotFound);
      }
      var i := parsed.value - 1;
      if 0 <= i < list.Size() {
        return Ok(list.Get(i));
      }
      return Err(ChartNotFound);
    }
    if list.Contains(order) {
      return Ok(list.GetByName(order));
    }
    r := ScanNames(list, order);
  }

  /** The loop over getNames(): the first name the query begins, or the first null name. */
  method ScanNames(list: ChartList, order: string) returns (r: Result<Option<ChartObject>>)
    requires list.Valid()
    ensures r == ByPrefix(list.charts, order)
  {
    var names := list.names;
    for k := 0 to |names|
      invariant forall j :: 0 <= j < k ==> names[j].Some? && !StartsWith(names[j].value, order)
    {
      if names[k].None? {
        ByPrefixStops(list.charts, order, k);
        return Err(NullPointer);
      }
      if StartsWith(names[k].value, order) {
        var found := list.GetByName(names[k].value);
        ByPrefixStops(list.charts, order, k);
        return Ok(found);
      }
    }
    ByPrefixStops(list.charts, order, |names|);
    return Err(ChartNotFound);
  }

  /**
   * The prefix search stops at slot k when every earlier name is present
   * and not begun by the query: on a null name there, on a name the query
   * begins there (the first slot of that name), or at the end of the list.
   */
  lemma ByPrefixStops(charts: seq<Option<ChartObject>>, order: string, k: nat)
    requires k <= |charts|
    requires forall j :: 0 <= j < k ==> NamesOf(charts)[j].Some? && !StartsWith(NamesOf(charts)[j].value, order)
    ensures k == |charts| ==> ByPrefix(charts, order) == Err(ChartNotFound)
    ensures k < |charts| && charts[k].None? ==> ByPrefix(charts, order) == Err(NullPointer)
    ensures k < |charts| && charts[k].Some? && StartsWith(charts[k].value.Name(), order) ==>
      ByPrefix(charts, order) == Ok(charts[k]) && IndexOf(NamesOf(charts), NameOf(charts[k])) == k
  {
    var names := NamesOf(charts);
    var i := FirstPrefixStop(names, order);
    if k < |charts| && (charts[k].None? || StartsWith(charts[k].value.Name(), order)) {
      assert names[k] == NameOf(charts[k]);
      assert i == k;
    }
  }

  /** A position from 1 to the length finds the slot at that position. */
  lemma LocatedByPosition(charts: seq<Option<ChartObject>>, k: nat)
    requires 1 <= k <= |charts| && k <= INT_MAX
    ensures Located(charts, NatToString(k)) == Ok(charts[k - 1])
  {
    var s := NatToString(k);
    assert !IsWhitespace(s[0]);
    ParseIntOfToString(k);
    assert IntToString(k) == s;
  }

  /** An exact name (not a number) finds the first chart object of that name. */
  lemma LocatedByName(charts: seq<Option<ChartObject>>, i: nat)
    requires i < |charts| && charts[i].Some?
    requires var name := charts[i].value.Name(); !IsBlank(name) && !IsDigits(name)
    requires forall j :: 0 <= j < i ==> NameOf(charts[j]) != NameOf(charts[i])
    ensures Located(charts, charts[i].value.Name()) == Ok(charts[i])
  {
    var names := NamesOf(charts);
    IndexOfIs(names, names[i], i);
  }

  /**
   * A query that is neither a number nor a name, over a list without
   * empty slots, finds the first chart object whose name it begins, and
   * fails only when there is none.
   */
  lemma LocatedByPrefix(charts: seq<Option<ChartObject>>, order: string)
    requires !IsBlank(order) && !IsDigits(order) && Some(order) !in NamesOf(charts)
    requires forall k :: 0 <= k < |charts| ==> charts[k].Some?
    ensures var r := Located(charts, order);
      (r.Ok? <==> exists k :: 0 <= k < |charts| && StartsWith(charts[k].value.Name(), order))
      && (r.Ok? ==> (exists k :: 0 <= k < |charts| && r.value == charts[k] && StartsWith(charts[k].value.Name(), order)
                      && forall j :: 0 <= j < k ==> !StartsWith(charts[j].value.Name(), order)))
  {
    var names := NamesOf(charts);
    var i := FirstPrefixStop(names, order);
    if i >= 0 {
      assert names[i] == Some(charts[i].value.Name());
      forall j | 0 <= j < i ensures !StartsWith(charts[j].value.Name(), order) {
        assert names[j] == Some(charts[j].value.Name());
      }
    } else {
      forall k | 0 <= k < |charts| ensures !StartsWith(charts[k].value.Name(), order) {
        assert names[k] == Some(charts[k].value.Name());
      }
    }
  }

  /** Whatever the list's own findChart finds, the controller's search finds too. */
  lemma LocatedExtendsListSearch(list: ChartList, order: string)
    requires list.Valid() && list.FindChart(order).Ok?
    ensures Located(list.charts, order) == list.FindChart(order)
  {
  }

  // ---------------------------------------------------------------------
  // extractOrder
  // ---------------------------------------------------------------------

  /**
   * extractOrder: the trimmed input with `offset` characters cut from its
   * start (offset >= 0) or, for a negative offset, cut to the length of the
   * untrimmed input less -offset; trimmed again. A cut outside the trimmed
   * text fails as String.substring does.
   */
  function ExtractOrder(input: string, offset: int): (r: Result<string>)
    ensures r.Err? ==> r.error == IndexOutOfBounds
    ensures r.Ok? ==> |r.value| <= |Trim(input)|
    ensures offset >= 0 ==> (r.Ok? <==> offset <= |Trim(input)|)
    ensures offset < 0 ==> (r.Ok? <==> 0 <= |input| + offset <= |Trim(input)|)
  {
    var trimmed := Trim(input);
    if offset >= 0 then
      if offset <= |trimmed| then Ok(Trim(trimmed[offset..])) else Err(IndexOutOfBounds)
    else
      var end := |input| + offset;
      if 0 <= end <= |trimmed| then Ok(Trim(trimmed[..end])) else Err(IndexOutOfBounds)
  }

  /** A command word followed by a space and an unpadded argument gives the argument back. */
  lemma ExtractLeadingCommand(command: string, argument: string)
    requires command != [] && !IsTrimmable(command[0])
    requires argument != [] && !IsTrimmable(argument[0]) && !IsTrimmable(argument[|argument| - 1])
    ensures ExtractOrder(command + " " + argument, |command|) == Ok(argument)
  {
    var input := command + " " + argument;
    TrimNoop(input);
    assert input[|command|..] == " " + argument;
    TrimPadded(argument);
  }

  /** An unpadded argument followed by a command suffix gives the argument back. */
  lemma ExtractTrailingCommand(argument: string, command: string)
    requires argument != [] && !IsTrimmable(argument[0]) && !IsTrimmable(argument[|argument| - 1])
    requires command != [] && !IsTrimmable(command[|command| - 1])
    ensures ExtractOrder(argument + command, -|command|) == Ok(argument)
  {
    var input := argument + command;
    TrimNoop(input);
    assert input[..|argument|] == argument;
    TrimNoop(argument);
  }

  /**
   * A negative offset is measured on the untrimmed input: with a padding
   * space in front, the last character survives the cut.
   */
  lemma ExtractPaddedInput()
    ensures ExtractOrder(" ab", -1) == Ok("ab")
  {
    assert " ab" == " " + "ab";
    TrimPadded("ab");
    assert "ab"[..2] == "ab";
    TrimNoop("ab");
  }

  // ---------------------------------------------------------------------
  // mergeChartToListSilently
  // ---------------------------------------------------------------------

  /**
   * The outcome of mergeChartToListSilently as written: a new name is
   * appended; a known name is left alone without `replace`; with `replace`
   * the slot is looked up by object, so the list can only get the same
   * object back, and a different object with the known name fails.
   */
  function MergedAsWritten(charts: seq<Option<ChartObject>>, chart: ChartObject, replace: bool)
    : (r: (Result<bool>, seq<Option<ChartObject>>))
    ensures Some(chart.Name()) in NamesOf(charts) ==> r.1 == charts
    ensures Some(chart.Name()) !in NamesOf(charts) ==> r == (Ok(true), charts + [Some(chart)])
  {
    if Some(chart.Name()) !in NamesOf(charts) then (Ok(true), charts + [Some(chart)])
    else if !replace then (Ok(false), charts)
    else
      var i := IndexOf(charts, Some(chart));
      if i < 0 then (Err(IndexOutOfBounds), charts) else (Ok(true), charts[i := Some(chart)])
  }

  /** mergeChartToListSilently, as written. */
  method MergeChartToListSilently(list: ChartList, chart: ChartObject, replace: bool) returns (r: Result<bool>)
    requires list.Valid()
    modifies list
    ensures list.Valid() && list.listName == old(list.listName)
    ensures (r, list.charts) == MergedAsWritten(old(list.charts), chart, replace)
  {
    if !list.Contains(chart.Name()) {
      var added := list.AddItem(chart);
      return Ok(added);
    }
    if replace {
      var replaced := list.SetItem(IndexOf(list.charts, Some(chart)), chart);
      if replaced.Err? {
        return Err(replaced.error);
      }
    }
    return Ok(replace);
  }

  /**
   * As written, replacing with a different chart object of a known name
   * fails and leaves the list as it was.
   */
  lemma MergeReplaceFails(charts: seq<Option<ChartObject>>, chart: ChartObject)
    requires Some(chart.Name()) in NamesOf(charts) && Some(chart) !in charts
    ensures MergedAsWritten(charts, chart, true) == (Err(IndexOutOfBounds), charts)
  {
  }

  /**
   * The merge as intended: with `replace`, the chart object takes the slot
   * of the first chart object with its name.
   */
  function Merged(charts: seq<Option<ChartObject>>, chart: ChartObject, replace: bool)
    : (r: (Result<bool>, seq<Option<ChartObject>>))
    ensures r.0.Ok? && |r.1| >= |charts|
  {
    var names := NamesOf(charts);
    if Some(chart.Name()) !in names then (Ok(true), charts + [Some(chart)])
    else if !replace then (Ok(false), charts)
    else (Ok(true), charts[IndexOf(names, Some(chart.Name())) := Some(chart)])
  }

  /**
   * The intended merge: the chart object is in the list afterwards unless
   * its name was known and replacing was declined; only the slot of its
   * name (or a new last slot) changes; the result says whether the list changed.
   */
  lemma MergedPlacesChart(charts: seq<Option<ChartObject>>, chart: ChartObject, replace: bool)
    ensures var (r, after) := Merged(charts, chart, replace);
      var known := Some(chart.Name()) in NamesOf(charts);
      (Some(chart) in after <==> !known || replace || Some(chart) in charts)
      && r == Ok(!known || replace)
      && (known ==> |after| == |charts|
                    && forall k :: 0 <= k < |charts| && NameOf(charts[k]) != Some(chart.Name()) ==> after[k] == charts[k])
  {
    var names := NamesOf(charts);
    if Some(chart.Name()) in names && !replace {
    } else if Some(chart.Name()) in names {
      var i := IndexOf(names, Some(chart.Name()));
      var after := charts[i := Some(chart)];
      assert NameOf(charts[i]) == Some(chart.Name());
      assert after[i] == Some(chart);
    }
  }

  /** The intended merge keeps the names of a list unique. */
  lemma MergedKeepsUnique(charts: seq<Option<ChartObject>>, chart: ChartObject, replace: bool)
    requires UniqueNames(charts)
    ensures UniqueNames(Merged(charts, chart, replace).1)
  {
    var names := NamesOf(charts);
    var after := Merged(charts, chart, replace).1;
    if Some(chart.Name()) !in names {
      forall i | 0 <= i < |charts| && charts[i].Some? ensures charts[i].value.Name() != chart.Name() {
        assert names[i] == Some(charts[i].value.Name());
      }
    } else if replace {
      var i := IndexOf(names, Some(chart.Name()));
      assert NameOf(charts[i]) == Some(chart.Name());
      forall a, b | 0 <= a < b < |after| && after[a].Some? && after[b].Some?
        ensures after[a].value.Name() != after[b].value.Name()
      {
        if a == i {
          assert after[b] == charts[b];
        } else if b == i {
          assert after[a] == charts[a];
        }
      }
    }
  }

  /** mergeChartToListSilently with the slot looked up by name. */
  method MergeChartToList(list: ChartList, chart: ChartObject, replace: bool) returns (r: Result<bool>)
    requires list.Valid()
    modifies list
    ensures list.Valid() && list.listName == old(list.listName)
    ensures (r, list.charts) == Merged(old(list.charts), chart, replace)
  {
    if !list.Contains(chart.Name()) {
      var added := list.AddItem(chart);
      return Ok(added);
    }
    if replace {
      var replaced := list.SetItem(IndexOf(list.names, Some(chart.Name())), chart);
    }
    return Ok(replace);
  }
}
