/**
 * ChartList: a named list of chart objects kept next to a parallel list of
 * their names, with a modification counter that `forEach` watches. A slot may
 * hold null (the .daw reader reserves null slots for multi-charts), and its
 * name entry is then null too.
 */
module ChartLists {
  import opened Wrappers
  import opened JavaLang
  import opened Text
  import opened Lists
  import opened Sorting
  import opened Charts

  const DEFAULT_LIST_NAME := "список карт"

  /** The name entry that belongs to a slot: the chart object's name, or null. */
  function NameOf(o: Option<ChartObject>): Option<string>
  {
    if o.Some? then Some(o.value.Name()) else None
  }

  function NamesOf(charts: seq<Option<ChartObject>>): (r: seq<Option<string>>)
    ensures |r| == |charts| && forall i :: 0 <= i < |charts| ==> r[i] == NameOf(charts[i])
  {
    Map(charts, NameOf)
  }

  /** The two parallel lists agree: one name entry per slot, each the slot's own name. */
  predicate InSync(charts: seq<Option<ChartObject>>, names: seq<Option<string>>)
  {
    names == NamesOf(charts)
  }

  /** Taking the same slot out of both lists keeps them in step. */
  lemma RemovedInSync(charts: seq<Option<ChartObject>>, names: seq<Option<string>>, i: nat)
    requires InSync(charts, names) && i < |charts|
    ensures InSync(RemoveAt(charts, i), RemoveAt(names, i))
  {
    MapRemoveAt(charts, i, NameOf);
  }

  /** No two (non-null) chart objects of the list share a name. */
  predicate UniqueNames(charts: seq<Option<ChartObject>>)
  {
    forall i, j :: 0 <= i < j < |charts| && charts[i].Some? && charts[j].Some? ==>
      charts[i].value.Name() != charts[j].value.Name()
  }

  /** remove(String) on the slots: the outcome and the slots left. */
  function RemovedByName(charts: seq<Option<ChartObject>>, name: string): (Outcome, seq<Option<ChartObject>>)
  {
    var index := IndexOf(NamesOf(charts), Some(name));
    if index < 0 then (Fail(IndexOutOfBounds), charts) else (Pass, RemoveAt(charts, index))
  }

  /**
   * Removing by name: an absent name fails and changes nothing; otherwise
   * the first slot of the name goes, and with unique names no slot of that
   * name is left.
   */
  lemma RemovedByNameFacts(charts: seq<Option<ChartObject>>, name: string)
    ensures Some(name) !in NamesOf(charts) ==> RemovedByName(charts, name) == (Fail(IndexOutOfBounds), charts)
    ensures Some(name) in NamesOf(charts) ==>
      RemovedByName(charts, name) == (Pass, RemoveAt(charts, IndexOf(NamesOf(charts), Some(name))))
    ensures UniqueNames(charts) ==> Some(name) !in NamesOf(RemovedByName(charts, name).1)
  {
    var index := IndexOf(NamesOf(charts), Some(name));
    if index >= 0 && UniqueNames(charts) {
      var after := RemoveAt(charts, index);
      forall k | 0 <= k < |after| ensures NameOf(after[k]) != Some(name) {
        var j := if k < index then k else k + 1;
        assert after[k] == charts[j];
      }
    }
  }

  /** remove(ChartObject) on the slots: the outcome and the slots left. */
  function RemovedObject(charts: seq<Option<ChartObject>>, item: ChartObject): (Outcome, seq<Option<ChartObject>>)
  {
    var index := IndexOf(charts, Some(item));
    if index < 0 then (Fail(IndexOutOfBounds), charts) else (Pass, RemoveAt(charts, index))
  }

  /**
   * Removing an object: an absent one fails and changes nothing; otherwise
   * its first slot goes, and exactly one occurrence of it is gone.
   */
  lemma RemovedObjectFacts(charts: seq<Option<ChartObject>>, item: ChartObject)
    ensures Some(item) !in charts ==> RemovedObject(charts, item) == (Fail(IndexOutOfBounds), charts)
    ensures Some(item) in charts ==>
      RemovedObject(charts, item) == (Pass, RemoveAt(charts, IndexOf(charts, Some(item))))
      && multiset(RemovedObject(charts, item).1) == multiset(charts) - multiset{Some(item)}
  {
    var index := IndexOf(charts, Some(item));
    if index >= 0 {
      RemoveAtMultiset(charts, index);
    }
  }

  // ---------------------------------------------------------------------
  // add / addAll as functions on the list of slots
  // ---------------------------------------------------------------------

  /**
   * add: null is appended; a chart whose name is already listed goes to the
   * collision resolution, modelled by its cancel outcome (nothing changes);
   * any other chart is appended.
   */
  function Added(charts: seq<Option<ChartObject>>, chart: Option<ChartObject>): seq<Option<ChartObject>>
  {
    if chart.None? then charts + [None]
    else if NameOf(chart) in NamesOf(charts) then charts
    else charts + [chart]
  }

  /** addAll: `add` applied to every element of the collection in order. */
  function AddedAll(charts: seq<Option<ChartObject>>, collection: seq<Option<ChartObject>>): seq<Option<ChartObject>>
  {
    if collection == [] then charts
    else Added(AddedAll(charts, collection[..|collection| - 1]), collection[|collection| - 1])
  }

  /** addAll only appends, and only elements of the collection. */
  lemma {:induction false} AddedAllAppends(charts: seq<Option<ChartObject>>, collection: seq<Option<ChartObject>>)
    ensures var r := AddedAll(charts, collection);
      |charts| <= |r| <= |charts| + |collection| && r[..|charts|] == charts
      && forall k :: |charts| <= k < |r| ==> r[k] in collection
  {
    if collection != [] {
      var init := collection[..|collection| - 1];
      AddedAllAppends(charts, init);
      var before := AddedAll(charts, init);
      var r := AddedAll(charts, collection);
      assert r == Added(before, collection[|collection| - 1]);
      forall k | |charts| <= k < |r| ensures r[k] in collection {
        if k < |before| {
          assert r[k] == before[k];
          assert before[k] in init;
        } else {
          assert r[k] == collection[|collection| - 1];
        }
      }
    }
  }

  /** Adding one element keeps the chart names distinct. */
  lemma AddedKeepsUnique(charts: seq<Option<ChartObject>>, chart: Option<ChartObject>)
    requires UniqueNames(charts)
    ensures UniqueNames(Added(charts, chart))
  {
    if chart.Some? && NameOf(chart) !in NamesOf(charts) {
      var r := Added(charts, chart);
      forall i | 0 <= i < |charts| && charts[i].Some?
        ensures charts[i].value.Name() != chart.value.Name()
      {
        assert NamesOf(charts)[i] == Some(charts[i].value.Name());
      }
    }
  }

  /** Every addAll keeps the chart names distinct: a colliding name is never appended. */
  lemma {:induction false} AddedAllKeepsUnique(charts: seq<Option<ChartObject>>, collection: seq<Option<ChartObject>>)
    requires UniqueNames(charts)
    ensures UniqueNames(AddedAll(charts, collection))
  {
    if collection != [] {
      AddedAllKeepsUnique(charts, collection[..|collection| - 1]);
      AddedKeepsUnique(AddedAll(charts, collection[..|collection| - 1]), collection[|collection| - 1]);
    }
  }

  /** After addAll every incoming chart's name is on the list, added or already present. */
  lemma {:induction false} AddedAllCovers(charts: seq<Option<ChartObject>>, collection: seq<Option<ChartObject>>)
    ensures forall k :: 0 <= k < |collection| && collection[k].Some? ==>
      NameOf(collection[k]) in NamesOf(AddedAll(charts, collection))
  {
    if collection != [] {
      var init := collection[..|collection| - 1];
      var last := collection[|collection| - 1];
      AddedAllCovers(charts, init);
      var before := AddedAll(charts, init);
      var r := AddedAll(charts, collection);
      AddedAllAppends(charts, collection);
      assert r[..|before|] == before by {
        assert r == Added(before, last);
      }
      forall k | 0 <= k < |collection| && collection[k].Some?
        ensures NameOf(collection[k]) in NamesOf(r)
      {
        if k < |init| {
          assert collection[k] == init[k];
          var j :| 0 <= j < |before| && NamesOf(before)[j] == NameOf(init[k]);
          assert NamesOf(r)[j] == NameOf(r[j]) == NameOf(before[j]);
        } else if NameOf(last) in NamesOf(before) {
          var j :| 0 <= j < |before| && NamesOf(before)[j] == NameOf(last);
          assert NamesOf(r)[j] == NameOf(before[j]);
        } else {
          assert r == before + [last];
          assert NamesOf(r)[|before|] == NameOf(last);
        }
      }
    }
  }

  // ---------------------------------------------------------------------
  // forEach
  // ---------------------------------------------------------------------

  /**
   * The position of the first element whose action modifies the list (a
   * positive number of modifications), or the length when there is none.
   */
  function FirstChange(charts: seq<Option<ChartObject>>, bumps: Option<ChartObject> -> nat): (r: nat)
    ensures r <= |charts|
    ensures forall k :: 0 <= k < r ==> bumps(charts[k]) == 0
    ensures r < |charts| ==> bumps(charts[r]) > 0
  {
    if charts == [] then 0
    else if bumps(charts[0]) > 0 then 0
    else 1 + FirstChange(charts[1..], bumps)
  }

  /** The modifications the actions make, element by element. */
  function Bumps(visited: seq<Option<ChartObject>>, bumps: Option<ChartObject> -> nat): nat
  {
    if visited == [] then 0 else Bumps(visited[..|visited| - 1], bumps) + bumps(visited[|visited| - 1])
  }

  lemma {:induction false} NoBumps(visited: seq<Option<ChartObject>>, bumps: Option<ChartObject> -> nat)
    ensures Bumps(visited, bumps) == 0 <==> forall k :: 0 <= k < |visited| ==> bumps(visited[k]) == 0
  {
    if visited != [] {
      NoBumps(visited[..|visited| - 1], bumps);
    }
  }

  // ---------------------------------------------------------------------
  // retainAll / removeAll
  // ---------------------------------------------------------------------

  /** The collection holds this very object (List.contains on objects that keep Object.equals). */
  predicate Among(o: Option<ChartObject>, collection: seq<ChartObject>)
  {
    o.Some? && o.value in collection
  }

  function NamesIn(collection: seq<ChartObject>): seq<string>
  {
    Map(collection, (c: ChartObject) => c.Name())
  }

  /** The name list of the collection holds this name. */
  predicate NamedAmong(n: Option<string>, collection: seq<ChartObject>)
  {
    n.Some? && n.value in NamesIn(collection)
  }

  /**
   * retainAll as written: the names are filtered by the collection's names,
   * the charts by the collection's objects.
   */
  function RetainedAsWritten(charts: seq<Option<ChartObject>>, names: seq<Option<string>>, collection: seq<ChartObject>)
    : (seq<Option<ChartObject>>, seq<Option<string>>)
  {
    (Filter(charts, o => Among(o, collection)), Filter(names, n => NamedAmong(n, collection)))
  }

  /** removeAll as written, with the same split between names and objects. */
  function RemovedAsWritten(charts: seq<Option<ChartObject>>, names: seq<Option<string>>, collection: seq<ChartObject>)
    : (seq<Option<ChartObject>>, seq<Option<string>>)
  {
    (Filter(charts, o => !Among(o, collection)), Filter(names, n => !NamedAmong(n, collection)))
  }

  /**
   * A collection holding a different object with the same name as a listed
   * chart: retainAll as written keeps the name and drops the chart, leaving
   * the two lists out of step.
   */
  lemma RetainAllDesyncs(a: ChartObject, b: ChartObject)
    requires a != b && a.Name() == b.Name()
    ensures InSync([Some(a)], [Some(a.Name())])
    ensures var (charts, names) := RetainedAsWritten([Some(a)], [Some(a.Name())], [b]);
      charts == [] && names == [Some(a.Name())] && !InSync(charts, names)
  {
    assert NamesIn([b]) == [b.Name()];
    assert Filter([Some(a)], o => Among(o, [b])) == [];
    assert Filter([Some(a.Name())], n => NamedAmong(n, [b])) == [Some(a.Name())];
  }

  /** The same collection given to removeAll as written drops the name and keeps the chart. */
  lemma RemoveAllDesyncs(a: ChartObject, b: ChartObject)
    requires a != b && a.Name() == b.Name()
    ensures InSync([Some(a)], [Some(a.Name())])
    ensures var (charts, names) := RemovedAsWritten([Some(a)], [Some(a.Name())], [b]);
      charts == [Some(a)] && names == [] && !InSync(charts, names)
  {
    assert NamesIn([b]) == [b.Name()];
    assert Filter([Some(a)], o => !Among(o, [b])) == [Some(a)];
    assert Filter([Some(a.Name())], n => !NamedAmong(n, [b])) == [];
  }

  /**
   * When the collection's names single out its objects among the listed
   * charts (a listed chart is in the collection exactly when its name is),
   * retainAll as written keeps the lists in step and agrees with the
   * corrected `ChartList.RetainAll`.
   */
  lemma RetainedAsWrittenWhenNamesIdentify(charts: seq<Option<ChartObject>>, collection: seq<ChartObject>)
    requires forall k :: 0 <= k < |charts| ==> (Among(charts[k], collection) <==> NamedAmong(NameOf(charts[k]), collection))
    ensures RetainedAsWritten(charts, NamesOf(charts), collection)
      == (Filter(charts, o => Among(o, collection)), NamesOf(Filter(charts, o => Among(o, collection))))
  {
    FilterMap(charts, NameOf, n => NamedAmong(n, collection), o => Among(o, collection));
  }

  /** The same agreement for removeAll and the corrected `ChartList.RemoveAll`. */
  lemma RemovedAsWrittenWhenNamesIdentify(charts: seq<Option<ChartObject>>, collection: seq<ChartObject>)
    requires forall k :: 0 <= k < |charts| ==> (Among(charts[k], collection) <==> NamedAmong(NameOf(charts[k]), collection))
    ensures RemovedAsWritten(charts, NamesOf(charts), collection)
      == (Filter(charts, o => !Among(o, collection)), NamesOf(Filter(charts, o => !Among(o, collection))))
  {
    FilterMap(charts, NameOf, n => !NamedAmong(n, collection), o => !Among(o, collection));
  }

  // ---------------------------------------------------------------------
  // The list object
  // ---------------------------------------------------------------------

  class ChartList {
    var charts: seq<Option<ChartObject>>
    var names: seq<Option<string>>
    var listName: string
    var modCount: int

    /** The class invariant: the name list mirrors the chart list. */
    ghost predicate Valid()
      reads this
    {
      InSync(charts, names)
    }

    constructor ()
      ensures Valid() && charts == [] && listName == DEFAULT_LIST_NAME && modCount == 0
    {
      charts, names := [], [];
      listName := DEFAULT_LIST_NAME;
      modCount := 0;
    }

    /** ChartList(String): a null name keeps the default one. */
    constructor Named(listName: Option<string>)
      ensures Valid() && charts == [] && modCount == 0
      ensures this.listName == if listName.Some? then listName.value else DEFAULT_LIST_NAME
    {
      charts, names := [], [];
      this.listName := if listName.Some? then listName.value else DEFAULT_LIST_NAME;
      modCount := 0;
    }

    /** ChartList(List) and ChartList(String, List): an empty list, then addAll. */
    constructor Of(listName: Option<string>, collection: Option<seq<Option<ChartObject>>>)
      ensures Valid()
      ensures this.listName == if listName.Some? then listName.value else DEFAULT_LIST_NAME
      ensures charts == if collection.Some? then AddedAll([], collection.value) else []
      ensures modCount == |charts|
    {
      charts, names := [], [];
      this.listName := if listName.Some? then listName.value else DEFAULT_LIST_NAME;
      modCount := 0;
      new;
      var _ := AddAll(collection);
    }

    function Size(): (n: nat)
      reads this
      ensures n == |charts|
    {
      |charts|
    }

    /** get(int): the slot at `i`, or null outside the list. */
    function Get(i: int): (r: Option<ChartObject>)
      reads this
      ensures 0 <= i < |charts| ==> r == charts[i]
      ensures !(0 <= i < |charts|) ==> r == None
    {
      if 0 <= i < |charts| then charts[i] else None
    }

    /** contains(String): some slot holds a chart object with this name. */
    function Contains(name: string): (r: bool)
      reads this
      requires Valid()
      ensures r <==> exists i :: 0 <= i < |charts| && NameOf(charts[i]) == Some(name)
    {
      assert forall i :: 0 <= i < |charts| ==> names[i] == NameOf(charts[i]);
      Some(name) in names
    }

    /** get(String): the first chart object with this name, or null. */
    function GetByName(name: string): (r: Option<ChartObject>)
      reads this
      requires Valid()
      ensures r.Some? <==> Contains(name)
      ensures r.Some? ==> r.value.Name() == name && r in charts
      ensures r.Some? ==> forall j :: 0 <= j < |charts| && NameOf(charts[j]) == Some(name) ==> r in charts[..j + 1]
    {
      var i := IndexOf(names, Some(name));
      assert i >= 0 ==> NameOf(charts[i]) == Some(name);
      assert forall j :: 0 <= j < i ==> names[j] == NameOf(charts[j]) && names[j] != Some(name);
      assert i >= 0 ==> charts[i] == charts[..i + 1][i];
      Get(i)
    }

    /**
     * findChart: a blank query fails; a query of digits only is a position
     * counted from 1 (a number outside the int range fails too); anything
     * else must be the exact name of a listed chart object.
     */
    function FindChart(order: string): (r: Result<Option<ChartObject>>)
      reads this
      requires Valid()
      ensures r.Err? ==> r.error == ChartNotFound
      ensures IsBlank(order) ==> r.Err?
      ensures r.Ok? ==> r.value in charts
      ensures !IsBlank(order) && IsDigits(order) ==>
        (r.Ok? <==> ParseInt(order).Some? && 1 <= ParseInt(order).value <= |charts|)
        && (r.Ok? ==> r.value == charts[ParseInt(order).value - 1])
      ensures !IsBlank(order) && !IsDigits(order) ==>
        (r.Ok? <==> Contains(order)) && (r.Ok? ==> r.value == GetByName(order))
    {
      if IsBlank(order) then Err(ChartNotFound)
      else if IsDigits(order) then
        match ParseInt(order)
        case None => Err(ChartNotFound)
        case Some(n) => if 0 <= n - 1 < |charts| then Ok(Get(n - 1)) else Err(ChartNotFound)
      else if Contains(order) then Ok(GetByName(order))
      else Err(ChartNotFound)
    }

    /** addItem: the chart and its name appended; the counter moves. */
    method AddItem(chart: ChartObject) returns (added: bool)
      modifies this
      requires Valid()
      ensures Valid() && added
      ensures charts == old(charts) + [Some(chart)] && listName == old(listName)
      ensures modCount == old(modCount) + 1
    {
      charts := charts + [Some(chart)];
      modCount := modCount + 1;
      names := names + [Some(chart.Name())];
      added := true;
    }

    /** add: see `Added`; the result says whether the list was modified. */
    method Add(chart: Option<ChartObject>) returns (changed: bool)
      modifies this
      requires Valid()
      ensures Valid() && charts == Added(old(charts), chart) && listName == old(listName)
      ensures modCount == old(modCount) + |charts| - |old(charts)|
      ensures changed <==> |charts| > |old(charts)|
    {
      if chart.None? {
        charts := charts + [None];
        names := names + [None];
        modCount := modCount + 1;
        return true;
      }
      var mod := modCount;
      if !Contains(chart.value.Name()) {
        var _ := AddItem(chart.value);
      }
      changed := modCount != mod;
    }

    /** addAll(Collection): false for null; otherwise `add` on every element. */
    method AddAll(collection: Option<seq<Option<ChartObject>>>) returns (changed: bool)
      modifies this
      requires Valid()
      ensures Valid() && listName == old(listName)
      ensures charts == if collection.Some? then AddedAll(old(charts), collection.value) else old(charts)
      ensures modCount == old(modCount) + |charts| - |old(charts)|
      ensures changed <==> |charts| > |old(charts)|
    {
      if collection.None? {
        return false;
      }
      var incoming := collection.value;
      var mod := modCount;
      var i := 0;
      while i < |incoming|
        invariant 0 <= i <= |incoming|
        invariant Valid() && listName == old(listName)
        invariant charts == AddedAll(old(charts), incoming[..i])
        invariant modCount == old(modCount) + |charts| - |old(charts)|
      {
        assert incoming[..i + 1][..i] == incoming[..i];
        var _ := Add(incoming[i]);
        i := i + 1;
      }
      assert incoming[..i] == incoming;
      AddedAllAppends(old(charts), incoming);
      changed := modCount != mod;
    }

    /** substitute: clear, then addAll of the other list's charts (read after clearing). */
    method Substitute(other: ChartList) returns (changed: bool)
      modifies this
      requires Valid()
      ensures Valid() && listName == old(listName)
      ensures charts == if other == this then [] else AddedAll([], old(other.charts))
      ensures changed <==> |charts| > 0
      ensures modCount == old(modCount) + (if |old(charts)| > 0 then 1 else 0) + |charts|
    {
      Clear();
      changed := AddAll(Some(other.charts));
    }

    /** sort: a stable sort of the charts, the names rebuilt from them. */
    method Sort(key: Option<ChartObject> -> real)
      modifies this
      ensures Valid() && listName == old(listName)
      ensures charts == SortBy(old(charts), key)
      ensures SortedBy(charts, key) && multiset(charts) == multiset(old(charts))
      ensures modCount == old(modCount) + 1
    {
      SortByCorrect(charts, key);
      charts := SortBy(charts, key);
      names := NamesOf(charts);
      modCount := modCount + 1;
    }

    /** clear: both lists emptied; the counter moves only if there was something to clear. */
    method Clear()
      modifies this
      ensures Valid() && charts == [] && listName == old(listName)
      ensures modCount == old(modCount) + (if |old(charts)| > 0 then 1 else 0)
    {
      if |charts| > 0 {
        charts := [];
        names := [];
        modCount := modCount + 1;
      } else {
        names := [];
      }
    }

    /** setItem: slot `i` replaced in both lists, the previous chart returned. */
    method SetItem(i: int, chart: ChartObject) returns (r: Result<Option<ChartObject>>)
      modifies this
      requires Valid()
      ensures Valid() && listName == old(listName)
      ensures !(0 <= i < |old(charts)|) ==>
        r == Err(IndexOutOfBounds) && charts == old(charts) && modCount == old(modCount)
      ensures 0 <= i < |old(charts)| ==>
        r == Ok(old(charts)[i]) && charts == old(charts)[i := Some(chart)] && modCount == old(modCount) + 1
    {
      if !(0 <= i < |names|) {
        return Err(IndexOutOfBounds);
      }
      names := names[i := Some(chart.Name())];
      modCount := modCount + 1;
      r := Ok(charts[i]);
      charts := charts[i := Some(chart)];
    }

    /** insertItem: the chart and its name placed at `i`; the counter is left alone. */
    method InsertItem(i: int, chart: ChartObject) returns (r: Outcome)
      modifies this
      requires Valid()
      ensures Valid() && listName == old(listName) && modCount == old(modCount)
      ensures !(0 <= i <= |old(charts)|) ==> r == Fail(IndexOutOfBounds) && charts == old(charts)
      ensures 0 <= i <= |old(charts)| ==> r == Pass && charts == InsertAt(old(charts), i, Some(chart))
    {
      if !(0 <= i <= |charts|) {
        return Fail(IndexOutOfBounds);
      }
      MapInsertAt(charts, i, Some(chart), NameOf);
      charts := InsertAt(charts, i, Some(chart));
      names := InsertAt(names, i, Some(chart.Name()));
      r := Pass;
    }

    /** remove(int): slot `i` taken out of both lists and returned. */
    method Remove(i: int) returns (r: Result<Option<ChartObject>>)
      modifies this
      requires Valid()
      ensures Valid() && listName == old(listName)
      ensures !(0 <= i < |old(charts)|) ==>
        r == Err(IndexOutOfBounds) && charts == old(charts) && modCount == old(modCount)
      ensures 0 <= i < |old(charts)| ==>
        r == Ok(old(charts)[i]) && charts == RemoveAt(old(charts), i) && modCount == old(modCount) + 1
    {
      if !(0 <= i < |names|) {
        return Err(IndexOutOfBounds);
      }
      RemovedInSync(charts, names, i);
      names := RemoveAt(names, i);
      modCount := modCount + 1;
      r := Ok(charts[i]);
      charts := RemoveAt(charts, i);
    }

    /**
     * remove(String): the first slot with this name taken out of both lists;
     * an absent name is index -1, which fails (see `RemovedByNameFacts`).
     */
    method RemoveByName(name: string) returns (r: Outcome)
      modifies this
      requires Valid()
      ensures Valid() && listName == old(listName) && modCount == old(modCount)
      ensures (r, charts) == RemovedByName(old(charts), name)
    {
      var index := IndexOf(names, Some(name));
      if index < 0 {
        return Fail(IndexOutOfBounds);
      }
      RemovedInSync(charts, names, index);
      charts, names := RemoveAt(charts, index), RemoveAt(names, index);
      r := Pass;
    }

    /** remove(ChartObject): the first slot holding this object taken out; an absent one fails (see `RemovedObjectFacts`). */
    method RemoveChart(item: ChartObject) returns (r: Outcome)
      modifies this
      requires Valid()
      ensures Valid() && listName == old(listName) && modCount == old(modCount)
      ensures (r, charts) == RemovedObject(old(charts), item)
    {
      var index := IndexOf(charts, Some(item));
      if index < 0 {
        return Fail(IndexOutOfBounds);
      }
      RemovedInSync(charts, names, index);
      ghost var was := charts;
      charts, names := RemoveAt(charts, index), RemoveAt(names, index);
      r := Pass;
      assert (r, charts) == RemovedObject(was, item);
    }

    /**
     * retainAll, with the names rebuilt from the retained charts (see
     * `RetainAllDesyncs` for the code as written): keeps the slots whose
     * object is in the collection; true, and a counter step, when some slot
     * went.
     */
    method RetainAll(collection: seq<ChartObject>) returns (changed: bool)
      modifies this
      ensures Valid() && listName == old(listName)
      ensures charts == Filter(old(charts), o => Among(o, collection))
      ensures changed <==> exists k :: 0 <= k < |old(charts)| && !Among(old(charts)[k], collection)
      ensures modCount == old(modCount) + (if changed then 1 else 0)
    {
      var before := charts;
      charts := Filter(charts, o => Among(o, collection));
      names := NamesOf(charts);
      FilterKeepsAll(before, o => Among(o, collection));
      FilterLength(before, o => Among(o, collection));
      changed := |charts| != |before|;
      if changed {
        modCount := modCount + 1;
      }
    }

    /** removeAll, with the names rebuilt from the remaining charts (see `RemoveAllDesyncs`). */
    method RemoveAll(collection: seq<ChartObject>) returns (changed: bool)
      modifies this
      ensures Valid() && listName == old(listName)
      ensures charts == Filter(old(charts), o => !Among(o, collection))
      ensures changed <==> exists k :: 0 <= k < |old(charts)| && Among(old(charts)[k], collection)
      ensures modCount == old(modCount) + (if changed then 1 else 0)
    {
      var before := charts;
      charts := Filter(charts, o => !Among(o, collection));
      names := NamesOf(charts);
      FilterKeepsAll(before, o => !Among(o, collection));
      FilterLength(before, o => !Among(o, collection));
      changed := |charts| != |before|;
      if changed {
        modCount := modCount + 1;
      }
    }

    /**
     * forEach: the action, run on each slot in turn, is represented by the
     * number of modifications it makes to this list. The walk stops after
     * the first action that modifies the list and then fails with
     * ConcurrentModificationException.
     */
    method ForEach(bumps: Option<ChartObject> -> nat) returns (visited: seq<Option<ChartObject>>, r: Outcome)
      modifies this
      ensures charts == old(charts) && names == old(names) && listName == old(listName)
      ensures var first := FirstChange(old(charts), bumps);
        if first < |old(charts)| then
          visited == old(charts)[..first + 1] && r == Fail(ConcurrentModification)
        else
          visited == old(charts) && r == Pass
      ensures modCount == old(modCount) + Bumps(visited, bumps)
    {
      var expected := modCount;
      var size := |charts|;
      var i := 0;
      visited := [];
      while modCount == expected && i < size
        invariant charts == old(charts) && names == old(names) && listName == old(listName)
        invariant size == |charts| && 0 <= i <= size && visited == charts[..i]
        invariant modCount == expected + Bumps(visited, bumps)
        invariant modCount == expected ==> forall k :: 0 <= k < i ==> bumps(charts[k]) == 0
        invariant modCount != expected ==>
          i > 0 && bumps(charts[i - 1]) > 0 && forall k :: 0 <= k < i - 1 ==> bumps(charts[k]) == 0
      {
        NoBumps(visited, bumps);
        modCount := modCount + bumps(charts[i]);
        assert charts[..i + 1][..i] == charts[..i];
        visited := visited + [charts[i]];
        i := i + 1;
      }
      var first := FirstChange(charts, bumps);
      if modCount != expected {
        assert first == i - 1;
        r := Fail(ConcurrentModification);
      } else {
        assert first == size;
        assert visited == charts;
        r := Pass;
      }
    }
  }

  /** A position counted from 1, written in digits, finds the chart object at that position. */
  lemma FindChartByPosition(list: ChartList, k: nat)
    requires list.Valid() && 1 <= k <= |list.charts| && k <= INT_MAX
    ensures list.FindChart(NatToString(k)) == Ok(list.charts[k - 1])
  {
    var s := NatToString(k);
    assert !IsWhitespace(s[0]);
    ParseIntOfToString(k);
    assert IntToString(k) == s;
  }

  /** A query of digits finds the chart object at the position it parses to, or fails. */
  lemma FindChartOfDigits(list: ChartList, s: string)
    requires list.Valid() && IsDigits(s)
    ensures var n := ParseInt(s);
      list.FindChart(s) == if n.Some? && 1 <= n.value <= |list.charts| then Ok(list.charts[n.value - 1]) else Err(ChartNotFound)
  {
    assert !IsWhitespace(s[0]);
  }

  /** A position written with a leading zero, as in "007", finds the same chart object. */
  lemma FindChartLeadingZero(list: ChartList, s: string)
    requires list.Valid() && IsDigits(s)
    ensures list.FindChart("0" + s) == list.FindChart(s)
  {
    ParseIntLeadingZero(s);
    FindChartOfDigits(list, s);
    FindChartOfDigits(list, "0" + s);
  }

  /** A name that is not blank and not a number finds the chart object of that name. */
  lemma FindChartByName(list: ChartList, i: nat)
    requires list.Valid() && UniqueNames(list.charts)
    requires i < |list.charts| && list.charts[i].Some?
    requires var name := list.charts[i].value.Name(); !IsBlank(name) && !IsDigits(name)
    ensures list.FindChart(list.charts[i].value.Name()) == Ok(list.charts[i])
  {
    var name := list.charts[i].value.Name();
    assert NameOf(list.charts[i]) == Some(name);
    var r := list.GetByName(name);
    assert r in list.charts[..i + 1];
    var j :| 0 <= j <= i && list.charts[j] == r;
  }
}
