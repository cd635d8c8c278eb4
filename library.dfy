/**
 * The library service: the in-memory picture of the chart base (one
 * AlbumInfo card per album file), kept fresh from the repository, listed
 * with numbers from 1, and searched by name, number or name prefix.
 */
module Library {
  import opened Wrappers
  import opened JavaLang
  import opened Text
  import opened Lists
  import opened Sorting
  import opened DawFiles

  // ---------------------------------------------------------------------
  // defineIndexFromInput
  // ---------------------------------------------------------------------

  /** The first element that starts with `input`, or -1. */
  function FirstPrefixed(list: seq<string>, input: string): (i: int)
    ensures -1 <= i < |list|
    ensures i == -1 <==> forall k :: 0 <= k < |list| ==> !StartsWith(list[k], input)
    ensures i >= 0 ==> StartsWith(list[i], input) && forall k :: 0 <= k < i ==> !StartsWith(list[k], input)
  {
    if list == [] then -1
    else if StartsWith(list[0], input) then 0
    else
      var j := FirstPrefixed(list[1..], input);
      assert forall k :: 1 <= k < |list| ==> list[k] == list[1..][k - 1];
      if j < 0 then -1 else j + 1
  }

  /**
   * The position (from 0) the input names in the list: an element equal to
   * it; failing that, for a number, the element with that number counted
   * from 1; failing that, the first element it is a prefix of.
   */
  function IndexFromInput(input: string, list: seq<string>): (r: Result<nat>)
    ensures r.Err? ==> r.error == IllegalArgument
    ensures r.Ok? ==> r.value < |list|
    ensures r.Ok? ==> list[r.value] == input || IsDigits(input) || StartsWith(list[r.value], input)
    ensures IsBlank(input) || list == [] ==> r.Err?
  {
    if IsBlank(input) || list == [] then Err(IllegalArgument)
    else if input in list then Ok(IndexOf(list, input))
    else if IsDigits(input) then
      match ParseInt(input)
      case None => Err(IllegalArgument)
      case Some(n) => if 0 <= n - 1 < |list| then Ok(n - 1) else Err(IllegalArgument)
    else
      var i := FirstPrefixed(list, input);
      if i < 0 then Err(IllegalArgument) else Ok(i)
  }

  /** defineIndexFromInput: the three searches in turn, each a loop with an early return. */
  method DefineIndexFromInput(input: string, list: seq<string>) returns (r: Result<nat>)
    ensures r == IndexFromInput(input, list)
  {
    if IsBlank(input) {
      return Err(IllegalArgument);
    }
    if |list| == 0 {
      return Err(IllegalArgument);
    }
    for i := 0 to |list|
      invariant input !in list[..i]
    {
      if input == list[i] {
        IndexOfIs(list, input, i);
        return Ok(i);
      }
      assert list[..i + 1] == list[..i] + [list[i]];
    }
    assert list[..|list|] == list;
    if IsDigits(input) {
      var parsed := ParseInt(input);
      if parsed.None? {
        return Err(IllegalArgument);
      }
      var index := parsed.value - 1;
      if index < 0 || index >= |list| {
        return Err(IllegalArgument);
      }
      return Ok(index);
    }
    for i := 0 to |list|
      invariant forall k :: 0 <= k < i ==> !StartsWith(list[k], input)
    {
      if StartsWith(list[i], input) {
        return Ok(i);
      }
    }
    return Err(IllegalArgument);
  }

  /** The first element equal to the input is found by its name. */
  lemma IndexOfExactName(input: string, list: seq<string>, i: nat)
    requires !IsBlank(input) && i < |list| && list[i] == input && input !in list[..i]
    ensures IndexFromInput(input, list) == Ok(i)
  {
    IndexOfIs(list, input, i);
  }

  /** A number k from 1 to the length, naming no element, is the k-th element. */
  lemma IndexByNumber(list: seq<string>, k: nat)
    requires 1 <= k <= |list| && k <= INT_MAX && NatToString(k) !in list
    ensures IndexFromInput(NatToString(k), list) == Ok(k - 1)
  {
    var s := NatToString(k);
    assert !IsWhitespace(s[0]);
    ParseIntOfToString(k);
    assert IntToString(k) == s;
  }

  /** A word that is neither a name nor a number finds the first name it begins. */
  lemma IndexByPrefix(input: string, list: seq<string>, i: nat)
    requires !IsBlank(input) && !IsDigits(input) && input !in list
    requires i < |list| && StartsWith(list[i], input)
    requires forall k :: 0 <= k < i ==> !StartsWith(list[k], input)
    ensures IndexFromInput(input, list) == Ok(i)
  {
  }

  /**
   * A number that names no element and is out of range fails, even when
   * some element begins with it: numbers never fall back to the prefix search.
   */
  lemma NumberNeverPrefix(input: string, list: seq<string>)
    requires IsDigits(input) && input !in list
    requires ParseInt(input).Some? && !(1 <= ParseInt(input).value <= |list|)
    ensures IndexFromInput(input, list).Err?
  {
  }

  /** The search fails exactly when no rule applies. */
  lemma IndexFromInputFails(input: string, list: seq<string>)
    ensures IndexFromInput(input, list).Err? <==>
      IsBlank(input) || list == [] ||
      (input !in list && IsDigits(input) && !(ParseInt(input).Some? && 1 <= ParseInt(input).value <= |list|)) ||
      (input !in list && !IsDigits(input) && forall k :: 0 <= k < |list| ==> !StartsWith(list[k], input))
  {
  }

  // ---------------------------------------------------------------------
  // updateLibrary
  // ---------------------------------------------------------------------

  /** An album card that survives an update: its file still exists and is not among the updates. */
  predicate Remains(info: AlbumInfo, albumNames: seq<string>, updates: seq<AlbumInfo>)
  {
    info.name in albumNames && forall u :: u in updates ==> u.name != info.name
  }

  /** The sort key of the reversed comparator on `modified`: the freshest first. */
  function Staleness(info: AlbumInfo): real
  {
    -(info.modified as real)
  }

  /**
   * The library after updateLibrary: a reload from the summary when it was
   * empty, otherwise the surviving cards followed by the updates; then
   * sorted by decreasing modification time, stably.
   */
  function Updated(library: seq<AlbumInfo>, albumNames: seq<string>, updates: seq<AlbumInfo>,
                   summary: seq<AlbumInfo>): seq<AlbumInfo>
  {
    var merged := if library == [] then summary
                  else Filter(library, info => Remains(info, albumNames, updates)) + updates;
    SortBy(merged, Staleness)
  }

  /** Keeping what is in a filtered copy of a list is the same filter. */
  lemma {:induction false} RetainFiltered<T>(s: seq<T>, t: seq<T>, keep: T -> bool)
    requires forall k :: 0 <= k < |t| ==> t[k] in s
    ensures Filter(t, x => x in Filter(s, keep)) == Filter(t, keep)
  {
    if t != [] {
      var init := t[..|t| - 1];
      assert forall k :: 0 <= k < |init| ==> init[k] == t[k];
      RetainFiltered(s, init, keep);
      var x := t[|t| - 1];
      assert x in Filter(s, keep) <==> keep(x) by {
        if x in Filter(s, keep) {
          var k :| 0 <= k < |Filter(s, keep)| && Filter(s, keep)[k] == x;
        } else {
          var k :| 0 <= k < |s| && s[k] == x;
        }
      }
    }
  }

  /** After an update the library runs from the freshest album to the stalest. */
  lemma UpdatedFreshestFirst(library: seq<AlbumInfo>, albumNames: seq<string>, updates: seq<AlbumInfo>,
                             summary: seq<AlbumInfo>)
    ensures var r := Updated(library, albumNames, updates, summary);
      forall i, j :: 0 <= i < j < |r| ==> r[i].modified >= r[j].modified
  {
    var merged := if library == [] then summary
                  else Filter(library, info => Remains(info, albumNames, updates)) + updates;
    SortByCorrect(merged, Staleness);
  }

  /**
   * The cards after an update of a non-empty library: every update, and
   * every earlier card whose album still exists and was not updated, each
   * as often as before.
   */
  lemma UpdatedContents(library: seq<AlbumInfo>, albumNames: seq<string>, updates: seq<AlbumInfo>,
                        summary: seq<AlbumInfo>)
    requires library != []
    ensures multiset(Updated(library, albumNames, updates, summary)) ==
      multiset(Filter(library, info => Remains(info, albumNames, updates))) + multiset(updates)
    ensures forall info :: info in Updated(library, albumNames, updates, summary) <==>
      info in updates || (info in library && Remains(info, albumNames, updates))
  {
    var kept := Filter(library, info => Remains(info, albumNames, updates));
    SortByCorrect(kept + updates, Staleness);
    var r := Updated(library, albumNames, updates, summary);
    forall info ensures info in r <==> info in kept + updates {
      assert info in r <==> info in multiset(r);
    }
    forall info | info in library && Remains(info, albumNames, updates) ensures info in kept {
      var k :| 0 <= k < |library| && library[k] == info;
    }
  }

  /** An empty library is reloaded: the summary's cards, freshest first. */
  lemma UpdatedEmpty(albumNames: seq<string>, updates: seq<AlbumInfo>, summary: seq<AlbumInfo>)
    ensures multiset(Updated([], albumNames, updates, summary)) == multiset(summary)
  {
    SortByCorrect(summary, Staleness);
  }

  // ---------------------------------------------------------------------
  // listAlbums
  // ---------------------------------------------------------------------

  /** One line of the album list: its number from 1, a dot, the name. */
  function AlbumLine(number: nat, name: string): string
  {
    NatToString(number) + ". " + name + "\n"
  }

  /** The numbered lines of the album list, one per card, in library order. */
  function AlbumLines(library: seq<AlbumInfo>): (r: seq<string>)
    ensures |r| == |library|
    ensures forall i :: 0 <= i < |library| ==> r[i] == AlbumLine(i + 1, library[i].name)
  {
    if library == [] then []
    else AlbumLines(library[..|library| - 1]) + [AlbumLine(|library|, library[|library| - 1].name)]
  }

  /** listAlbums: a message naming the base folder for an empty library, otherwise the numbered lines. */
  function ListAlbums(library: seq<AlbumInfo>, baseDir: string): (r: string)
    ensures library == [] ==> r == "в базе " + baseDir + " нет ни файла"
    ensures library != [] ==> r == Concat(AlbumLines(library))
  {
    if library == [] then "в базе " + baseDir + " нет ни файла"
    else Concat(AlbumLines(library))
  }

  /** An album added to the end of the library adds one line, numbered after the rest. */
  lemma ListAlbumsAppend(library: seq<AlbumInfo>, info: AlbumInfo, baseDir: string)
    requires library != []
    ensures ListAlbums(library + [info], baseDir) ==
      ListAlbums(library, baseDir) + AlbumLine(|library| + 1, info.name)
  {
    var longer := library + [info];
    assert longer[..|longer| - 1] == library;
    var lines := AlbumLines(longer);
    assert lines[..|lines| - 1] == AlbumLines(library);
  }

  // ---------------------------------------------------------------------
  // the service
  // ---------------------------------------------------------------------

  class LibraryService {
    /** The album cards, as the repository last described them. */
    var library: seq<AlbumInfo>

    /** initializeChartIndex: the library read from the repository's summary. */
    constructor (summary: seq<AlbumInfo>)
      ensures library == summary
    {
      library := summary;
    }

    /** reloadLibrary: the library replaced by the repository's summary. */
    method ReloadLibrary(summary: seq<AlbumInfo>)
      modifies this
      ensures library == summary
    {
      library := [];
      library := library + summary;
    }

    /**
     * updateLibrary, with the repository's answers as parameters: the album
     * names on disk, the cards of files updated since the freshest card,
     * and the full summary (used only when the library is empty).
     */
    method UpdateLibrary(albumNames: seq<string>, updates: seq<AlbumInfo>, summary: seq<AlbumInfo>)
      modifies this
      ensures library == Updated(old(library), albumNames, updates, summary)
    {
      if |library| == 0 {
        ReloadLibrary(summary);
      } else {
        var remainings := Filter(library, info => Remains(info, albumNames, updates));
        RetainFiltered(library, library, info => Remains(info, albumNames, updates));
        library := Filter(library, info => info in remainings);
        library := library + updates;
      }
      library := SortBy(library, Staleness);
    }

    /** findList's choice of album: the name the input resolves to among the album names. */
    function FindListName(order: string): (r: Result<string>)
      reads this
      ensures r.Err? ==> r.error == IllegalArgument
      ensures r.Ok? ==> exists i :: 0 <= i < |library| && library[i].name == r.value
    {
      var names := Map(library, (info: AlbumInfo) => info.name);
      match IndexFromInput(order, names)
      case Err(e) => Err(e)
      case Ok(i) => Ok(names[i])
    }
  }
}
