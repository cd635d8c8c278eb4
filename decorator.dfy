/**
 * Text frames drawn around multi-line text, and side-by-side joining of
 * framed tables.
 */
module Decorator {
  import opened Wrappers
  import opened Text

  /** The eight characters of a frame; the six-character frames repeat the vertical and the horizontal. */
  datatype Frame = Frame(
    leftTop: char, upperHorizontal: char, rightTop: char,
    leftVertical: char, rightVertical: char,
    leftBottom: char, lowerHorizontal: char, rightBottom: char)

  /** A frame drawn with one character everywhere. */
  function Uniform(c: char): Frame
  {
    Frame(c, c, c, c, c, c, c, c)
  }

  /** A frame from six characters: corners, one horizontal and one vertical. */
  function SixFrame(leftTop: char, horizontal: char, rightTop: char, vertical: char, leftBottom: char, rightBottom: char): Frame
  {
    Frame(leftTop, horizontal, rightTop, vertical, vertical, leftBottom, horizontal, rightBottom)
  }

  const ASTERISK_FRAME: seq<char> := ['*']
  const SINGULAR_FRAME: seq<char> := ['┌', '─', '┐', '│', '└', '┘']
  const DOUBLE_FRAME: seq<char> := ['╔', '═', '╗', '║', '╚', '╝']
  const HALF_DOUBLE_FRAME: seq<char> := ['┌', '─', '╖', '│', '║', '╘', '═', '╝']

  function Max(x: int, y: int): int { if x >= y then x else y }
  function Min(x: int, y: int): int { if x <= y then x else y }

  /** The length of the longest line, 0 when there are none. */
  function MaxLength(lines: seq<string>): (m: nat)
    ensures forall k :: 0 <= k < |lines| ==> |lines[k]| <= m
    ensures lines == [] ==> m == 0
    ensures lines != [] ==> exists k :: 0 <= k < |lines| && |lines[k]| == m
  {
    if lines == [] then 0
    else
      var m := MaxLength(lines[..|lines| - 1]);
      var last := |lines[|lines| - 1]|;
      if last >= m then last else m
  }

  /** The width of the text area: the longest line, at least `minWidth` and at most `maxWidth`. */
  function FrameWidth(lines: seq<string>, minWidth: int, maxWidth: int): int
  {
    Min(maxWidth, Max(minWidth, MaxLength(lines)))
  }

  /** complementString: the text right-padded with spaces to `length`. */
  function Complement(s: string, length: int): (r: string)
    ensures |r| == Max(|s|, length)
    ensures r[..|s|] == s && forall k :: |s| <= k < |r| ==> r[k] == ' '
  {
    var lack := length - |s|;
    if lack <= 0 then s else RepeatChar(' ', lack); s + Repeat(" ", lack)
  }

  /** buildBorderString without its line feed: first, `length - 2` fill characters, last. */
  function BorderRow(beginning: char, body: char, ending: char, length: int): (r: string)
    requires length >= 2
    ensures |r| == length && r[0] == beginning && r[length - 1] == ending
    ensures forall k :: 0 < k < length - 1 ==> r[k] == body
  {
    RepeatChar(body, length - 2);
    [beginning] + Repeat([body], length - 2) + [ending]
  }

  /** buildMidleString without its line feed: border, space, padded text, space, border. */
  function MiddleRow(leftBorder: char, rightBorder: char, text: string, length: int): (r: string)
  {
    [leftBorder] + " " + Complement(text, length - 4) + " " + [rightBorder]
  }

  /** The pieces a line is cut into: `width`-long chunks, then what is left. */
  function Chunks(line: string, width: int): (r: seq<string>)
    requires |line| <= width || width >= 1
    ensures |r| >= 1
    decreases |line|
  {
    if |line| > width then [line[..width]] + Chunks(line[width..], width) else [line]
  }

  /** The middle rows for some lines, each cut into chunks. */
  function MiddleRows(lines: seq<string>, width: int, frame: Frame): seq<string>
    requires forall k :: 0 <= k < |lines| ==> |lines[k]| <= width || width >= 1
  {
    if lines == [] then []
    else
      MiddleRows(lines[..|lines| - 1], width, frame)
      + ChunkRows(Chunks(lines[|lines| - 1], width), width, frame)
  }

  function ChunkRows(chunks: seq<string>, width: int, frame: Frame): (r: seq<string>)
    ensures |r| == |chunks|
    ensures forall k :: 0 <= k < |r| ==> r[k] == MiddleRow(frame.leftVertical, frame.rightVertical, chunks[k], width + 4)
  {
    if chunks == [] then [] else [MiddleRow(frame.leftVertical, frame.rightVertical, chunks[0], width + 4)] + ChunkRows(chunks[1..], width, frame)
  }

  lemma WidthFitsLines(lines: seq<string>, minWidth: int, maxWidth: int)
    requires minWidth >= 0 && maxWidth >= 1
    ensures FrameWidth(lines, minWidth, maxWidth) >= 0
    ensures forall k :: 0 <= k < |lines| ==> |lines[k]| <= FrameWidth(lines, minWidth, maxWidth) || FrameWidth(lines, minWidth, maxWidth) >= 1
  {
  }

  /** The rows of a frame around some lines: top border, middle rows, bottom border. */
  function FramedRows(lines: seq<string>, width: int, frame: Frame): (r: seq<string>)
    requires width >= 0
    requires forall k :: 0 <= k < |lines| ==> |lines[k]| <= width || width >= 1
    ensures |r| >= 2
  {
    [BorderRow(frame.leftTop, frame.upperHorizontal, frame.rightTop, width + 4)]
    + MiddleRows(lines, width, frame)
    + [BorderRow(frame.leftBottom, frame.lowerHorizontal, frame.rightBottom, width + 4)]
  }

  /** The rows of a framed text, without their line feeds. */
  function FrameRows(text: string, minWidth: int, maxWidth: int, frame: Frame): (r: seq<string>)
    requires minWidth >= 0 && maxWidth >= 1
    ensures |r| >= 2
  {
    var lines := Lines(text);
    WidthFitsLines(lines, minWidth, maxWidth);
    FramedRows(lines, FrameWidth(lines, minWidth, maxWidth), frame)
  }

  /** frameText: the framed text, each row ended by a line feed. */
  function FramedText(text: string, minWidth: int, maxWidth: int, frame: Frame): string
    requires minWidth >= 0 && maxWidth >= 1
  {
    Terminated(FrameRows(text, minWidth, maxWidth, frame))
  }

  /**
   * frameText with explicit frame characters: the top border, then every
   * line of the text cut into chunks no wider than the frame, then the
   * bottom border.
   */
  method FrameText(text: string, minWidth: int, maxWidth: int, frame: Frame) returns (output: string)
    requires minWidth >= 0 && maxWidth >= 1
    ensures output == FramedText(text, minWidth, maxWidth, frame)
  {
    var lines := Lines(text);
    var width := Min(maxWidth, Max(minWidth, MaxLength(lines)));
    WidthFitsLines(lines, minWidth, maxWidth);
    var top := BorderRow(frame.leftTop, frame.upperHorizontal, frame.rightTop, width + 4);
    output := top + "\n";
    assert output == Terminated([top] + MiddleRows(lines[..0], width, frame));
    for k := 0 to |lines|
      invariant output == Terminated([top] + MiddleRows(lines[..k], width, frame))
    {
      NextLineRows(lines, k, width, frame, top);
      output := AppendLine(output, lines[k], width, frame);
    }
    var bottom := BorderRow(frame.leftBottom, frame.lowerHorizontal, frame.rightBottom, width + 4);
    FrameClosed(lines, width, frame);
    output := output + bottom + "\n";
  }

  /** The bottom border closes the rows written by the loop: the frame is complete. */
  lemma FrameClosed(lines: seq<string>, width: int, frame: Frame)
    requires width >= 0
    requires forall k :: 0 <= k < |lines| ==> |lines[k]| <= width || width >= 1
    ensures Terminated([BorderRow(frame.leftTop, frame.upperHorizontal, frame.rightTop, width + 4)] + MiddleRows(lines[..|lines|], width, frame))
      + BorderRow(frame.leftBottom, frame.lowerHorizontal, frame.rightBottom, width + 4) + "\n"
      == Terminated(FramedRows(lines, width, frame))
  {
    assert lines[..|lines|] == lines;
    var top := BorderRow(frame.leftTop, frame.upperHorizontal, frame.rightTop, width + 4);
    TerminatedAppend([top] + MiddleRows(lines, width, frame), BorderRow(frame.leftBottom, frame.lowerHorizontal, frame.rightBottom, width + 4));
  }

  /** The inner loop of frameText: one line written as its chunks, each a middle row. */
  method AppendLine(before: string, text: string, width: int, frame: Frame) returns (output: string)
    requires |text| <= width || width >= 1
    ensures output == before + Terminated(ChunkRows(Chunks(text, width), width, frame))
  {
    output := before;
    var line := text;
    while |line| > width
      invariant |line| <= width || width >= 1
      invariant before + Terminated(ChunkRows(Chunks(text, width), width, frame))
        == output + Terminated(ChunkRows(Chunks(line, width), width, frame))
      decreases |line|
    {
      var row := MiddleRow(frame.leftVertical, frame.rightVertical, line[..width], width + 4);
      ChunkStep(line, width, frame, output);
      output := output + row + "\n";
      line := line[width..];
    }
    var row := MiddleRow(frame.leftVertical, frame.rightVertical, line, width + 4);
    assert Terminated(ChunkRows(Chunks(line, width), width, frame)) == row + "\n";
    output := output + row + "\n";
  }

  lemma NextLineRows(lines: seq<string>, k: nat, width: int, frame: Frame, top: string)
    requires k < |lines|
    requires forall j :: 0 <= j < |lines| ==> |lines[j]| <= width || width >= 1
    ensures Terminated([top] + MiddleRows(lines[..k + 1], width, frame))
      == Terminated([top] + MiddleRows(lines[..k], width, frame))
       + Terminated(ChunkRows(Chunks(lines[k], width), width, frame))
  {
    assert lines[..k + 1][..k] == lines[..k];
    var rows := MiddleRows(lines[..k], width, frame);
    var more := ChunkRows(Chunks(lines[k], width), width, frame);
    assert MiddleRows(lines[..k + 1], width, frame) == rows + more;
    assert [top] + (rows + more) == ([top] + rows) + more;
    TerminatedConcat([top] + rows, more);
  }

  lemma ChunkStep(line: string, width: int, frame: Frame, output: string)
    requires |line| > width >= 1
    ensures output + Terminated(ChunkRows(Chunks(line, width), width, frame))
      == (output + MiddleRow(frame.leftVertical, frame.rightVertical, line[..width], width + 4) + "\n")
       + Terminated(ChunkRows(Chunks(line[width..], width), width, frame))
  {
    var row := MiddleRow(frame.leftVertical, frame.rightVertical, line[..width], width + 4);
    var rest := ChunkRows(Chunks(line[width..], width), width, frame);
    assert ChunkRows(Chunks(line, width), width, frame) == [row] + rest;
    assert Terminated([row] + rest) == row + "\n" + Terminated(rest);
  }

  /** Cutting a line loses nothing: the chunks put together give the line, all full-width but the last. */
  lemma {:induction false} ChunksCoverLine(line: string, width: int)
    requires width >= 1
    ensures Concat(Chunks(line, width)) == line
    ensures var c := Chunks(line, width);
      (forall k :: 0 <= k < |c| - 1 ==> |c[k]| == width) && |c[|c| - 1]| <= width
    decreases |line|
  {
    if |line| > width {
      var rest := Chunks(line[width..], width);
      ChunksCoverLine(line[width..], width);
      ConcatAppend([line[..width]], rest);
      assert Concat([line[..width]]) == line[..width] by {
        assert [line[..width]][..0] == [];
      }
      assert line[..width] + line[width..] == line;
    } else {
      assert Concat([line]) == line by {
        assert [line][..0] == [];
      }
    }
  }

  lemma {:induction false} ChunksFit(line: string, width: int)
    requires |line| <= width || width >= 1
    ensures forall k :: 0 <= k < |Chunks(line, width)| ==> |Chunks(line, width)[k]| <= width
    decreases |line|
  {
    if |line| > width {
      ChunksFit(line[width..], width);
    }
  }

  lemma {:induction false} MiddleRowsWidth(lines: seq<string>, width: int, frame: Frame)
    requires width >= 0
    requires forall k :: 0 <= k < |lines| ==> |lines[k]| <= width || width >= 1
    ensures forall k :: 0 <= k < |MiddleRows(lines, width, frame)| ==> |MiddleRows(lines, width, frame)[k]| == width + 4
    decreases |lines|
  {
    if lines != [] {
      MiddleRowsWidth(lines[..|lines| - 1], width, frame);
      ChunksFit(lines[|lines| - 1], width);
    }
  }

  /**
   * A frame is a rectangle: every row, borders included, is the text width
   * plus four characters long, and the borders are a corner, width + 2 fill
   * characters and a corner.
   */
  lemma FrameIsRectangular(lines: seq<string>, width: int, frame: Frame)
    requires width >= 0
    requires forall k :: 0 <= k < |lines| ==> |lines[k]| <= width || width >= 1
    ensures var rows := FramedRows(lines, width, frame);
      (forall k :: 0 <= k < |rows| ==> |rows[k]| == width + 4)
      && rows[0] == [frame.leftTop] + Repeat([frame.upperHorizontal], width + 2) + [frame.rightTop]
      && rows[|rows| - 1] == [frame.leftBottom] + Repeat([frame.lowerHorizontal], width + 2) + [frame.rightBottom]
  {
    var rows := FramedRows(lines, width, frame);
    var mids := MiddleRows(lines, width, frame);
    MiddleRowsWidth(lines, width, frame);
    forall k | 0 < k < |rows| - 1
      ensures |rows[k]| == width + 4
    {
      assert rows[k] == mids[k - 1];
    }
  }

  /** Text whose lines all fit is not cut: row k + 1 shows line k, padded to the width. */
  lemma {:induction false} FittingLinesAreNotCut(lines: seq<string>, width: int, frame: Frame)
    requires forall k :: 0 <= k < |lines| ==> |lines[k]| <= width
    ensures MiddleRows(lines, width, frame) == seq(|lines|, k requires 0 <= k < |lines| => MiddleRow(frame.leftVertical, frame.rightVertical, lines[k], width + 4))
    decreases |lines|
  {
    if lines != [] {
      FittingLinesAreNotCut(lines[..|lines| - 1], width, frame);
    }
  }

  /** When no frame character is a line terminator, the lines of the framed text are exactly its rows. */
  lemma FramedTextLines(text: string, minWidth: int, maxWidth: int, frame: Frame)
    requires minWidth >= 0 && maxWidth >= 1
    requires NoTerminator([frame.leftTop, frame.upperHorizontal, frame.rightTop, frame.leftVertical,
      frame.rightVertical, frame.leftBottom, frame.lowerHorizontal, frame.rightBottom])
    ensures Lines(FramedText(text, minWidth, maxWidth, frame)) == FrameRows(text, minWidth, maxWidth, frame)
  {
    var lines := Lines(text);
    var width := FrameWidth(lines, minWidth, maxWidth);
    WidthFitsLines(lines, minWidth, maxWidth);
    MiddleRowsClean(lines, width, frame);
    var rows := FrameRows(text, minWidth, maxWidth, frame);
    RepeatChar(frame.upperHorizontal, width + 2);
    RepeatChar(frame.lowerHorizontal, width + 2);
    assert NoTerminator(rows[0]);
    assert NoTerminator(rows[|rows| - 1]);
    LinesOfTerminated(rows);
  }

  predicate NoTerminator(s: string)
  {
    '\n' !in s && '\r' !in s
  }

  lemma {:induction false} MiddleRowsClean(lines: seq<string>, width: int, frame: Frame)
    requires forall k :: 0 <= k < |lines| ==> |lines[k]| <= width || width >= 1
    requires forall k :: 0 <= k < |lines| ==> NoTerminator(lines[k])
    requires NoTerminator([frame.leftVertical, frame.rightVertical])
    ensures forall k :: 0 <= k < |MiddleRows(lines, width, frame)| ==> NoTerminator(MiddleRows(lines, width, frame)[k])
    decreases |lines|
  {
    if lines != [] {
      MiddleRowsClean(lines[..|lines| - 1], width, frame);
      ChunksClean(lines[|lines| - 1], width);
      var chunks := Chunks(lines[|lines| - 1], width);
      forall k | 0 <= k < |chunks|
        ensures NoTerminator(MiddleRow(frame.leftVertical, frame.rightVertical, chunks[k], width + 4))
      {
        var c := Complement(chunks[k], width);
        assert forall i :: 0 <= i < |c| ==> c[i] == ' ' || c[i] in chunks[k];
      }
    }
  }

  lemma {:induction false} ChunksClean(line: string, width: int)
    requires |line| <= width || width >= 1
    requires NoTerminator(line)
    ensures forall k :: 0 <= k < |Chunks(line, width)| ==> NoTerminator(Chunks(line, width)[k])
    decreases |line|
  {
    if |line| > width {
      assert forall c :: c in line[width..] ==> c in line;
      assert forall c :: c in line[..width] ==> c in line;
      ChunksClean(line[width..], width);
    }
  }

  // ---- the frameText overloads and the facades ----

  /** frameText with one frame character: that character everywhere, and a maximum width of 80. */
  method FrameTextWith(text: string, minWidth: int, symbol: char) returns (output: string)
    requires minWidth >= 0
    ensures output == FramedText(text, minWidth, 80, Uniform(symbol))
  {
    output := FrameText(text, minWidth, 80, Uniform(symbol));
  }

  /** What the pattern overload of frameText produces for a pattern of 1, 6 or 8 characters. */
  function FramedWithPattern(text: string, minWidth: int, maxWidth: int, pattern: seq<char>): Result<string>
    requires minWidth >= 0 && (|pattern| != 1 ==> maxWidth >= 1)
  {
    if |pattern| == 1 then Ok(FramedText(text, minWidth, 80, Uniform(pattern[0])))
    else if |pattern| == 6 then
      Ok(FramedText(text, minWidth, maxWidth, SixFrame(pattern[0], pattern[1], pattern[2], pattern[3], pattern[4], pattern[5])))
    else if |pattern| == 8 then
      Ok(FramedText(text, minWidth, maxWidth,
        Frame(pattern[0], pattern[1], pattern[2], pattern[3], pattern[4], pattern[5], pattern[6], pattern[7])))
    else Err(IllegalArgument)
  }

  /** frameText with a character pattern: dispatch on the pattern's length. */
  method FrameTextWithPattern(text: string, minWidth: int, maxWidth: int, pattern: seq<char>) returns (r: Result<string>)
    requires minWidth >= 0 && (|pattern| != 1 ==> maxWidth >= 1)
    ensures r == FramedWithPattern(text, minWidth, maxWidth, pattern)
  {
    if |pattern| == 1 {
      var output := FrameTextWith(text, minWidth, pattern[0]);
      r := Ok(output);
    } else if |pattern| == 6 {
      var output := FrameText(text, minWidth, maxWidth, SixFrame(pattern[0], pattern[1], pattern[2], pattern[3], pattern[4], pattern[5]));
      r := Ok(output);
    } else if |pattern| == 8 {
      var output := FrameText(text, minWidth, maxWidth,
        Frame(pattern[0], pattern[1], pattern[2], pattern[3], pattern[4], pattern[5], pattern[6], pattern[7]));
      r := Ok(output);
    } else {
      r := Err(IllegalArgument);
    }
  }

  /**
   * Only patterns of 1, 6 or 8 characters draw a frame; a one-character
   * pattern ignores the requested maximum width and uses 80.
   */
  lemma PatternLengths(text: string, minWidth: int, maxWidth: int, otherMaxWidth: int, pattern: seq<char>)
    requires minWidth >= 0 && (|pattern| != 1 ==> maxWidth >= 1 && otherMaxWidth >= 1)
    ensures FramedWithPattern(text, minWidth, maxWidth, pattern).Err?
      <==> |pattern| != 1 && |pattern| != 6 && |pattern| != 8
    ensures |pattern| == 1 ==>
      FramedWithPattern(text, minWidth, maxWidth, pattern) == FramedWithPattern(text, minWidth, otherMaxWidth, pattern)
  {
  }

  /** asteriskFrame asks for a maximum width of 90 but, through the one-character overload, gets 80. */
  lemma AsteriskFrameWidth(text: string)
    ensures FramedWithPattern(text, 30, 90, ASTERISK_FRAME) == Ok(FramedText(text, 30, 80, Uniform('*')))
  {
  }

  // ---- concatenateTables and stretchTable ----

  /** `n` copies of a line. */
  function Copies(s: string, n: nat): (r: seq<string>)
    ensures |r| == n && forall k :: 0 <= k < n ==> r[k] == s
  {
    seq(n, _ => s)
  }

  /** The filler line of stretchTable: the second line's first character, spaces, and its last character. */
  function Filler(middleLine: string): string
    requires |middleLine| >= 2
  {
    [middleLine[0]] + Repeat(" ", |middleLine| - 2) + [middleLine[|middleLine| - 1]]
  }

  /** What stretchTable leaves: filler lines inserted before the last line up to `height` lines, or the error it raises. */
  function Stretched(table: seq<string>, height: int): Result<seq<string>>
  {
    if |table| < 3 || height < 3 then Err(IllegalArgument)
    else if height < |table| then Err(IllegalArgument)
    else if height == |table| then Ok(table)
    else if |table[1]| < 5 then Err(IllegalArgument)
    else Ok(table[..|table| - 1] + Copies(Filler(table[1]), height - |table|) + [table[|table| - 1]])
  }

  /** stretchTable: inserts filler lines one by one before the last line. */
  method StretchTable(table: seq<string>, height: int) returns (r: Result<seq<string>>)
    ensures r == Stretched(table, height)
  {
    if |table| < 3 || height < 3 {
      return Err(IllegalArgument);
    }
    var fillerCount := height - |table|;
    if fillerCount < 0 {
      return Err(IllegalArgument);
    }
    var t := table;
    if fillerCount > 0 {
      var middleLine := table[1];
      if |middleLine| < 5 {
        return Err(IllegalArgument);
      }
      var filler := Filler(middleLine);
      for c := 0 to fillerCount
        invariant t == table[..|table| - 1] + Copies(filler, c) + [table[|table| - 1]]
      {
        assert Copies(filler, c + 1) == Copies(filler, c) + [filler];
        t := t[..|t| - 1] + [filler] + [t[|t| - 1]];
      }
    } else {
      assert t == table;
    }
    return Ok(t);
  }

  /** A stretched table has the requested height and keeps its lines, the last one last. */
  lemma StretchedShape(table: seq<string>, height: int)
    ensures Stretched(table, height).Ok? <==>
      3 <= |table| <= height && (height == |table| || |table[1]| >= 5)
    ensures Stretched(table, height).Ok? ==>
      var t := Stretched(table, height).value;
      |t| == height && t[..|table| - 1] == table[..|table| - 1] && t[height - 1] == table[|table| - 1]
      && forall k :: |table| - 1 <= k < height - 1 ==> t[k] == Filler(table[1])
  {
  }

  /** The first `n` tables, the shorter ones stretched to `height`, or the first error met. */
  function StretchAll(stuff: seq<seq<string>>, height: int, n: nat): (r: Result<seq<seq<string>>>)
    requires n <= |stuff|
    ensures r.Ok? ==> |r.value| == n
  {
    if n == 0 then Ok([])
    else
      match StretchAll(stuff, height, n - 1)
      case Err(e) => Err(e)
      case Ok(done) =>
        var t := stuff[n - 1];
        if |t| < height then
          match Stretched(t, height)
          case Err(e) => Err(e)
          case Ok(s) => Ok(done + [s])
        else Ok(done + [t])
  }

  /** The first `n` pieces of row `i`: the first table's line whole, the others' without their first character. */
  function RowPrefix(stuff: seq<seq<string>>, i: nat, n: nat): Result<string>
    requires n <= |stuff|
    requires forall j :: 0 <= j < |stuff| ==> i < |stuff[j]|
  {
    if n == 0 then Ok("")
    else
      match RowPrefix(stuff, i, n - 1)
      case Err(e) => Err(e)
      case Ok(p) =>
        var str := stuff[n - 1][i];
        if n - 1 == 0 then Ok(p + str)
        else if str == [] then Err(IndexOutOfBounds)
        else Ok(p + str[1..])
  }

  /** The first `m` rows, each followed by a line feed. */
  function RowsPrefix(stuff: seq<seq<string>>, m: nat): Result<string>
    requires forall j :: 0 <= j < |stuff| ==> m <= |stuff[j]|
  {
    if m == 0 then Ok("")
    else
      match RowsPrefix(stuff, m - 1)
      case Err(e) => Err(e)
      case Ok(t) =>
        match RowPrefix(stuff, m - 1, |stuff|)
        case Err(e) => Err(e)
        case Ok(row) => Ok(t + row + "\n")
  }

  /** The height of the tallest table, 0 when there are none. */
  function MaxHeight(tables: seq<seq<string>>): (m: nat)
    ensures forall k :: 0 <= k < |tables| ==> |tables[k]| <= m
    ensures tables != [] ==> exists k :: 0 <= k < |tables| && |tables[k]| == m
  {
    if tables == [] then 0
    else
      var m := MaxHeight(tables[..|tables| - 1]);
      var last := |tables[|tables| - 1]|;
      if last >= m then last else m
  }

  function TableLines(tables: seq<string>): (stuff: seq<seq<string>>)
    ensures |stuff| == |tables| && forall j :: 0 <= j < |tables| ==> stuff[j] == Lines(tables[j])
  {
    seq(|tables|, j requires 0 <= j < |tables| => Lines(tables[j]))
  }

  /** What concatenateTables returns or raises. */
  function ConcatenatedTables(tables: seq<string>): Result<string>
  {
    if |tables| == 0 then Err(IllegalArgument)
    else if |tables| == 1 then Ok(tables[0])
    else
      var stuff := TableLines(tables);
      var height := MaxHeight(stuff);
      match StretchAll(stuff, height, |stuff|)
      case Err(e) => Err(e)
      case Ok(stretched) =>
        StretchAllHeight(stuff, height, |stuff|);
        RowsPrefix(stretched, height)
  }

  lemma {:induction false} StretchAllHeight(stuff: seq<seq<string>>, height: int, n: nat)
    requires n <= |stuff|
    requires forall j :: 0 <= j < |stuff| ==> |stuff[j]| <= height
    ensures StretchAll(stuff, height, n).Ok? ==>
      forall j :: 0 <= j < n ==> |StretchAll(stuff, height, n).value[j]| == height
  {
    if n > 0 {
      StretchAllHeight(stuff, height, n - 1);
    }
  }

  /**
   * concatenateTables: puts framed tables side by side, row by row, after
   * stretching the shorter ones to the height of the tallest; every table
   * but the first loses its first column, which would repeat the border.
   */
  method ConcatenateTables(tables: seq<string>) returns (r: Result<string>)
    ensures r == ConcatenatedTables(tables)
  {
    if |tables| == 0 {
      return Err(IllegalArgument);
    }
    if |tables| == 1 {
      return Ok(tables[0]);
    }
    var stuff := TableLines(tables);
    var ceilingTableLength := MaxHeight(stuff);
    var stretched := StretchTables(stuff, ceilingTableLength);
    if stretched.Err? {
      return Err(stretched.error);
    }
    StretchAllHeight(stuff, ceilingTableLength, |stuff|);
    r := AssembleRows(stretched.value, ceilingTableLength);
  }

  /** The stretching loop of concatenateTables: every table shorter than `height` is stretched in turn. */
  method StretchTables(stuff: seq<seq<string>>, height: int) returns (r: Result<seq<seq<string>>>)
    ensures r == StretchAll(stuff, height, |stuff|)
  {
    var done: seq<seq<string>> := [];
    for i := 0 to |stuff|
      invariant StretchAll(stuff, height, i) == Ok(done)
    {
      var list := stuff[i];
      if |list| < height {
        var s := StretchTable(list, height);
        if s.Err? {
          StretchErrorPersists(stuff, height, i + 1);
          return Err(s.error);
        }
        list := s.value;
      }
      done := done + [list];
    }
    return Ok(done);
  }

  lemma {:induction false} StretchErrorPersists(stuff: seq<seq<string>>, height: int, n: nat)
    requires 1 <= n <= |stuff|
    requires StretchAll(stuff, height, n).Err?
    ensures StretchAll(stuff, height, |stuff|) == StretchAll(stuff, height, n)
    decreases |stuff| - n
  {
    if n < |stuff| {
      StretchErrorPersists(stuff, height, n + 1);
    }
  }

  /** The row loop of concatenateTables over tables of equal height. */
  method AssembleRows(stretched: seq<seq<string>>, height: nat) returns (r: Result<string>)
    requires forall j :: 0 <= j < |stretched| ==> |stretched[j]| == height
    ensures r == RowsPrefix(stretched, height)
  {
    var output := "";
    for i := 0 to height
      invariant RowsPrefix(stretched, i) == Ok(output)
    {
      var row := AssembleRow(stretched, i);
      if row.Err? {
        RowsErrorPersists(stretched, i + 1, height);
        return Err(row.error);
      }
      output := output + row.value + "\n";
    }
    return Ok(output);
  }

  /** One row of concatenateTables: the first table's line, then the others' lines without their first character. */
  method AssembleRow(stretched: seq<seq<string>>, i: nat) returns (r: Result<string>)
    requires forall j :: 0 <= j < |stretched| ==> i < |stretched[j]|
    ensures r == RowPrefix(stretched, i, |stretched|)
  {
    var row := "";
    for j := 0 to |stretched|
      invariant RowPrefix(stretched, i, j) == Ok(row)
    {
      var str := stretched[j][i];
      if j == 0 {
        row := row + str;
      } else {
        if str == [] {
          RowErrorPersists(stretched, i, j + 1);
          return Err(IndexOutOfBounds);
        }
        row := row + str[1..];
      }
    }
    return Ok(row);
  }

  lemma {:induction false} RowErrorPersists(stuff: seq<seq<string>>, i: nat, n: nat)
    requires n <= |stuff|
    requires forall j :: 0 <= j < |stuff| ==> i < |stuff[j]|
    requires n >= 1 && RowPrefix(stuff, i, n).Err?
    ensures RowPrefix(stuff, i, |stuff|) == RowPrefix(stuff, i, n)
    decreases |stuff| - n
  {
    if n < |stuff| {
      RowErrorPersists(stuff, i, n + 1);
    }
  }

  lemma {:induction false} RowsErrorPersists(stuff: seq<seq<string>>, m: nat, height: nat)
    requires m <= height
    requires forall j :: 0 <= j < |stuff| ==> height <= |stuff[j]|
    requires m >= 1 && RowsPrefix(stuff, m).Err?
    ensures RowsPrefix(stuff, height) == RowsPrefix(stuff, m)
    decreases height - m
  {
    if m < height {
      RowsErrorPersists(stuff, m + 1, height);
    }
  }

  // ---- what concatenateTables produces ----

  /** A line without its first character; an empty line stays empty. */
  function Tail(s: string): string
  {
    if s == [] then [] else s[1..]
  }

  /** Row `i` of tables 1 to `n - 1`, each without its first character. */
  function Tails(stuff: seq<seq<string>>, i: nat, n: nat): (r: seq<string>)
    requires 1 <= n <= |stuff|
    requires forall j :: 0 <= j < |stuff| ==> i < |stuff[j]|
    ensures |r| == n - 1
  {
    seq(n - 1, j requires 0 <= j < n - 1 => Tail(stuff[j + 1][i]))
  }

  /** Row `i` of the joined table. */
  function JoinedRow(stuff: seq<seq<string>>, i: nat): string
    requires 1 <= |stuff|
    requires forall j :: 0 <= j < |stuff| ==> i < |stuff[j]|
  {
    stuff[0][i] + Concat(Tails(stuff, i, |stuff|))
  }

  /** The first `m` rows of the joined table. */
  function JoinedRows(stuff: seq<seq<string>>, m: nat): (r: seq<string>)
    requires 1 <= |stuff|
    requires forall j :: 0 <= j < |stuff| ==> m <= |stuff[j]|
    ensures |r| == m && forall i :: 0 <= i < m ==> r[i] == JoinedRow(stuff, i)
  {
    seq(m, i requires 0 <= i < m => JoinedRow(stuff, i))
  }

  /** Whether some table after the first has an empty line `i`: the line `substring(1)` cannot cut. */
  predicate EmptyCellIn(stuff: seq<seq<string>>, i: nat, n: nat)
    requires n <= |stuff|
    requires forall j :: 0 <= j < |stuff| ==> i < |stuff[j]|
  {
    exists j :: 1 <= j < n && stuff[j][i] == []
  }

  /** A row is assembled unless a later table's line is empty, and then it is the joined row. */
  lemma {:induction false} RowPrefixValue(stuff: seq<seq<string>>, i: nat, n: nat)
    requires 1 <= n <= |stuff|
    requires forall j :: 0 <= j < |stuff| ==> i < |stuff[j]|
    ensures RowPrefix(stuff, i, n).Ok? <==> !EmptyCellIn(stuff, i, n)
    ensures RowPrefix(stuff, i, n).Err? ==> RowPrefix(stuff, i, n) == Err(IndexOutOfBounds)
    ensures RowPrefix(stuff, i, n).Ok? ==> RowPrefix(stuff, i, n).value == stuff[0][i] + Concat(Tails(stuff, i, n))
  {
    if n == 1 {
      assert Tails(stuff, i, 1) == [];
      assert !EmptyCellIn(stuff, i, 1);
    } else {
      RowPrefixValue(stuff, i, n - 1);
      var ts := Tails(stuff, i, n);
      assert ts[..|ts| - 1] == Tails(stuff, i, n - 1);
      if EmptyCellIn(stuff, i, n - 1) {
        assert EmptyCellIn(stuff, i, n);
      } else if stuff[n - 1][i] == [] {
        assert EmptyCellIn(stuff, i, n);
      } else {
        assert !EmptyCellIn(stuff, i, n) by {
          forall j | 1 <= j < n
            ensures stuff[j][i] != []
          {
            if j < n - 1 {
              assert !(stuff[j][i] == []);
            }
          }
        }
      }
    }
  }

  /** The rows are assembled unless some later table has an empty line among them, and that is an IndexOutOfBounds. */
  lemma {:induction false} RowsPrefixFails(stuff: seq<seq<string>>, m: nat)
    requires 1 <= |stuff|
    requires forall j :: 0 <= j < |stuff| ==> m <= |stuff[j]|
    ensures RowsPrefix(stuff, m).Ok? <==> forall i :: 0 <= i < m ==> !EmptyCellIn(stuff, i, |stuff|)
    ensures RowsPrefix(stuff, m).Err? ==> RowsPrefix(stuff, m) == Err(IndexOutOfBounds)
  {
    if m > 0 {
      RowsPrefixFails(stuff, m - 1);
      RowPrefixValue(stuff, m - 1, |stuff|);
    }
  }

  /** Assembled rows are the joined rows, each followed by a line feed. */
  lemma {:induction false} RowsPrefixValue(stuff: seq<seq<string>>, m: nat)
    requires 1 <= |stuff|
    requires forall j :: 0 <= j < |stuff| ==> m <= |stuff[j]|
    requires RowsPrefix(stuff, m).Ok?
    ensures RowsPrefix(stuff, m).value == Terminated(JoinedRows(stuff, m))
  {
    if m > 0 {
      RowsPrefixValue(stuff, m - 1);
      RowPrefixValue(stuff, m - 1, |stuff|);
      assert JoinedRows(stuff, m) == JoinedRows(stuff, m - 1) + [JoinedRow(stuff, m - 1)];
      TerminatedAppend(JoinedRows(stuff, m - 1), JoinedRow(stuff, m - 1));
    }
  }

  /** A table the stretching step accepts: tall enough already, or stretchable. */
  predicate Fits(table: seq<string>, height: int)
  {
    |table| >= height || Stretched(table, height).Ok?
  }

  /** Stretching the first `n` tables succeeds exactly when each of them fits. */
  lemma {:induction false} StretchAllFits(stuff: seq<seq<string>>, height: int, n: nat)
    requires n <= |stuff|
    ensures StretchAll(stuff, height, n).Ok? <==> forall j :: 0 <= j < n ==> Fits(stuff[j], height)
  {
    if n > 0 {
      StretchAllFits(stuff, height, n - 1);
      if StretchAll(stuff, height, n - 1).Err? {
        var j :| 0 <= j < n - 1 && !Fits(stuff[j], height);
      }
    }
  }

  /** The tables after stretching: the first `n` each kept or stretched to `height`. */
  lemma {:induction false} StretchAllValue(stuff: seq<seq<string>>, height: int, n: nat)
    requires n <= |stuff| && StretchAll(stuff, height, n).Ok?
    ensures forall j :: 0 <= j < n ==>
      if |stuff[j]| < height then Stretched(stuff[j], height) == Ok(StretchAll(stuff, height, n).value[j])
      else StretchAll(stuff, height, n).value[j] == stuff[j]
  {
    if n > 0 {
      var prev := StretchAll(stuff, height, n - 1);
      StretchAllValue(stuff, height, n - 1);
      var t := stuff[n - 1];
      var last := if |t| < height then Stretched(t, height).value else t;
      var done := prev.value + [last];
      assert StretchAll(stuff, height, n) == Ok(done);
      forall j | 0 <= j < n
        ensures if |stuff[j]| < height then Stretched(stuff[j], height) == Ok(done[j]) else done[j] == stuff[j]
      {
        if j < n - 1 {
          assert done[j] == prev.value[j];
        }
      }
    }
  }

  /** No line of a table holds a line terminator. */
  predicate Clean(table: seq<string>)
  {
    forall k :: 0 <= k < |table| ==> '\n' !in table[k] && '\r' !in table[k]
  }

  lemma StretchedClean(table: seq<string>, height: int)
    requires Clean(table) && Stretched(table, height).Ok?
    ensures Clean(Stretched(table, height).value)
  {
    if 3 <= |table| < height {
      var f := Filler(table[1]);
      RepeatChar(' ', |table[1]| - 2);
      assert '\n' !in f && '\r' !in f;
    }
  }

  lemma JoinedRowsClean(stuff: seq<seq<string>>, m: nat)
    requires 1 <= |stuff|
    requires forall j :: 0 <= j < |stuff| ==> m <= |stuff[j]| && Clean(stuff[j])
    ensures forall i :: 0 <= i < m ==> '\n' !in JoinedRow(stuff, i) && '\r' !in JoinedRow(stuff, i)
  {
    forall i | 0 <= i < m
      ensures '\n' !in JoinedRow(stuff, i) && '\r' !in JoinedRow(stuff, i)
    {
      var ts := Tails(stuff, i, |stuff|);
      assert forall k :: 0 <= k < |ts| ==> ts[k] == Tail(stuff[k + 1][i]);
      ConcatAvoids(ts, '\n');
      ConcatAvoids(ts, '\r');
    }
  }

  /**
   * concatenateTables on two or more tables: they are stretched to the
   * height of the tallest (StretchAllFits and StretchAllValue say when and how, and the first
   * table that cannot be stretched decides the error), and then the result
   * has exactly that many lines, line `i` being the first table's line `i`
   * followed by the other tables' lines `i` without their first character;
   * it fails with IndexOutOfBounds exactly when one of those lines is empty.
   * No table fails with IllegalArgument, one table comes back unchanged.
   */
  lemma ConcatenatedTablesShape(tables: seq<string>)
    ensures tables == [] ==> ConcatenatedTables(tables) == Err(IllegalArgument)
    ensures |tables| == 1 ==> ConcatenatedTables(tables) == Ok(tables[0])
    ensures |tables| >= 2 && StretchAll(TableLines(tables), MaxHeight(TableLines(tables)), |tables|).Err? ==>
      ConcatenatedTables(tables) == StretchAll(TableLines(tables), MaxHeight(TableLines(tables)), |tables|).PropagateFailure()
    ensures |tables| >= 2 && StretchAll(TableLines(tables), MaxHeight(TableLines(tables)), |tables|).Ok? ==>
      var height := MaxHeight(TableLines(tables));
      var st := StretchAll(TableLines(tables), height, |tables|).value;
      (forall j :: 0 <= j < |st| ==> |st[j]| == height)
      && (ConcatenatedTables(tables).Ok? <==> forall i :: 0 <= i < height ==> !EmptyCellIn(st, i, |st|))
      && (ConcatenatedTables(tables).Err? ==> ConcatenatedTables(tables) == Err(IndexOutOfBounds))
      && (ConcatenatedTables(tables).Ok? ==> Lines(ConcatenatedTables(tables).value) == JoinedRows(st, height))
  {
    if |tables| >= 2 {
      var stuff := TableLines(tables);
      var height := MaxHeight(stuff);
      var st := StretchAll(stuff, height, |stuff|);
      StretchAllHeight(stuff, height, |stuff|);
      if st.Ok? {
        ConcatenatedOk(tables, stuff, height, st.value);
      }
    }
  }

  lemma ConcatenatedOk(tables: seq<string>, stuff: seq<seq<string>>, height: nat, st: seq<seq<string>>)
    requires |tables| >= 2 && stuff == TableLines(tables) && height == MaxHeight(stuff)
    requires StretchAll(stuff, height, |stuff|) == Ok(st)
    requires forall j :: 0 <= j < |st| ==> |st[j]| == height
    ensures ConcatenatedTables(tables) == RowsPrefix(st, height)
    ensures RowsPrefix(st, height).Ok? <==> forall i :: 0 <= i < height ==> !EmptyCellIn(st, i, |st|)
    ensures RowsPrefix(st, height).Err? ==> RowsPrefix(st, height) == Err(IndexOutOfBounds)
    ensures RowsPrefix(st, height).Ok? ==> Lines(RowsPrefix(st, height).value) == JoinedRows(st, height)
  {
    RowsPrefixFails(st, height);
    if RowsPrefix(st, height).Ok? {
      RowsPrefixValue(st, height);
    }
    StretchAllValue(stuff, height, |stuff|);
    forall j | 0 <= j < |stuff|
      ensures Clean(st[j])
    {
      if |stuff[j]| < height {
        StretchedClean(stuff[j], height);
      }
    }
    JoinedRowsClean(st, height);
    LinesOfTerminated(JoinedRows(st, height));
  }
}
