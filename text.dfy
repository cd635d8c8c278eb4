/**
 * The java.lang.String operations the modelled code relies on, over Dafny
 * strings (sequences of Unicode scalar values). Lengths and substring
 * bounds count scalar values, where Java counts UTF-16 code units; the two
 * agree on the Basic Multilingual Plane.
 */
module Text {
  import opened Wrappers
  import opened JavaLang

  /** Character.isWhitespace. */
  predicate IsWhitespace(c: char)
  {
    c == ' ' || ('\t' <= c <= '\r') || ('\U{1C}' <= c <= '\U{1F}')
    || c == '\U{1680}' || ('\U{2000}' <= c <= '\U{2006}') || ('\U{2008}' <= c <= '\U{200A}')
    || c == '\U{2028}' || c == '\U{2029}' || c == '\U{205F}' || c == '\U{3000}'
  }

  /** String.isBlank: empty, or white space only. */
  predicate IsBlank(s: string)
  {
    forall i :: 0 <= i < |s| ==> IsWhitespace(s[i])
  }

  /** The characters String.trim removes at either end. */
  predicate IsTrimmable(c: char) { c <= ' ' }

  function TrimStart(s: string): (r: string)
    ensures |r| <= |s| && r == s[|s| - |r|..]
    ensures r == [] || !IsTrimmable(r[0])
    ensures forall i :: 0 <= i < |s| - |r| ==> IsTrimmable(s[i])
  {
    if s != [] && IsTrimmable(s[0]) then TrimStart(s[1..]) else s
  }

  function TrimEnd(s: string): (r: string)
    ensures |r| <= |s| && r == s[..|r|]
    ensures r == [] || !IsTrimmable(r[|r| - 1])
    ensures forall i :: |r| <= i < |s| ==> IsTrimmable(s[i])
  {
    if s != [] && IsTrimmable(s[|s| - 1]) then TrimEnd(s[..|s| - 1]) else s
  }

  /** String.trim: drops every leading and trailing character up to U+0020. */
  function Trim(s: string): (r: string)
    ensures |r| <= |s|
    ensures r == [] || (!IsTrimmable(r[0]) && !IsTrimmable(r[|r| - 1]))
  {
    TrimEnd(TrimStart(s))
  }

  lemma {:induction false} TrimStartNoop(s: string)
    requires s == [] || !IsTrimmable(s[0])
    ensures TrimStart(s) == s
  {
  }

  lemma {:induction false} TrimEndNoop(s: string)
    requires s == [] || !IsTrimmable(s[|s| - 1])
    ensures TrimEnd(s) == s
  {
  }

  /** A string whose ends are not trimmable is its own trim. */
  lemma TrimNoop(s: string)
    requires s == [] || (!IsTrimmable(s[0]) && !IsTrimmable(s[|s| - 1]))
    ensures Trim(s) == s
  {
    TrimStartNoop(s);
    TrimEndNoop(s);
  }

  /** One leading space is trimmed away from an unpadded value. */
  lemma TrimPadded(value: string)
    requires value != [] && !IsTrimmable(value[0]) && !IsTrimmable(value[|value| - 1])
    ensures Trim(" " + value) == value
  {
    assert (" " + value)[1..] == value;
    assert TrimStart(" " + value) == TrimStart(value);
    TrimNoop(value);
  }

  /** Dropping trailing trimmable characters does not change the trim. */
  lemma {:induction false} TrimDropsTail(s: string, tail: string)
    requires forall i :: 0 <= i < |tail| ==> IsTrimmable(tail[i])
    requires s != [] && !IsTrimmable(s[0]) && !IsTrimmable(s[|s| - 1])
    ensures Trim(s + tail) == s
  {
    assert TrimStart(s + tail) == s + tail;
    TrimEndOfPadded(s, tail);
  }

  lemma {:induction false} TrimEndOfPadded(s: string, tail: string)
    requires forall i :: 0 <= i < |tail| ==> IsTrimmable(tail[i])
    requires s != [] && !IsTrimmable(s[|s| - 1])
    ensures TrimEnd(s + tail) == s
    decreases |tail|
  {
    if tail == [] {
      assert s + tail == s;
    } else {
      var shorter := tail[..|tail| - 1];
      assert (s + tail)[..|s + tail| - 1] == s + shorter;
      TrimEndOfPadded(s, shorter);
    }
  }

  /** String.strip: drops leading and trailing white space. */
  function Strip(s: string): (r: string)
    ensures |r| <= |s|
    ensures r == [] || (!IsWhitespace(r[0]) && !IsWhitespace(r[|r| - 1]))
  {
    StripEnd(StripStart(s))
  }

  function StripStart(s: string): (r: string)
    ensures |r| <= |s| && r == s[|s| - |r|..]
    ensures r == [] || !IsWhitespace(r[0])
  {
    if s != [] && IsWhitespace(s[0]) then StripStart(s[1..]) else s
  }

  function StripEnd(s: string): (r: string)
    ensures |r| <= |s| && r == s[..|r|]
    ensures r == [] || !IsWhitespace(r[|r| - 1])
  {
    if s != [] && IsWhitespace(s[|s| - 1]) then StripEnd(s[..|s| - 1]) else s
  }

  /** A string without white space at either end is its own strip. */
  lemma StripNoop(s: string)
    requires s == [] || (!IsWhitespace(s[0]) && !IsWhitespace(s[|s| - 1]))
    ensures Strip(s) == s
  {
  }

  predicate StartsWith(s: string, prefix: string)
  {
    |prefix| <= |s| && s[..|prefix|] == prefix
  }

  predicate EndsWith(s: string, suffix: string)
  {
    |suffix| <= |s| && s[|s| - |suffix|..] == suffix
  }

  /** String.indexOf(char): the first position of `c`, or -1. */
  function IndexOfChar(s: string, c: char): (i: int)
    ensures -1 <= i < |s|
    ensures i == -1 <==> c !in s
    ensures i >= 0 ==> s[i] == c && c !in s[..i]
  {
    if s == [] then -1
    else if s[0] == c then 0
    else var j := IndexOfChar(s[1..], c); if j < 0 then -1 else j + 1
  }

  /** String.lastIndexOf(char): the last position of `c`, or -1. */
  function LastIndexOfChar(s: string, c: char): (i: int)
    ensures -1 <= i < |s|
    ensures i == -1 <==> c !in s
    ensures i >= 0 ==> s[i] == c && c !in s[i + 1..]
  {
    if s == [] then -1
    else if s[|s| - 1] == c then |s| - 1
    else LastIndexOfChar(s[..|s| - 1], c)
  }

  /** The last occurrence is the one with no `c` after it. */
  lemma LastIndexOfCharAt(s: string, c: char, i: int)
    requires 0 <= i < |s| && s[i] == c && c !in s[i + 1..]
    ensures LastIndexOfChar(s, c) == i
  {
  }

  /** List.indexOf: the first position of `x`, or -1. */
  function IndexOf<T(==)>(xs: seq<T>, x: T): (i: int)
    ensures -1 <= i < |xs|
    ensures i == -1 <==> x !in xs
    ensures i >= 0 ==> xs[i] == x && x !in xs[..i]
  {
    if xs == [] then -1
    else if xs[0] == x then 0
    else var j := IndexOf(xs[1..], x); if j < 0 then -1 else j + 1
  }

  /** The first position holding `x` is the one IndexOf reports. */
  lemma IndexOfIs<T>(xs: seq<T>, x: T, i: int)
    requires 0 <= i < |xs| && xs[i] == x && x !in xs[..i]
    ensures IndexOf(xs, x) == i
  {
  }

  /** Looking for `x` after appending `y`: found where it was, else at the new end if `y` is `x`. */
  lemma IndexOfAppend<T>(xs: seq<T>, y: T, x: T)
    ensures IndexOf(xs + [y], x) == if x in xs then IndexOf(xs, x) else if x == y then |xs| else -1
  {
    var ys := xs + [y];
    if x in xs {
      var i := IndexOf(xs, x);
      assert ys[..i] == xs[..i];
      IndexOfIs(ys, x, i);
    } else if x == y {
      assert ys[..|xs|] == xs;
      IndexOfIs(ys, x, |xs|);
    }
  }

  /** The pieces of `s` between occurrences of `c`, empty pieces included. */
  function SplitAll(s: string, c: char): (parts: seq<string>)
    ensures |parts| >= 1
    ensures forall k :: 0 <= k < |parts| ==> c !in parts[k]
    decreases |s|
  {
    var i := IndexOfChar(s, c);
    if i < 0 then [s] else [s[..i]] + SplitAll(s[i + 1..], c)
  }

  function DropTrailingEmpty(parts: seq<string>): (r: seq<string>)
    ensures |r| <= |parts| && r == parts[..|r|]
    ensures r == [] || r[|r| - 1] != []
    ensures forall k :: |r| <= k < |parts| ==> parts[k] == []
  {
    if parts != [] && parts[|parts| - 1] == [] then DropTrailingEmpty(parts[..|parts| - 1]) else parts
  }

  /**
   * String.split with a one-character pattern: the pieces between the
   * separators, trailing empty pieces removed; a string without the separator
   * is its own single piece.
   */
  function Split(s: string, c: char): (parts: seq<string>)
    ensures forall k :: 0 <= k < |parts| ==> c !in parts[k]
    ensures c !in s ==> parts == [s]
  {
    if c !in s then [s] else DropTrailingEmpty(SplitAll(s, c))
  }

  /** String.join. */
  function Join(sep: string, parts: seq<string>): string
  {
    if parts == [] then []
    else if |parts| == 1 then parts[0]
    else parts[0] + sep + Join(sep, parts[1..])
  }

  /** Splitting a join of separator-free pieces gives the pieces back. */
  lemma {:induction false} SplitAllJoin(c: char, parts: seq<string>)
    requires |parts| >= 1
    requires forall k :: 0 <= k < |parts| ==> c !in parts[k]
    ensures SplitAll(Join([c], parts), c) == parts
  {
    if |parts| == 1 {
    } else {
      var s := Join([c], parts);
      var rest := Join([c], parts[1..]);
      assert s == parts[0] + [c] + rest;
      IndexOfSeparator(parts[0], c, rest);
      assert s[|parts[0]| + 1..] == rest;
      SplitAllJoin(c, parts[1..]);
    }
  }

  lemma IndexOfSeparator(head: string, c: char, rest: string)
    requires c !in head
    ensures IndexOfChar(head + [c] + rest, c) == |head|
    ensures (head + [c] + rest)[..|head|] == head
  {
    var s := head + [c] + rest;
    assert s[..|head|] == head;
    assert s[|head|] == c;
  }

  /** Split of a join of non-empty, separator-free pieces gives the pieces back. */
  lemma SplitJoin(c: char, parts: seq<string>)
    requires |parts| >= 1
    requires forall k :: 0 <= k < |parts| ==> c !in parts[k] && parts[k] != []
    ensures Split(Join([c], parts), c) == parts
  {
    if |parts| == 1 {
    } else {
      var s := Join([c], parts);
      assert s == parts[0] + [c] + Join([c], parts[1..]);
      assert s[|parts[0]|] == c;
      SplitAllJoin(c, parts);
    }
  }

  /** The position of the first line terminator (`\n` or `\r`), or the length. */
  function LineEnd(s: string): (i: nat)
    ensures i <= |s|
    ensures forall k :: 0 <= k < i ==> s[k] != '\n' && s[k] != '\r'
    ensures i < |s| ==> s[i] == '\n' || s[i] == '\r'
  {
    if s == [] || s[0] == '\n' || s[0] == '\r' then 0 else LineEnd(s[1..]) + 1
  }

  /**
   * String.lines: the lines of `s`, split at `\n`, `\r` or `\r\n`; a final
   * terminator does not start another line and the empty string has no lines.
   */
  function Lines(s: string): (lines: seq<string>)
    ensures forall k :: 0 <= k < |lines| ==> '\n' !in lines[k] && '\r' !in lines[k]
    ensures s == [] <==> lines == []
    decreases |s|
  {
    if s == [] then []
    else
      var i := LineEnd(s);
      if i == |s| then [s]
      else
        var width := if s[i] == '\r' && i + 1 < |s| && s[i + 1] == '\n' then 2 else 1;
        [s[..i]] + Lines(s[i + width..])
  }

  /** Joining terminator-free lines with `\n` and splitting them again is the identity. */
  lemma {:induction false} LinesOfJoin(lines: seq<string>)
    requires |lines| >= 1 && lines[|lines| - 1] != []
    requires forall k :: 0 <= k < |lines| ==> '\n' !in lines[k] && '\r' !in lines[k]
    ensures Lines(Join("\n", lines)) == lines
  {
    var s := Join("\n", lines);
    if |lines| == 1 {
      LineEndOf(lines[0], "");
      assert lines[0] + "" == lines[0];
    } else {
      var rest := Join("\n", lines[1..]);
      assert s == lines[0] + "\n" + rest;
      LineEndOf(lines[0], "\n" + rest);
      assert lines[0] + ("\n" + rest) == s;
      assert s[|lines[0]| + 1..] == rest;
      assert s[..|lines[0]|] == lines[0];
      JoinNonEmpty("\n", lines[1..]);
      LinesOfJoin(lines[1..]);
    }
  }

  lemma JoinNonEmpty(sep: string, parts: seq<string>)
    requires |parts| >= 1 && parts[|parts| - 1] != []
    ensures Join(sep, parts) != []
  {
    if |parts| > 1 {
      JoinNonEmpty(sep, parts[1..]);
    }
  }

  lemma {:induction false} LineEndOf(line: string, rest: string)
    requires '\n' !in line && '\r' !in line
    requires rest == [] || rest[0] == '\n'
    ensures LineEnd(line + rest) == |line|
    decreases |line|
  {
    if line == [] {
      assert line + rest == rest;
    } else {
      assert (line + rest)[1..] == line[1..] + rest;
      LineEndOf(line[1..], rest);
    }
  }

  /** The pieces written one after another (a StringBuilder fed in order). */
  function Concat(parts: seq<string>): (r: string)
    ensures parts == [] ==> r == []
  {
    if parts == [] then [] else Concat(parts[..|parts| - 1]) + parts[|parts| - 1]
  }

  lemma {:induction false} ConcatAppend(parts: seq<string>, more: seq<string>)
    ensures Concat(parts + more) == Concat(parts) + Concat(more)
    decreases |more|
  {
    if more == [] {
      assert parts + more == parts;
    } else {
      var init := more[..|more| - 1];
      assert parts + more == (parts + init) + [more[|more| - 1]];
      assert (parts + more)[..|parts + more| - 1] == parts + init;
      ConcatAppend(parts, init);
    }
  }

  /** A character none of the pieces holds is not in their concatenation. */
  lemma {:induction false} ConcatAvoids(parts: seq<string>, c: char)
    requires forall k :: 0 <= k < |parts| ==> c !in parts[k]
    ensures c !in Concat(parts)
    decreases |parts|
  {
    if parts != [] {
      ConcatAvoids(parts[..|parts| - 1], c);
    }
  }

  /** Each line followed by a line feed, as `%n` writes them on a Unix system. */
  function Terminated(lines: seq<string>): (r: string)
  {
    if lines == [] then [] else lines[0] + "\n" + Terminated(lines[1..])
  }

  lemma {:induction false} TerminatedAppend(lines: seq<string>, line: string)
    ensures Terminated(lines + [line]) == Terminated(lines) + line + "\n"
    decreases |lines|
  {
    if lines == [] {
      assert lines + [line] == [line];
    } else {
      assert (lines + [line])[1..] == lines[1..] + [line];
      TerminatedAppend(lines[1..], line);
    }
  }

  /** Reading back the lines of terminated, terminator-free lines gives them again, empty ones included. */
  lemma {:induction false} LinesOfTerminated(lines: seq<string>)
    requires forall k :: 0 <= k < |lines| ==> '\n' !in lines[k] && '\r' !in lines[k]
    ensures Lines(Terminated(lines)) == lines
    decreases |lines|
  {
    if lines != [] {
      var rest := Terminated(lines[1..]);
      var s := Terminated(lines);
      assert s == lines[0] + ("\n" + rest);
      LineEndOf(lines[0], "\n" + rest);
      assert s[|lines[0]|] == '\n';
      assert s[..|lines[0]|] == lines[0];
      assert s[|lines[0]| + 1..] == rest;
      LinesOfTerminated(lines[1..]);
    }
  }

  /** `n` copies of `s` (String.repeat). */
  function Repeat(s: string, n: nat): (r: string)
    ensures |r| == |s| * n
  {
    if n == 0 then [] else Repeat(s, n - 1) + s
  }

  lemma {:induction false} RepeatChar(c: char, n: nat)
    ensures forall k :: 0 <= k < n ==> Repeat([c], n)[k] == c
  {
    if n > 0 {
      RepeatChar(c, n - 1);
    }
  }

  lemma {:induction false} TerminatedConcat(a: seq<string>, b: seq<string>)
    ensures Terminated(a + b) == Terminated(a) + Terminated(b)
    decreases |a|
  {
    if a == [] {
      assert a + b == b;
    } else {
      assert (a + b)[1..] == a[1..] + b;
      TerminatedConcat(a[1..], b);
    }
  }

  /**
   * String.toLowerCase for the alphabets the program meets: ASCII Latin and
   * Russian Cyrillic (А..Я and Ё).
   */
  function LowerChar(c: char): char
  {
    if 'A' <= c <= 'Z' then ((c as int) + 32) as char
    else if 'А' <= c <= 'Я' then ((c as int) + 32) as char
    else if c == 'Ё' then 'ё'
    else c
  }

  function ToLowerCase(s: string): (r: string)
    ensures |r| == |s|
    ensures forall i :: 0 <= i < |s| ==> r[i] == LowerChar(s[i])
  {
    seq(|s|, i requires 0 <= i < |s| => LowerChar(s[i]))
  }

  predicate IsDigit(c: char) { '0' <= c <= '9' }

  /** Matches the regular expression `[0-9]+` in full (`\d` is the same in Java's default mode). */
  predicate IsDigits(s: string)
  {
    |s| > 0 && forall i :: 0 <= i < |s| ==> IsDigit(s[i])
  }

  function DigitValue(c: char): nat
    requires IsDigit(c)
  {
    (c as int) - ('0' as int)
  }

  function DigitChar(d: nat): (c: char)
    requires d < 10
    ensures IsDigit(c) && DigitValue(c) == d
  {
    (('0' as int) + d) as char
  }

  /** The value of a run of decimal digits. */
  function DigitsValue(s: string): nat
    requires forall i :: 0 <= i < |s| ==> IsDigit(s[i])
  {
    if s == [] then 0 else DigitsValue(s[..|s| - 1]) * 10 + DigitValue(s[|s| - 1])
  }

  /** The decimal digits of a natural number, without leading zeros. */
  function NatToString(n: nat): (r: string)
    ensures IsDigits(r)
    ensures r[0] == '0' ==> n == 0
  {
    if n < 10 then [DigitChar(n)] else NatToString(n / 10) + [DigitChar(n % 10)]
  }

  /** Integer.toString / String.valueOf(int) and `%d`. */
  function IntToString(n: int): string
  {
    if n < 0 then "-" + NatToString(-n) else NatToString(n)
  }

  lemma {:induction false} DigitsRoundTrip(n: nat)
    ensures DigitsValue(NatToString(n)) == n
  {
    if n >= 10 {
      DigitsRoundTrip(n / 10);
      var s := NatToString(n);
      assert s[..|s| - 1] == NatToString(n / 10);
    }
  }

  /**
   * Integer.parseInt restricted to ASCII: an optional sign and the digits
   * '0'..'9', within the int range. Java also accepts the other Unicode
   * decimal digits here; those give None.
   */
  function ParseInt(s: string): (r: Option<int>)
    ensures r.Some? ==> IsInt32(r.value)
  {
    if s == [] then None
    else
      var signed := s[0] == '-' || s[0] == '+';
      var digits := if signed then s[1..] else s;
      if !IsDigits(digits) then None
      else
        var v: int := if s[0] == '-' then -(DigitsValue(digits) as int) else DigitsValue(digits);
        if IsInt32(v) then Some(v) else None
  }

  /** A leading zero does not change the value of a run of digits. */
  lemma {:induction false} LeadingZeroValue(s: string)
    requires forall i :: 0 <= i < |s| ==> IsDigit(s[i])
    ensures DigitsValue("0" + s) == DigitsValue(s)
    decreases |s|
  {
    if s == [] {
      assert ("0" + s)[..0] == [];
    } else {
      assert ("0" + s)[..|"0" + s| - 1] == "0" + s[..|s| - 1];
      LeadingZeroValue(s[..|s| - 1]);
    }
  }

  /** Integer.parseInt accepts leading zeros: "007" reads as 7. */
  lemma ParseIntLeadingZero(s: string)
    requires IsDigits(s)
    ensures IsDigits("0" + s) && !IsBlank("0" + s)
    ensures ParseInt("0" + s) == ParseInt(s)
  {
    var z := "0" + s;
    assert z[1..] == s;
    assert forall i :: 1 <= i < |z| ==> z[i] == s[i - 1];
    assert !IsWhitespace(z[0]);
    LeadingZeroValue(s);
  }

  /** Printing an int and parsing it back gives the int. */
  lemma ParseIntOfToString(n: int)
    requires IsInt32(n)
    ensures ParseInt(IntToString(n)) == Some(n)
  {
    if n < 0 {
      DigitsRoundTrip(-n);
      assert IntToString(n)[1..] == NatToString(-n);
    } else {
      DigitsRoundTrip(n);
    }
  }

  /** The value of the digits after a decimal point: "25" is 0.25. */
  function FractionValue(s: string): (r: real)
    requires forall i :: 0 <= i < |s| ==> IsDigit(s[i])
    ensures 0.0 <= r <= 1.0
  {
    if s == [] then 0.0 else (DigitValue(s[0]) as real + FractionValue(s[1..])) / 10.0
  }

  /**
   * Double.parseDouble over plain decimal notation: after trimming, an
   * optional sign, digits, and an optional point with more digits; at least
   * one digit in all.
   */
  function ParseDouble(s: string): (r: Option<real>)
  {
    var t := Trim(s);
    if t == [] then None
    else
      var negative := t[0] == '-';
      var body := if t[0] == '-' || t[0] == '+' then t[1..] else t;
      var point := IndexOfChar(body, '.');
      var whole := if point < 0 then body else body[..point];
      var fraction := if point < 0 then [] else body[point + 1..];
      if (whole == [] && fraction == [])
        || (whole != [] && !IsDigits(whole))
        || (fraction != [] && !IsDigits(fraction))
      then None
      else
        var magnitude := DigitsValue(whole) as real + FractionValue(fraction);
        Some(if negative then -magnitude else magnitude)
  }

  /** A printed natural number parses back as the same number. */
  lemma ParseDoubleOfNat(n: nat)
    ensures ParseDouble(NatToString(n)) == Some(n as real)
  {
    var s := NatToString(n);
    TrimNoop(s);
    DigitsRoundTrip(n);
    assert Trim(s) == s;
    assert IsDigit(s[0]);
    assert '.' !in s by {
      forall i | 0 <= i < |s| ensures s[i] != '.' {
        assert IsDigit(s[i]);
      }
    }
    assert IndexOfChar(s, '.') == -1;
  }
}
