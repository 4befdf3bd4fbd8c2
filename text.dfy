/** Python's `str.strip()`, `str.split(sep)`, `str.split(sep, maxsplit)` and the
    splitting of a file's text into lines, over `string`. */
module Text {

  /** The characters for which Python's `str.isspace()` holds; `str.strip()` removes them. */
  predicate IsSpace(c: char) {
    c == ' ' || ('\t' <= c <= '\r') || ('\U{1C}' <= c <= '\U{1F}') || c == '\U{85}' || c == '\U{A0}'
    || c == '\U{1680}' || ('\U{2000}' <= c <= '\U{200A}') || c == '\U{2028}' || c == '\U{2029}'
    || c == '\U{202F}' || c == '\U{205F}' || c == '\U{3000}'
  }

  /** A string that neither begins nor ends with white space. */
  predicate Trimmed(s: string) {
    s == [] || (!IsSpace(s[0]) && !IsSpace(s[|s| - 1]))
  }

  function TrimLeft(s: string): (r: string)
    ensures |r| <= |s| && r == s[|s| - |r|..]
    ensures r == [] || !IsSpace(r[0])
    ensures forall i :: 0 <= i < |s| - |r| ==> IsSpace(s[i])
  {
    if |s| > 0 && IsSpace(s[0]) then TrimLeft(s[1..]) else s
  }

  function TrimRight(s: string): (r: string)
    ensures |r| <= |s| && r == s[..|r|]
    ensures r == [] || !IsSpace(r[|r| - 1])
    ensures forall i :: |r| <= i < |s| ==> IsSpace(s[i])
  {
    if |s| > 0 && IsSpace(s[|s| - 1]) then TrimRight(s[..|s| - 1]) else s
  }

  /** `s.strip()`: `s` without the white space at either end. */
  function Strip(s: string): (r: string)
    ensures Trimmed(r)
    ensures r == s <==> Trimmed(s)
  {
    TrimRight(TrimLeft(s))
  }

  /** What `Strip` removes is white space, from the two ends only. */
  lemma StripInfix(s: string) returns (i: nat, j: nat)
    ensures i <= j <= |s| && Strip(s) == s[i..j]
    ensures forall k :: 0 <= k < i ==> IsSpace(s[k])
    ensures forall k :: j <= k < |s| ==> IsSpace(s[k])
  {
    var l := TrimLeft(s);
    i := |s| - |l|;
    j := i + |TrimRight(l)|;
    assert Strip(s) == s[i..j];
  }

  /** The inverse of `Split`: the pieces with `sep` between consecutive ones. */
  function Join(parts: seq<string>, sep: char): string {
    if |parts| == 0 then ""
    else if |parts| == 1 then parts[0]
    else parts[0] + [sep] + Join(parts[1..], sep)
  }

  /** `s.split(sep)`: the pieces of `s` between occurrences of `sep`, at least one. */
  function Split(s: string, sep: char): (parts: seq<string>)
    ensures |parts| >= 1
    ensures forall i :: 0 <= i < |parts| ==> sep !in parts[i]
    ensures Join(parts, sep) == s
  {
    if |s| == 0 then [""]
    else
      var rest := Split(s[1..], sep);
      if s[0] == sep then
        assert s == [sep] + s[1..];
        [""] + rest
      else
        var parts := [[s[0]] + rest[0]] + rest[1..];
        assert parts[1..] == rest[1..];
        assert s == [s[0]] + s[1..];
        parts
  }

  /** `s.split(sep, maxsplit)`: like `Split`, but dividing at no more than the first
      `maxsplit` separators, so that the last piece keeps any later ones. */
  function SplitMax(s: string, sep: char, maxsplit: nat): (parts: seq<string>)
    ensures 1 <= |parts| <= maxsplit + 1
    ensures forall i :: 0 <= i < |parts| - 1 ==> sep !in parts[i]
    ensures |parts| <= maxsplit ==> sep !in parts[|parts| - 1]
    ensures Join(parts, sep) == s
  {
    if maxsplit == 0 then [s]
    else if |s| == 0 then [""]
    else
      if s[0] == sep then
        var rest := SplitMax(s[1..], sep, maxsplit - 1);
        assert s == [sep] + s[1..];
        [""] + rest
      else
        var rest := SplitMax(s[1..], sep, maxsplit);
        var parts := [[s[0]] + rest[0]] + rest[1..];
        assert parts[1..] == rest[1..];
        assert s == [s[0]] + s[1..];
        parts
  }

  predicate EndsWithBreak(text: string) {
    |text| > 0 && text[|text| - 1] == '\n'
  }

  /** The lines Python reads from a file holding `text`: the pieces between line breaks,
      without a trailing empty piece after a final line break. Only `'\n'` ends a line. */
  function TextLines(text: string): (lines: seq<string>)
    ensures forall i :: 0 <= i < |lines| ==> '\n' !in lines[i]
    ensures lines == [] <==> text == ""
    ensures Join(lines, '\n') + (if EndsWithBreak(text) then "\n" else "") == text
  {
    var pieces := Split(text, '\n');
    var n := |pieces|;
    if pieces[n - 1] == "" then
      if n == 1 then []
      else
        assert pieces == pieces[..n - 1] + [""];
        JoinSnoc(pieces[..n - 1], "", '\n');
        pieces[..n - 1]
    else
      JoinEnds(pieces, '\n');
      pieces
  }

  lemma {:induction false} JoinSnoc(parts: seq<string>, x: string, sep: char)
    requires |parts| >= 1
    ensures Join(parts + [x], sep) == Join(parts, sep) + [sep] + x
  {
    if |parts| > 1 {
      assert (parts + [x])[1..] == parts[1..] + [x];
      JoinSnoc(parts[1..], x, sep);
    } else {
      assert parts + [x] == [parts[0], x];
      assert [parts[0], x][1..] == [x];
    }
  }

  lemma {:induction false} SplitNoSep(s: string, sep: char)
    requires sep !in s
    ensures Split(s, sep) == [s]
  {
    if |s| > 0 {
      SplitNoSep(s[1..], sep);
      assert s == [s[0]] + s[1..];
    }
  }

  /** Splitting at a separator between two texts splits each text on its own. */
  lemma {:induction false} SplitAround(a: string, sep: char, b: string)
    ensures Split(a + [sep] + b, sep) == Split(a, sep) + Split(b, sep)
  {
    var s := a + [sep] + b;
    if |a| == 0 {
      assert s == [sep] + b;
      assert s[1..] == b;
    } else {
      assert s[1..] == a[1..] + [sep] + b;
      SplitAround(a[1..], sep, b);
    }
  }

  /** Joining pieces free of the separator and splitting again gives the pieces back. */
  lemma {:induction false} SplitJoin(parts: seq<string>, sep: char)
    requires |parts| >= 1
    requires forall i :: 0 <= i < |parts| ==> sep !in parts[i]
    ensures Split(Join(parts, sep), sep) == parts
  {
    if |parts| == 1 {
      SplitNoSep(parts[0], sep);
    } else {
      SplitJoin(parts[1..], sep);
      SplitAround(parts[0], sep, Join(parts[1..], sep));
      SplitNoSep(parts[0], sep);
      assert parts == [parts[0]] + parts[1..];
    }
  }

  /** Splitting with a limit after a first piece free of the separator uses one split on it. */
  lemma {:induction false} SplitMaxAround(a: string, sep: char, b: string, maxsplit: nat)
    requires sep !in a
    ensures SplitMax(a + [sep] + b, sep, maxsplit + 1) == [a] + SplitMax(b, sep, maxsplit)
  {
    var s := a + [sep] + b;
    if |a| == 0 {
      assert s == [sep] + b;
      assert s[1..] == b;
    } else {
      assert s[0] == a[0] != sep;
      assert s[1..] == a[1..] + [sep] + b;
      SplitMaxAround(a[1..], sep, b, maxsplit);
      var rest := SplitMax(s[1..], sep, maxsplit + 1);
      assert rest[0] == a[1..] && rest[1..] == SplitMax(b, sep, maxsplit);
      assert [a[0]] + rest[0] == a;
    }
  }

  /** A single line written with its line break is read back as exactly that line. */
  lemma TextLinesOfLine(line: string)
    requires '\n' !in line
    ensures TextLines(line + "\n") == [line]
  {
    SplitAround(line, '\n', "");
    SplitNoSep(line, '\n');
    assert line + "\n" == line + ['\n'] + "";
  }

  /** A character that no piece contains, and that is not the separator, is not in the join. */
  lemma {:induction false} JoinFree(parts: seq<string>, sep: char, c: char)
    requires c != sep
    requires forall i :: 0 <= i < |parts| ==> c !in parts[i]
    ensures c !in Join(parts, sep)
  {
    if |parts| > 1 {
      JoinFree(parts[1..], sep, c);
    }
  }

  /** The first character of a join comes from the first piece, or is the separator when
      that piece is empty; likewise the last character and the last piece. */
  lemma {:induction false} JoinEnds(parts: seq<string>, sep: char)
    requires |parts| >= 1
    ensures var j := Join(parts, sep);
            |j| > 0 ==> j[0] == (if parts[0] != "" then parts[0][0] else sep)
    ensures var j := Join(parts, sep); var last := parts[|parts| - 1];
            |j| > 0 ==> j[|j| - 1] == (if last != "" then last[|last| - 1] else sep)
  {
    if |parts| > 1 {
      JoinEnds(parts[1..], sep);
      var rest := Join(parts[1..], sep);
      assert Join(parts, sep) == parts[0] + [sep] + rest;
      if rest == "" {
        assert parts[1..][|parts[1..]| - 1] == parts[|parts| - 1];
      }
    }
  }

  lemma Join3(a: string, b: string, c: string, sep: char)
    ensures Join([a, b, c], sep) == a + [sep] + (b + [sep] + c)
  {
    var parts := [a, b, c];
    assert parts[1..] == [b, c];
    assert parts[1..][1..] == [c];
    assert Join([b, c], sep) == b + [sep] + c;
  }
}
