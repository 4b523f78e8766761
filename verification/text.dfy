/** Splitting and joining text on a one-character separator, as Python's
    `str.split(sep)`, `sep.join(parts)` and `str.splitlines()` do it.
    Strings are `seq<char>`; only `'\n'` is taken as a line boundary. */
module Text {

  /** `sep.join(parts)`: the parts with one separator between neighbours;
      the empty list joins to the empty string. */
  function Join(parts: seq<string>, sep: char): string
  {
    if |parts| == 0 then []
    else if |parts| == 1 then parts[0]
    else parts[0] + [sep] + Join(parts[1..], sep)
  }

  /** `s.split(sep)`: the maximal pieces between separators. Never empty:
      the empty string splits into one empty piece. */
  function Split(s: string, sep: char): (parts: seq<string>)
    ensures |parts| >= 1
    ensures forall i :: 0 <= i < |parts| ==> sep !in parts[i]
    ensures Join(parts, sep) == s
    ensures |s| > 0 && s[|s| - 1] == sep ==> parts[|parts| - 1] == []
    decreases |s|
  {
    if s == [] then [[]]
    else
      var rest := Split(s[1..], sep);
      if s[0] == sep then
        assert ([[]] + rest)[1..] == rest;
        [[]] + rest
      else
        var parts := [[s[0]] + rest[0]] + rest[1..];
        assert parts[1..] == rest[1..];
        assert |rest| > 1 ==> Join(rest, sep) == rest[0] + [sep] + Join(rest[1..], sep);
        assert s == [s[0]] + s[1..];
        parts
  }

  /** A character absent from the whole string is absent from every piece. */
  lemma {:induction false} SplitKeepsOut(s: string, sep: char, c: char)
    requires c !in s
    ensures forall i :: 0 <= i < |Split(s, sep)| ==> c !in Split(s, sep)[i]
    decreases |s|
  {
    if s != [] {
      assert s == [s[0]] + s[1..];
      SplitKeepsOut(s[1..], sep, c);
    }
  }

  /** Splitting a string whose first character is known, in terms of
      splitting the rest. */
  lemma {:induction false} SplitCons(c: char, t: string, sep: char)
    ensures Split([c] + t, sep) ==
      if c == sep then [[]] + Split(t, sep)
      else [[c] + Split(t, sep)[0]] + Split(t, sep)[1..]
  {
    assert ([c] + t)[1..] == t;
  }

  /** Joining separator-free parts and splitting again gives the parts back. */
  lemma {:induction false} SplitJoin(parts: seq<string>, sep: char)
    requires |parts| >= 1
    requires forall i :: 0 <= i < |parts| ==> sep !in parts[i]
    ensures Split(Join(parts, sep), sep) == parts
    decreases |parts|, |parts[0]|
  {
    if |parts| == 1 {
      SplitOfSepFree(parts[0], sep);
    } else if parts[0] == [] {
      var tail := Join(parts[1..], sep);
      assert Join(parts, sep) == [sep] + tail;
      SplitJoin(parts[1..], sep);
      SplitCons(sep, tail, sep);
      assert parts == [[]] + parts[1..];
    } else {
      var c := parts[0][0];
      var shorter := [parts[0][1..]] + parts[1..];
      assert shorter[1..] == parts[1..];
      var tail := Join(shorter, sep);
      assert tail == parts[0][1..] + [sep] + Join(parts[1..], sep);
      assert parts[0] == [c] + parts[0][1..];
      assert Join(parts, sep) == [c] + tail;
      assert c != sep by { assert c in parts[0]; }
      SplitJoin(shorter, sep);
      SplitCons(c, tail, sep);
      assert parts == [[c] + shorter[0]] + shorter[1..];
    }
  }

  /** A character that is neither the separator nor in any part is not in
      the joined string. */
  lemma {:induction false} JoinKeepsOut(parts: seq<string>, sep: char, c: char)
    requires c != sep
    requires forall i :: 0 <= i < |parts| ==> c !in parts[i]
    ensures c !in Join(parts, sep)
    decreases |parts|
  {
    if |parts| > 1 {
      JoinKeepsOut(parts[1..], sep, c);
    }
  }

  /** A string with no separator splits into itself alone. */
  lemma {:induction false} SplitOfSepFree(s: string, sep: char)
    requires sep !in s
    ensures Split(s, sep) == [s]
    decreases |s|
  {
    if s != [] {
      assert s == [s[0]] + s[1..];
      SplitOfSepFree(s[1..], sep);
    }
  }

  /** Joining a non-trivial list is joining all but the last part, then the
      separator and the last part. */
  lemma {:induction false} JoinSnoc(parts: seq<string>, sep: char)
    requires |parts| >= 2
    ensures Join(parts, sep) == Join(parts[..|parts| - 1], sep) + [sep] + parts[|parts| - 1]
    decreases |parts|
  {
    if |parts| > 2 {
      JoinSnoc(parts[1..], sep);
      assert parts[1..][..|parts| - 2] == parts[..|parts| - 1][1..];
    }
  }

  predicate EndsWithNewline(text: string)
  {
    |text| > 0 && text[|text| - 1] == '\n'
  }

  /** `text.splitlines()` restricted to `'\n'` boundaries: the empty text has
      no lines, any other text has at least one (`"\n"` is one empty line), and
      a final newline ends the last line rather than starting an empty one. */
  function SplitLines(text: string): (lines: seq<string>)
    ensures text == [] ==> lines == []
    ensures forall i :: 0 <= i < |lines| ==> '\n' !in lines[i]
    ensures text == Join(lines, '\n') + (if EndsWithNewline(text) then "\n" else "")
    ensures text != [] ==> |lines| >= 1
  {
    if text == [] then []
    else
      var parts := Split(text, '\n');
      if EndsWithNewline(text) then
        JoinSnoc(parts, '\n');
        parts[..|parts| - 1]
      else
        parts
  }
}
