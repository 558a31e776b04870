/** How `std::getline` splits a text into lines, and `readNumlines`, which
    counts the successful `getline` calls on a source file. A file is given as
    its contents; `None` stands for a file that cannot be opened. */
module LineCount {
  import opened Basics

  /** One `getline` call on a non-empty remainder: the characters before the
      first newline, and what follows that newline. When there is no newline,
      the whole remainder is the line and nothing is left. */
  function NextLine(text: string): (r: (string, string))
    requires text != []
    ensures '\n' !in r.0
    ensures |r.1| < |text|
    ensures '\n' in text ==> text == r.0 + "\n" + r.1
    ensures '\n' !in text ==> text == r.0 && r.1 == []
  {
    if text[0] == '\n' then ([], text[1..])
    else if |text| == 1 then (text, [])
    else
      var (line, rest) := NextLine(text[1..]);
      assert text == [text[0]] + text[1..];
      ([text[0]] + line, rest)
  }

  /** The lines that successive `getline` calls return until the stream is
      exhausted. */
  function Lines(text: string): (ls: seq<string>)
    ensures forall k :: 0 <= k < |ls| ==> '\n' !in ls[k]
    ensures |ls| <= |text|
    decreases |text|
  {
    if text == [] then [] else [NextLine(text).0] + Lines(NextLine(text).1)
  }

  /** The number of newline characters in `text`. */
  function NewlineCount(text: string): nat
  {
    if text == [] then 0
    else (if text[0] == '\n' then 1 else 0) + NewlineCount(text[1..])
  }

  /** The text ends with characters that no newline terminates. */
  predicate HasTrailingLine(text: string)
  {
    text != [] && text[|text| - 1] != '\n'
  }

  /** What copying each line followed by a newline produces. */
  function Unlines(ls: seq<string>): string
  {
    if ls == [] then [] else ls[0] + "\n" + Unlines(ls[1..])
  }

  lemma {:induction false} NewlineCountAppend(a: string, b: string)
    ensures NewlineCount(a + b) == NewlineCount(a) + NewlineCount(b)
    decreases |a|
  {
    if a == [] {
      assert a + b == b;
    } else {
      assert (a + b)[1..] == a[1..] + b;
      NewlineCountAppend(a[1..], b);
    }
  }

  lemma {:induction false} NewlineCountNone(a: string)
    requires '\n' !in a
    ensures NewlineCount(a) == 0
    decreases |a|
  {
    if a != [] {
      assert a[0] != '\n';
      NewlineCountNone(a[1..]);
    }
  }

  /** A line without newlines, its newline, and the rest. */
  lemma NewlineCountSplit(line: string, rest: string)
    requires '\n' !in line
    ensures NewlineCount(line + "\n" + rest) == 1 + NewlineCount(rest)
  {
    var tail := "\n" + rest;
    assert line + "\n" + rest == line + tail;
    NewlineCountNone(line);
    NewlineCountAppend(line, tail);
    assert tail[0] == '\n' && tail[1..] == rest;
  }

  /** One `getline` step consumes the first newline, when there is one. */
  lemma NextLineNewlines(text: string)
    requires text != []
    ensures NewlineCount(text) == NewlineCount(NextLine(text).1) + (if '\n' in text then 1 else 0)
  {
    var (line, rest) := NextLine(text);
    if '\n' in text {
      NewlineCountSplit(line, rest);
    } else {
      NewlineCountNone(text);
    }
  }

  /** What follows the first newline ends the text. */
  lemma NextLineTrailing(text: string)
    requires text != []
    ensures HasTrailingLine(text) == (if '\n' in text then HasTrailingLine(NextLine(text).1) else true)
  {
    var (line, rest) := NextLine(text);
    if '\n' in text {
      if rest != [] {
        assert text == (line + "\n") + rest;
        assert text[|text| - 1] == rest[|rest| - 1];
      }
    } else {
      assert text[|text| - 1] in text;
    }
  }

  /** `getline` succeeds once per newline, and once more when characters
      follow the last newline. */
  lemma {:induction false} LinesCount(text: string)
    ensures |Lines(text)| == NewlineCount(text) + (if HasTrailingLine(text) then 1 else 0)
    decreases |text|
  {
    if text != [] {
      var rest := NextLine(text).1;
      LinesCount(rest);
      NextLineNewlines(text);
      NextLineTrailing(text);
      if '\n' !in text {
        assert Lines(rest) == [] && NewlineCount(rest) == 0;
      }
    }
  }

  /** Copying every line that `getline` returns, each followed by a newline,
      reproduces the text; only a missing final newline is added. No line is
      lost, repeated or reordered. */
  lemma {:induction false} LinesRoundTrip(text: string)
    ensures Unlines(Lines(text)) == text + (if HasTrailingLine(text) then "\n" else "")
    decreases |text|
  {
    if text != [] {
      var (line, rest) := NextLine(text);
      LinesRoundTrip(rest);
      if '\n' in text {
        if rest != [] {
          assert text[|text| - 1] == rest[|rest| - 1];
        }
        assert text + (if HasTrailingLine(text) then "\n" else "")
            == line + "\n" + (rest + (if HasTrailingLine(rest) then "\n" else ""));
      } else {
        assert Lines(rest) == [];
      }
    }
  }

  /** `readNumlines`: -1 when the file cannot be opened, otherwise the number
      of `getline` calls that succeed. */
  method ReadNumlines(file: Option<string>) returns (n: int)
    ensures file.None? ==> n == -1
    ensures file.Some? ==> n == |Lines(file.value)|
    ensures file.Some? ==> n == NewlineCount(file.value) + (if HasTrailingLine(file.value) then 1 else 0)
  {
    if file.None? {
      return -1;
    }
    var rest := file.value;
    n := 0;
    while rest != []
      invariant n + |Lines(rest)| == |Lines(file.value)|
      decreases |rest|
    {
      rest := NextLine(rest).1;
      n := n + 1;
    }
    LinesCount(file.value);
  }
}
