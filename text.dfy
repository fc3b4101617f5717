/** The Python string built-ins the translation driver relies on: `str.split()`
    word counting, `str.strip()`, finding a character, `str.splitlines()` and
    `str.join`. Whitespace is the ASCII part of Python's `str.isspace()`, and
    only '\n' ends a line. */
module Text {
  import opened Wrappers

  /** HT, LF, VT, FF, CR, the separators 0x1C to 0x1F, and space. */
  predicate IsSpace(c: char) {
    ('\t' <= c <= '\r') || ('\U{1C}' <= c <= '\U{1F}') || c == ' '
  }

  predicate AllSpace(s: string) {
    forall k :: 0 <= k < |s| ==> IsSpace(s[k])
  }

  // ---------------------------------------------------------------------------
  // Words
  // ---------------------------------------------------------------------------

  /** Position `i` of `s` starts a word: a non-space character at the start
      or just after a space. */
  predicate StartsWord(s: string, i: nat)
    requires i < |s|
  {
    !IsSpace(s[i]) && (i == 0 || IsSpace(s[i - 1]))
  }

  /** `len(s.split())`: the number of maximal runs of non-space characters,
      counted at the character that starts each one. */
  function WordCount(s: string): nat
    decreases |s|
  {
    if s == [] then 0 else WordCount(s[..|s| - 1]) + (if StartsWord(s, |s| - 1) then 1 else 0)
  }

  /** `x` ends and `y` starts inside one word, which `x + y` counts once. */
  predicate Glued(x: string, y: string) {
    x != [] && y != [] && !IsSpace(x[|x| - 1]) && !IsSpace(y[0])
  }

  lemma {:induction false} WordCountConcat(x: string, y: string)
    ensures WordCount(x + y) + (if Glued(x, y) then 1 else 0) == WordCount(x) + WordCount(y)
    decreases |y|
  {
    if y == [] {
      assert x + y == x;
    } else {
      var y' := y[..|y| - 1];
      var xy := x + y;
      assert xy[..|xy| - 1] == x + y';
      assert y[..|y| - 1] == y';
      WordCountConcat(x, y');
      if y' != [] {
        assert xy[|xy| - 2] == y[|y| - 2];
        assert y'[0] == y[0];
      } else {
        assert x + y' == x;
        assert xy[|xy| - 1] == y[0];
        assert x != [] ==> xy[|xy| - 2] == x[|x| - 1];
      }
    }
  }

  lemma {:induction false} AllSpaceHasNoWords(s: string)
    requires AllSpace(s)
    ensures WordCount(s) == 0
    decreases |s|
  {
    if s != [] {
      AllSpaceHasNoWords(s[..|s| - 1]);
    }
  }

  /** Joining two texts with one space adds their word counts (the
      continuation-line rule of the response parser relies on this). */
  lemma WordCountJoin(a: string, b: string)
    ensures WordCount(a + " " + b) == WordCount(a) + WordCount(b)
  {
    WordCountConcat(a, " ");
    AllSpaceHasNoWords(" ");
    WordCountConcat(a + " ", b);
  }

  // ---------------------------------------------------------------------------
  // Stripping
  // ---------------------------------------------------------------------------

  /** `s.lstrip()`. */
  function TrimLeft(s: string): string
    decreases |s|
  {
    if s != [] && IsSpace(s[0]) then TrimLeft(s[1..]) else s
  }

  /** `s.rstrip()`. */
  function TrimRight(s: string): string
    decreases |s|
  {
    if s != [] && IsSpace(s[|s| - 1]) then TrimRight(s[..|s| - 1]) else s
  }

  /** `s.lstrip()` is the suffix of `s` left once its leading whitespace is
      removed: what it drops is whitespace, and it starts with none. */
  lemma {:induction false} TrimLeftDropsSpace(s: string)
    ensures var r := TrimLeft(s);
      |r| <= |s| && r == s[|s| - |r|..] && AllSpace(s[..|s| - |r|]) && (r == [] || !IsSpace(r[0]))
    decreases |s|
  {
    if s != [] && IsSpace(s[0]) {
      TrimLeftDropsSpace(s[1..]);
      var r := TrimLeft(s[1..]);
      assert s[..|s| - |r|] == [s[0]] + s[1..][..|s[1..]| - |r|];
    }
  }

  /** `s.rstrip()` is the prefix of `s` left once its trailing whitespace is
      removed: what it drops is whitespace, and it ends with none. */
  lemma {:induction false} TrimRightDropsSpace(s: string)
    ensures var r := TrimRight(s);
      |r| <= |s| && r == s[..|r|] && AllSpace(s[|r|..]) && (r == [] || !IsSpace(r[|r| - 1]))
    decreases |s|
  {
    if s != [] && IsSpace(s[|s| - 1]) {
      TrimRightDropsSpace(s[..|s| - 1]);
      var r := TrimRight(s[..|s| - 1]);
      assert s[|r|..] == s[..|s| - 1][|r|..] + [s[|s| - 1]];
    }
  }

  /** `s.strip()`. */
  function Strip(s: string): string {
    TrimRight(TrimLeft(s))
  }

  /** Stripping removes no word and leaves no whitespace at either end. */
  lemma StripKeepsWords(s: string)
    ensures WordCount(Strip(s)) == WordCount(s)
    ensures Strip(s) == [] || (!IsSpace(Strip(s)[0]) && !IsSpace(Strip(s)[|Strip(s)| - 1]))
  {
    TrimLeftDropsSpace(s);
    var l := TrimLeft(s);
    TrimRightDropsSpace(l);
    var m := |s| - |l|;
    assert s == s[..m] + l;
    WordCountConcat(s[..m], l);
    AllSpaceHasNoWords(s[..m]);
    var r := TrimRight(l);
    assert l == r + l[|r|..];
    WordCountConcat(r, l[|r|..]);
    AllSpaceHasNoWords(l[|r|..]);
  }

  // ---------------------------------------------------------------------------
  // Searching, lines and joining
  // ---------------------------------------------------------------------------

  /** `s.find(c)`: the first position of `c` in `s`, if any. */
  function IndexOf(s: string, c: char): (r: Option<nat>)
    ensures r.None? <==> c !in s
    ensures r.Some? ==> r.value < |s| && s[r.value] == c && c !in s[..r.value]
    decreases |s|
  {
    if s == [] then None
    else if s[0] == c then Some(0)
    else match IndexOf(s[1..], c)
      case None => None
      case Some(i) =>
        assert s[..i + 1] == [s[0]] + s[1..][..i];
        Some(i + 1)
  }

  /** `s.splitlines()` for '\n' line breaks: the pieces between breaks, where a
      break at the very end does not start an empty last line. */
  function SplitLines(s: string): (lines: seq<string>)
    ensures forall i :: 0 <= i < |lines| ==> '\n' !in lines[i]
    ensures lines == [] <==> s == []
    decreases |s|
  {
    if s == [] then []
    else match IndexOf(s, '\n')
      case None => [s]
      case Some(k) => [s[..k]] + SplitLines(s[k + 1..])
  }

  /** `sep.join(parts)`. */
  function Join(parts: seq<string>, sep: string): string
    decreases |parts|
  {
    if parts == [] then []
    else if |parts| == 1 then parts[0]
    else parts[0] + sep + Join(parts[1..], sep)
  }

  lemma JoinCons(x: string, rest: seq<string>, sep: string)
    requires rest != []
    ensures Join([x] + rest, sep) == x + sep + Join(rest, sep)
  {
    assert ([x] + rest)[1..] == rest;
  }

  /** A text with a line break splits at its first one. */
  lemma SplitAtBreak(s: string, k: nat)
    requires IndexOf(s, '\n') == Some(k)
    ensures SplitLines(s) == [s[..k]] + SplitLines(s[k + 1..])
    ensures s == s[..k] + "\n" + s[k + 1..]
  {
  }

  /** Putting a line in front of a rejoined text, with a break. */
  lemma RejoinCons(head: string, rest: string, lines: seq<string>)
    requires lines != []
    requires rest == Join(lines, "\n") || rest == Join(lines, "\n") + "\n"
    ensures var s := head + "\n" + rest;
      s == Join([head] + lines, "\n") || s == Join([head] + lines, "\n") + "\n"
  {
    JoinCons(head, lines, "\n");
    var tail := Join(lines, "\n");
    if rest != tail {
      assert head + "\n" + rest == (head + "\n" + tail) + "\n";
    }
  }

  /** Splitting loses nothing: the text is its lines joined by '\n', with at
      most one more '\n' at the end. */
  lemma {:induction false} SplitLinesRejoin(s: string)
    ensures s == Join(SplitLines(s), "\n") || s == Join(SplitLines(s), "\n") + "\n"
    decreases |s|
  {
    var idx := IndexOf(s, '\n');
    if s != [] && idx.Some? {
      var k := idx.value;
      var rest := s[k + 1..];
      SplitAtBreak(s, k);
      if rest == [] {
        assert SplitLines(s) == [s[..k]];
      } else {
        SplitLinesRejoin(rest);
        RejoinCons(s[..k], rest, SplitLines(rest));
      }
    } else if s != [] {
      assert SplitLines(s) == [s];
    }
  }

  /** Joining lines with '\n' and splitting again gives the lines back, when no
      line contains a break and the last one is not empty. */
  lemma {:induction false} JoinThenSplit(lines: seq<string>)
    requires forall i :: 0 <= i < |lines| ==> '\n' !in lines[i]
    requires lines != [] ==> lines[|lines| - 1] != []
    ensures SplitLines(Join(lines, "\n")) == lines
    decreases |lines|
  {
    if |lines| == 1 {
      assert IndexOf(lines[0], '\n').None?;
    } else if |lines| > 1 {
      var s := Join(lines, "\n");
      var tail := Join(lines[1..], "\n");
      assert s == lines[0] + ("\n" + tail);
      assert s[..|lines[0]|] == lines[0];
      assert '\n' !in s[..|lines[0]|];
      assert s[|lines[0]|] == '\n';
      assert IndexOf(s, '\n') == Some(|lines[0]|);
      assert s[|lines[0]| + 1..] == tail;
      JoinThenSplit(lines[1..]);
    }
  }
}
