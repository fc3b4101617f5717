/** The chunked, checkpointed translation driver: turns are grouped into
    word-limited chunks, each chunk is rendered as a dialogue and handed to an
    external generator, the reply is parsed back into turns, and after every
    chunk a checkpoint is written so that a failed job can be resumed. */
module Translate {
  import opened Wrappers
  import opened Text
  import opened Seqs

  datatype Turn = Turn(speaker: string, text: string)

  /** `CHUNK_SIZE_WORDS`. */
  const ChunkSizeWords: int := 300

  /** The words of the first `n` turns' texts. */
  function SumWords(turns: seq<Turn>, n: nat): nat
    requires n <= |turns|
    decreases n
  {
    if n == 0 then 0 else SumWords(turns, n - 1) + WordCount(turns[n - 1].text)
  }

  /** The words of all the turns' texts: `sum(len(text.split()) for _, text in turns)`. */
  function TotalWords(turns: seq<Turn>): nat {
    SumWords(turns, |turns|)
  }

  /** The first `n` words counts depend only on the first `n` turns. */
  lemma {:induction false} SumWordsAgree(a: seq<Turn>, b: seq<Turn>, n: nat)
    requires n <= |a| && n <= |b|
    requires forall i :: 0 <= i < n ==> a[i] == b[i]
    ensures SumWords(a, n) == SumWords(b, n)
    decreases n
  {
    if n > 0 {
      SumWordsAgree(a, b, n - 1);
    }
  }

  lemma TotalWordsSnoc(turns: seq<Turn>, t: Turn)
    ensures TotalWords(turns + [t]) == TotalWords(turns) + WordCount(t.text)
  {
    SumWordsAgree(turns + [t], turns, |turns|);
  }

  // ===========================================================================
  // Chunking (`chunk_turns`)
  // ===========================================================================

  /** The chunks' turns, one chunk after the other. */
  function Flatten(chunks: seq<seq<Turn>>): seq<Turn>
    decreases |chunks|
  {
    if chunks == [] then [] else Flatten(chunks[..|chunks| - 1]) + chunks[|chunks| - 1]
  }

  lemma FlattenSnoc(chunks: seq<seq<Turn>>, c: seq<Turn>)
    ensures Flatten(chunks + [c]) == Flatten(chunks) + c
  {
    DropLast(chunks, c);
  }

  /** The first chunk comes first. */
  lemma {:induction false} FlattenCons(chunks: seq<seq<Turn>>)
    requires chunks != []
    ensures Flatten(chunks) == chunks[0] + Flatten(chunks[1..])
    decreases |chunks|
  {
    if |chunks| > 1 {
      var init := chunks[..|chunks| - 1];
      FlattenCons(init);
      assert init[1..] == chunks[1..][..|chunks| - 2];
      assert chunks[1..][|chunks| - 2] == chunks[|chunks| - 1];
    } else {
      assert chunks[1..] == [];
    }
  }

  /** What `chunk_turns` promises: the chunks are the turns in order, none is
      empty, each one but the last reaches `maxWords`, and no chunk holds a
      shorter prefix that already reaches it, so a chunk ends at the first
      turn where its running word count reaches `maxWords`. */
  predicate IsChunking(turns: seq<Turn>, maxWords: int, chunks: seq<seq<Turn>>) {
    && Flatten(chunks) == turns
    && (forall j :: 0 <= j < |chunks| ==> chunks[j] != [])
    && (forall j :: 0 <= j < |chunks| - 1 ==> TotalWords(chunks[j]) >= maxWords)
    && (forall j :: 0 <= j < |chunks| ==> PrefixesBelow(chunks[j], maxWords))
  }

  /** The first `k` turns of `chunk` stay below `maxWords`. */
  predicate PrefixBelow(chunk: seq<Turn>, k: nat, maxWords: int)
    requires k <= |chunk|
  {
    SumWords(chunk, k) < maxWords
  }

  /** No proper prefix of `chunk` reaches `maxWords`. */
  predicate PrefixesBelow(chunk: seq<Turn>, maxWords: int) {
    forall k :: 0 < k < |chunk| ==> PrefixBelow(chunk, k, maxWords)
  }

  /** A chunk `chunk_turns` has closed: non-empty, reaching `maxWords`, and
      with no proper prefix that reaches it. */
  predicate Full(chunk: seq<Turn>, maxWords: int) {
    chunk != [] && TotalWords(chunk) >= maxWords && PrefixesBelow(chunk, maxWords)
  }

  /** The chunks `chunk_turns` has closed so far, all of them full. */
  predicate Closed(chunks: seq<seq<Turn>>, maxWords: int)
    decreases |chunks|
  {
    chunks == [] || (Closed(chunks[..|chunks| - 1], maxWords) && Full(chunks[|chunks| - 1], maxWords))
  }

  lemma {:induction false} ClosedEach(chunks: seq<seq<Turn>>, maxWords: int)
    requires Closed(chunks, maxWords)
    ensures forall j :: 0 <= j < |chunks| ==> Full(chunks[j], maxWords)
    decreases |chunks|
  {
    if chunks != [] {
      var p := chunks[..|chunks| - 1];
      ClosedEach(p, maxWords);
      forall j | 0 <= j < |chunks|
        ensures Full(chunks[j], maxWords)
      {
        if j < |p| {
          assert chunks[j] == p[j];
        }
      }
    }
  }

  lemma ClosedIsChunking(turns: seq<Turn>, maxWords: int, chunks: seq<seq<Turn>>, last: seq<Turn>)
    requires Closed(chunks, maxWords) && Flatten(chunks) + last == turns
    requires PrefixesBelow(last, maxWords)
    ensures IsChunking(turns, maxWords, if last == [] then chunks else chunks + [last])
  {
    ClosedEach(chunks, maxWords);
    FlattenSnoc(chunks, last);
    if last == [] {
      assert Flatten(chunks) == turns;
    } else {
      var all := chunks + [last];
      forall j | 0 <= j < |all|
        ensures all[j] != [] && PrefixesBelow(all[j], maxWords)
      {
        if j < |chunks| {
          assert all[j] == chunks[j];
        }
      }
    }
  }

  /** Adding a turn to an open chunk whose every prefix is below the limit. */
  lemma GrowOpen(current: seq<Turn>, turn: Turn, maxWords: int)
    requires PrefixesBelow(current, maxWords)
    requires current != [] ==> TotalWords(current) < maxWords
    ensures PrefixesBelow(current + [turn], maxWords)
    ensures TotalWords(current + [turn]) == TotalWords(current) + WordCount(turn.text)
  {
    var c := current + [turn];
    TotalWordsSnoc(current, turn);
    forall k | 0 < k < |c|
      ensures PrefixBelow(c, k, maxWords)
    {
      SumWordsAgree(c, current, k);
      if k < |current| {
        assert PrefixBelow(current, k, maxWords);
      }
    }
  }

  lemma CloseChunk(chunks: seq<seq<Turn>>, c: seq<Turn>, maxWords: int)
    requires Closed(chunks, maxWords) && PrefixesBelow(c, maxWords)
    requires c != [] && TotalWords(c) >= maxWords
    ensures Closed(chunks + [c], maxWords)
  {
    var all := chunks + [c];
    assert all[..|all| - 1] == chunks;
  }

  /** One turn of `chunk_turns`: it joins the open chunk, which is closed when
      its running word count reaches `maxWords`. */
  lemma ChunkStep(turns: seq<Turn>, i: nat, chunks: seq<seq<Turn>>, current: seq<Turn>, maxWords: int)
    requires i < |turns| && Flatten(chunks) + current == turns[..i]
    requires Closed(chunks, maxWords) && PrefixesBelow(current, maxWords)
    requires current != [] ==> TotalWords(current) < maxWords
    ensures var c := current + [turns[i]];
      && Flatten(chunks) + c == turns[..i + 1]
      && PrefixesBelow(c, maxWords)
      && TotalWords(c) == TotalWords(current) + WordCount(turns[i].text)
      && (TotalWords(c) >= maxWords ==> Flatten(chunks + [c]) + [] == turns[..i + 1] && Closed(chunks + [c], maxWords))
  {
    var c := current + [turns[i]];
    GrowOpen(current, turns[i], maxWords);
    TakeSnoc(turns, i);
    if TotalWords(c) >= maxWords {
      FlattenSnoc(chunks, c);
      CloseChunk(chunks, c, maxWords);
    }
  }

  method ChunkTurns(turns: seq<Turn>, maxWords: int) returns (chunks: seq<seq<Turn>>)
    ensures IsChunking(turns, maxWords, chunks)
  {
    chunks := [];
    var current: seq<Turn> := [];
    var currentLen := 0;
    var i := 0;
    while i < |turns|
      invariant 0 <= i <= |turns|
      invariant Flatten(chunks) + current == turns[..i]
      invariant Closed(chunks, maxWords)
      invariant PrefixesBelow(current, maxWords)
      invariant current != [] ==> TotalWords(current) < maxWords
      invariant currentLen == TotalWords(current)
    {
      var turn := turns[i];
      var words := WordCount(turn.text);
      ChunkStep(turns, i, chunks, current, maxWords);
      current := current + [turn];
      currentLen := currentLen + words;
      if currentLen >= maxWords {
        chunks := chunks + [current];
        current, currentLen := [], 0;
      }
      i := i + 1;
    }
    assert turns[..i] == turns;
    ClosedIsChunking(turns, maxWords, chunks, current);
    if current != [] {
      chunks := chunks + [current];
    }
  }

  /** The length of the first chunk: the first `k` from `from` on at which the
      first `k` turns reach `maxWords`, or all of them. */
  function FirstCut(turns: seq<Turn>, maxWords: int, from: nat): (cut: nat)
    requires 1 <= from <= |turns|
    ensures from <= cut <= |turns|
    decreases |turns| - from
  {
    if from == |turns| || SumWords(turns, from) >= maxWords then from
    else FirstCut(turns, maxWords, from + 1)
  }

  lemma {:induction false} FirstCutIs(turns: seq<Turn>, maxWords: int, from: nat, cut: nat)
    requires 1 <= from <= cut <= |turns|
    requires forall k :: from <= k < cut ==> SumWords(turns, k) < maxWords
    requires cut == |turns| || SumWords(turns, cut) >= maxWords
    ensures FirstCut(turns, maxWords, from) == cut
    decreases cut - from
  {
    if from < cut {
      FirstCutIs(turns, maxWords, from + 1, cut);
    }
  }

  lemma FirstChunkLength(turns: seq<Turn>, maxWords: int, chunks: seq<seq<Turn>>)
    requires IsChunking(turns, maxWords, chunks) && chunks != []
    ensures |turns| >= 1 && |chunks[0]| == FirstCut(turns, maxWords, 1)
    ensures chunks[0] == turns[..|chunks[0]|]
  {
    var c := chunks[0];
    FlattenCons(chunks);
    assert turns == c + Flatten(chunks[1..]);
    assert c != [];
    forall k | 1 <= k <= |c|
      ensures SumWords(turns, k) == SumWords(c, k)
      ensures k < |c| ==> SumWords(turns, k) < maxWords
    {
      SumWordsAgree(turns, c, k);
      if k < |c| {
        assert PrefixBelow(c, k, maxWords);
      }
    }
    assert turns[..|c|] == c;
    if |chunks| == 1 {
      assert Flatten(chunks[1..]) == [];
    }
    FirstCutIs(turns, maxWords, 1, |c|);
  }

  lemma {:induction false} FlattenLength(chunks: seq<seq<Turn>>)
    requires forall j :: 0 <= j < |chunks| ==> chunks[j] != []
    ensures |Flatten(chunks)| >= |chunks|
    decreases |chunks|
  {
    if chunks != [] {
      var init := chunks[..|chunks| - 1];
      assert forall j :: 0 <= j < |init| ==> init[j] == chunks[j];
      FlattenLength(init);
    }
  }

  /** The chunks after the first are a chunking of the turns after it. */
  lemma ChunkingTail(turns: seq<Turn>, maxWords: int, chunks: seq<seq<Turn>>)
    requires IsChunking(turns, maxWords, chunks) && chunks != []
    ensures |chunks[0]| <= |turns| && IsChunking(turns[|chunks[0]|..], maxWords, chunks[1..])
  {
    FlattenCons(chunks);
    var tail := chunks[1..];
    forall j | 0 <= j < |tail|
      ensures tail[j] == chunks[j + 1]
    {
    }
  }

  /** The chunking is determined by the turns and the limit: whatever meets
      `IsChunking` is what `chunk_turns` returns. */
  lemma {:induction false} ChunkingUnique(turns: seq<Turn>, maxWords: int, a: seq<seq<Turn>>, b: seq<seq<Turn>>)
    requires IsChunking(turns, maxWords, a) && IsChunking(turns, maxWords, b)
    ensures a == b
    decreases |turns|
  {
    if turns == [] {
      FlattenLength(a);
      FlattenLength(b);
    } else {
      assert a != [] && b != [];
      FirstChunkLength(turns, maxWords, a);
      FirstChunkLength(turns, maxWords, b);
      var rest := turns[|a[0]|..];
      ChunkingTail(turns, maxWords, a);
      ChunkingTail(turns, maxWords, b);
      ChunkingUnique(rest, maxWords, a[1..], b[1..]);
      assert a == [a[0]] + a[1..] && b == [b[0]] + b[1..];
    }
  }

  /** No turns, no chunks. */
  lemma EmptyHasNoChunks(maxWords: int, chunks: seq<seq<Turn>>)
    requires IsChunking([], maxWords, chunks)
    ensures chunks == []
  {
    FlattenLength(chunks);
  }

  /** A first turn below the limit followed by one that lifts the total to the
      limit form a single chunk; so turns of 150 and 200 words form one chunk
      at 300. */
  lemma TwoTurnsOneChunk(t1: Turn, t2: Turn, maxWords: int)
    requires WordCount(t1.text) < maxWords <= WordCount(t1.text) + WordCount(t2.text)
    ensures IsChunking([t1, t2], maxWords, [[t1, t2]])
    ensures forall chunks :: IsChunking([t1, t2], maxWords, chunks) ==> chunks == [[t1, t2]]
  {
    var ts := [t1, t2];
    assert SumWords(ts, 1) == WordCount(t1.text);
    assert TotalWords(ts) == SumWords(ts, 1) + WordCount(t2.text);
    var single: seq<seq<Turn>> := [ts];
    assert single[..0] == [];
    assert Flatten(single) == ts;
    forall chunks | IsChunking(ts, maxWords, chunks)
      ensures chunks == [ts]
    {
      ChunkingUnique(ts, maxWords, chunks, [ts]);
    }
  }

  // ===========================================================================
  // Rendering a chunk as dialogue
  // ===========================================================================

  /** `f"{sp}: {txt}"`. */
  function RenderTurn(t: Turn): string {
    t.speaker + ": " + t.text
  }

  /** The rendered turns of a chunk, one line each. */
  function RenderLines(chunk: seq<Turn>): seq<string> {
    seq(|chunk|, i requires 0 <= i < |chunk| => RenderTurn(chunk[i]))
  }

  /** `"\n".join(...)` of the rendered turns, written out turn by turn. */
  function Dialogue(chunk: seq<Turn>): string
    decreases |chunk|
  {
    if chunk == [] then ""
    else if |chunk| == 1 then RenderTurn(chunk[0])
    else RenderTurn(chunk[0]) + "\n" + Dialogue(chunk[1..])
  }

  /** The dialogue is the rendered lines joined by line breaks. */
  lemma {:induction false} DialogueJoin(chunk: seq<Turn>)
    ensures Dialogue(chunk) == Join(RenderLines(chunk), "\n")
    decreases |chunk|
  {
    if |chunk| > 1 {
      DialogueJoin(chunk[1..]);
      assert RenderLines(chunk)[1..] == RenderLines(chunk[1..]);
    }
  }

  /** A rendered turn holds no line break when its speaker and text hold none. */
  lemma RenderTurnOneLine(t: Turn)
    requires '\n' !in t.speaker && '\n' !in t.text
    ensures '\n' !in RenderTurn(t) && RenderTurn(t) != []
  {
    var line := RenderTurn(t);
    assert line[|t.speaker|] == ':';
    forall k | 0 <= k < |line|
      ensures line[k] != '\n'
    {
      if k < |t.speaker| {
        assert line[k] == t.speaker[k];
      } else if k >= |t.speaker| + 2 {
        assert line[k] == t.text[k - |t.speaker| - 2];
      }
    }
  }

  /** The dialogue holds one line per turn, in order, when no speaker or text
      contains a line break: splitting it gives the rendered turns back. */
  lemma DialogueLines(chunk: seq<Turn>)
    requires forall i :: 0 <= i < |chunk| ==> '\n' !in chunk[i].speaker && '\n' !in chunk[i].text
    ensures SplitLines(Dialogue(chunk)) == RenderLines(chunk)
  {
    var lines := RenderLines(chunk);
    forall i | 0 <= i < |lines|
      ensures '\n' !in lines[i] && lines[i] != []
    {
      RenderTurnOneLine(chunk[i]);
    }
    DialogueJoin(chunk);
    JoinThenSplit(lines);
  }

  // ===========================================================================
  // Parsing the generator's reply
  // ===========================================================================

  /** Line `i` is skipped by the repetition guard exactly when it and the three
      lines before it are identical, so in a run of identical lines only the
      first three are processed. */
  predicate Skipped(lines: seq<string>, i: nat)
    requires i < |lines|
  {
    i >= 3 && lines[i] == lines[i - 1] && lines[i - 1] == lines[i - 2] && lines[i - 2] == lines[i - 3]
  }

  /** The lines the guard lets through, in order. */
  function Kept(lines: seq<string>): seq<string>
    decreases |lines|
  {
    if lines == [] then []
    else Kept(lines[..|lines| - 1]) + (if Skipped(lines, |lines| - 1) then [] else [lines[|lines| - 1]])
  }

  /** The length of the run of identical lines that `lines` ends with. */
  function RunLength(lines: seq<string>): nat
    decreases |lines|
  {
    if lines == [] then 0
    else if |lines| >= 2 && lines[|lines| - 1] == lines[|lines| - 2] then RunLength(lines[..|lines| - 1]) + 1
    else 1
  }

  /** A run of at least four is what `Skipped` detects. */
  lemma RunLengthSkipped(lines: seq<string>)
    requires lines != []
    ensures RunLength(lines) >= 4 <==> Skipped(lines, |lines| - 1)
  {
    var n := |lines|;
    if n >= 2 && lines[n - 1] == lines[n - 2] {
      var p := lines[..n - 1];
      assert p[n - 2] == lines[n - 2];
      assert RunLength(lines) == RunLength(p) + 1;
      if n >= 3 && p[n - 2] == p[n - 3] {
        var q := p[..n - 2];
        assert q[n - 3] == lines[n - 3];
        assert p[n - 3] == lines[n - 3];
        assert RunLength(p) == RunLength(q) + 1;
        if n >= 4 && q[n - 3] == q[n - 4] {
          var r := q[..n - 3];
          assert q[n - 4] == lines[n - 4];
          assert RunLength(q) == RunLength(r) + 1;
          assert RunLength(r) >= 1;
          assert Skipped(lines, n - 1);
        } else {
          assert RunLength(q) == 1;
        }
      } else {
        assert RunLength(p) == 1;
      }
    }
  }

  /** Without four identical lines in a row the guard skips nothing. */
  lemma {:induction false} KeptIdentity(lines: seq<string>)
    requires forall i :: 3 <= i < |lines| ==> !Skipped(lines, i)
    ensures Kept(lines) == lines
    decreases |lines|
  {
    if lines != [] {
      var p := lines[..|lines| - 1];
      forall i | 3 <= i < |p|
        ensures !Skipped(p, i)
      {
        assert !Skipped(lines, i);
      }
      KeptIdentity(p);
      SplitLast(lines);
    }
  }

  lemma KeptSnoc(lines: seq<string>, line: string)
    ensures Kept(lines + [line]) == Kept(lines) + (if Skipped(lines + [line], |lines|) then [] else [line])
  {
    var l := lines + [line];
    DropLast(lines, line);
  }

  /** `n` copies of `line`. */
  function Repeat(line: string, n: nat): seq<string> {
    seq(n, _ => line)
  }

  lemma RepeatSnoc(line: string, n: nat)
    requires n > 0
    ensures Repeat(line, n - 1) + [line] == Repeat(line, n)
  {
  }

  /** A run of `n` identical lines keeps its first three and no more. */
  lemma {:induction false} KeptRun(line: string, n: nat)
    ensures Kept(Repeat(line, n)) == Repeat(line, if n < 3 then n else 3)
    decreases n
  {
    if n > 0 {
      var p := Repeat(line, n - 1);
      var l := Repeat(line, n);
      KeptRun(line, n - 1);
      RepeatSnoc(line, n);
      KeptSnoc(p, line);
      if n > 3 {
        assert l[n - 1] == line && l[n - 2] == line && l[n - 3] == line && l[n - 4] == line;
        assert Skipped(l, n - 1);
      } else {
        assert !Skipped(l, n - 1);
      }
    }
  }

  /** A line that differs from the one before it is always kept, so a
      different line ends a run and the next repeat starts a new one. */
  lemma KeptAfterChange(lines: seq<string>, line: string)
    requires lines != [] && lines[|lines| - 1] != line
    ensures Kept(lines + [line]) == Kept(lines) + [line]
  {
    KeptSnoc(lines, line);
  }

  /** The text after the first ':' of a labelled line. */
  function AfterLabel(line: string): string
    requires ':' in line
  {
    line[IndexOf(line, ':').value + 1..]
  }

  /** `sp, txt = line.split(":", 1)`, both stripped. */
  function Header(line: string): Turn
    requires ':' in line
  {
    var k := IndexOf(line, ':').value;
    Turn(Strip(line[..k]), Strip(line[k + 1..]))
  }

  /** A line with ':' opens a turn; any other line is appended, after one
      space, to the text of the latest turn, and dropped if there is none. */
  function AddLine(turns: seq<Turn>, line: string): seq<Turn> {
    if ':' in line then turns + [Header(line)]
    else if turns == [] then turns
    else
      var last := turns[|turns| - 1];
      turns[..|turns| - 1] + [Turn(last.speaker, last.text + " " + Strip(line))]
  }

  function BuildTurns(lines: seq<string>): seq<Turn>
    decreases |lines|
  {
    if lines == [] then [] else AddLine(BuildTurns(lines[..|lines| - 1]), lines[|lines| - 1])
  }

  /** The turns one reply yields: its lines, through the guard, built into turns. */
  function Parse(reply: string): seq<Turn> {
    BuildTurns(Kept(SplitLines(reply)))
  }

  /** One more line through the guard: it is kept unless it is skipped, and
      the run it ends grows by one exactly when it repeats the line before. */
  lemma GuardStep(lines: seq<string>, i: nat)
    requires i < |lines|
    ensures Kept(lines[..i + 1]) == Kept(lines[..i]) + (if Skipped(lines, i) then [] else [lines[i]])
    ensures RunLength(lines[..i + 1]) == if i > 0 && lines[i] == lines[i - 1] then RunLength(lines[..i]) + 1 else 1
    ensures RunLength(lines[..i + 1]) >= 4 <==> Skipped(lines, i)
  {
    var prefix := lines[..i + 1];
    assert prefix[..i] == lines[..i];
    RunLengthSkipped(prefix);
    assert Skipped(prefix, i) == Skipped(lines, i);
  }

  lemma BuildTurnsSnoc(lines: seq<string>, line: string)
    ensures BuildTurns(lines + [line]) == AddLine(BuildTurns(lines), line)
  {
    DropLast(lines, line);
  }

  /** The state of the repetition guard before line `i`: the previous line,
      and how many times it has repeated. */
  predicate GuardAt(lines: seq<string>, i: nat, lastLine: Option<string>, repeatCount: int)
    requires i <= |lines|
  {
    && lastLine == (if i == 0 then None else Some(lines[i - 1]))
    && (i > 0 ==> repeatCount + 1 == RunLength(lines[..i]))
  }

  /** The guard's update skips exactly the lines `Skipped` names. */
  lemma GuardNext(lines: seq<string>, i: nat, lastLine: Option<string>, repeatCount: int)
    requires i < |lines| && GuardAt(lines, i, lastLine, repeatCount)
    ensures var count := if lastLine == Some(lines[i]) then repeatCount + 1 else 0;
      GuardAt(lines, i + 1, Some(lines[i]), count) && (count > 2 <==> Skipped(lines, i))
  {
    GuardStep(lines, i);
  }

  /** The body of the parsing loop for a line the guard lets through. */
  method ApplyLine(turns: seq<Turn>, line: string) returns (r: seq<Turn>)
    ensures r == AddLine(turns, line)
  {
    r := turns;
    var colon := IndexOf(line, ':');
    if colon.Some? {
      r := r + [Turn(Strip(line[..colon.value]), Strip(line[colon.value + 1..]))];
    } else if r != [] {
      var last := r[|r| - 1];
      r := r[|r| - 1 := Turn(last.speaker, last.text + " " + Strip(line))];
    }
  }

  /** The parsing loop of one reply, with its repetition guard. */
  method ParseReply(reply: string) returns (turns: seq<Turn>)
    ensures turns == Parse(reply)
  {
    var lines := SplitLines(reply);
    turns := [];
    var lastLine: Option<string> := None;
    var repeatCount := 0;
    var i := 0;
    ghost var kept: seq<string> := [];
    while i < |lines|
      invariant 0 <= i <= |lines|
      invariant kept == Kept(lines[..i])
      invariant turns == BuildTurns(kept)
      invariant GuardAt(lines, i, lastLine, repeatCount)
    {
      var line := lines[i];
      GuardStep(lines, i);
      GuardNext(lines, i, lastLine, repeatCount);
      var skip := false;
      if lastLine == Some(line) {
        repeatCount := repeatCount + 1;
        skip := repeatCount > 2;
      } else {
        repeatCount := 0;
      }
      assert skip == Skipped(lines, i);
      lastLine := Some(line);
      if !skip {
        BuildTurnsSnoc(kept, line);
        turns := ApplyLine(turns, line);
        kept := kept + [line];
      }
      i := i + 1;
    }
    assert lines[..i] == lines;
  }

  /** The number of lines that open a turn. */
  function LabelCount(lines: seq<string>): nat
    decreases |lines|
  {
    if lines == [] then 0 else LabelCount(lines[..|lines| - 1]) + (if ':' in lines[|lines| - 1] then 1 else 0)
  }

  /** The speakers of the lines that open a turn. */
  function LabelSpeakers(lines: seq<string>): seq<string>
    decreases |lines|
  {
    if lines == [] then []
    else
      var last := lines[|lines| - 1];
      LabelSpeakers(lines[..|lines| - 1]) + (if ':' in last then [Header(last).speaker] else [])
  }

  function Speakers(turns: seq<Turn>): seq<string>
    decreases |turns|
  {
    if turns == [] then [] else Speakers(turns[..|turns| - 1]) + [turns[|turns| - 1].speaker]
  }

  lemma SpeakersSnoc(turns: seq<Turn>, t: Turn)
    ensures Speakers(turns + [t]) == Speakers(turns) + [t.speaker]
  {
    DropLast(turns, t);
  }

  /** A labelled line adds a turn with its speaker; any other line adds none
      and keeps every speaker. */
  lemma AddLineSpeakers(turns: seq<Turn>, line: string)
    ensures |AddLine(turns, line)| == |turns| + (if ':' in line then 1 else 0)
    ensures Speakers(AddLine(turns, line)) == Speakers(turns) + (if ':' in line then [Header(line).speaker] else [])
  {
    if ':' in line {
      SpeakersSnoc(turns, Header(line));
    } else if turns != [] {
      var init := turns[..|turns| - 1];
      var last := turns[|turns| - 1];
      SpeakersSnoc(init, Turn(last.speaker, last.text + " " + Strip(line)));
      SpeakersSnoc(init, last);
      assert init + [last] == turns;
    }
  }

  /** There is one turn per labelled line, with that line's speaker, in order:
      a line without ':' never opens a turn. */
  lemma {:induction false} BuildTurnsSpeakers(lines: seq<string>)
    ensures |BuildTurns(lines)| == LabelCount(lines)
    ensures Speakers(BuildTurns(lines)) == LabelSpeakers(lines)
    decreases |lines|
  {
    if lines != [] {
      var p := lines[..|lines| - 1];
      BuildTurnsSpeakers(p);
      AddLineSpeakers(BuildTurns(p), lines[|lines| - 1]);
    }
  }

  /** The words a line contributes to the turns: those after the label of a
      labelled line, all of a continuation line once some turn is open, none
      before that. */
  function CarriedWords(lines: seq<string>): nat
    decreases |lines|
  {
    if lines == [] then 0
    else
      var p := lines[..|lines| - 1];
      var line := lines[|lines| - 1];
      CarriedWords(p)
        + (if ':' in line then WordCount(AfterLabel(line)) else if LabelCount(p) > 0 then WordCount(line) else 0)
  }

  /** Leniency loses no text: the turns hold every word after a label and
      every word of a continuation line, except for lines before the first
      label. */
  lemma {:induction false} BuildTurnsWords(lines: seq<string>)
    ensures TotalWords(BuildTurns(lines)) == CarriedWords(lines)
    decreases |lines|
  {
    if lines != [] {
      var p := lines[..|lines| - 1];
      var line := lines[|lines| - 1];
      BuildTurnsWords(p);
      BuildTurnsSpeakers(p);
      var b := BuildTurns(p);
      if ':' in line {
        TotalWordsSnoc(b, Header(line));
        StripKeepsWords(AfterLabel(line));
      } else if b != [] {
        var last := b[|b| - 1];
        var t := Turn(last.speaker, last.text + " " + Strip(line));
        TotalWordsSnoc(b[..|b| - 1], t);
        TotalWordsSnoc(b[..|b| - 1], last);
        assert b[..|b| - 1] + [last] == b;
        WordCountJoin(last.text, Strip(line));
        StripKeepsWords(line);
      }
    }
  }

  // ===========================================================================
  // Validation (`validate_translation`)
  // ===========================================================================

  datatype Verdict = Covered | LowCoverage | NoInput

  datatype Report = Report(inputTurns: nat, outputTurns: nat, inputWords: nat, outputWords: nat,
                           coverage: Option<real>, verdict: Verdict)

  /** `(output_word_count / input_word_count) * 100`, exactly. */
  function CoveragePercent(outputWords: nat, inputWords: nat): real
    requires inputWords > 0
  {
    (outputWords as real / inputWords as real) * 100.0
  }

  /** The coverage test on reals is the integer test `output * 100 < 90 * input`. */
  lemma CoverageIsIntegerTest(outputWords: nat, inputWords: nat)
    requires inputWords > 0
    ensures CoveragePercent(outputWords, inputWords) < 90.0 <==> outputWords * 100 < 90 * inputWords
  {
    RealCoverage(outputWords as real, inputWords as real);
    assert (outputWords * 100) as real == outputWords as real * 100.0;
    assert (90 * inputWords) as real == 90.0 * inputWords as real;
  }

  lemma RealCoverage(o: real, i: real)
    requires i > 0.0
    ensures (o / i) * 100.0 < 90.0 <==> o * 100.0 < 90.0 * i
  {
    var c := (o / i) * 100.0;
    assert (o / i) * i == o;
    assert c * i == o * 100.0;
    ScaleLess(c, 90.0, i);
  }

  /** Multiplying both sides by a positive number keeps a strict comparison. */
  lemma ScaleLess(x: real, y: real, c: real)
    requires c > 0.0
    ensures x < y <==> x * c < y * c
  {
    if x < y {
      assert (y - x) * c > 0.0;
    } else {
      assert (x - y) * c >= 0.0;
    }
  }

  function Validate(input: seq<Turn>, output: seq<Turn>): (r: Report)
    ensures r.inputWords == TotalWords(input) && r.outputWords == TotalWords(output)
    ensures r.inputTurns == |input| && r.outputTurns == |output|
    ensures r.verdict == NoInput <==> r.inputWords == 0
    ensures r.verdict == LowCoverage <==> r.inputWords > 0 && r.outputWords * 100 < 90 * r.inputWords
    ensures r.coverage.Some? <==> r.inputWords > 0
  {
    var i := TotalWords(input);
    var o := TotalWords(output);
    if i > 0 then
      var c := CoveragePercent(o, i);
      CoverageIsIntegerTest(o, i);
      Report(|input|, |output|, i, o, Some(c), if c < 90.0 then LowCoverage else Covered)
    else
      Report(|input|, |output|, i, o, None, NoInput)
  }

  // ===========================================================================
  // The resumable translation loop (`translate_ar`)
  // ===========================================================================

  /** What the generator gives back for one chunk: its text, or an exception. */
  datatype Reply = Ok(text: string) | Fail

  /** The saved progress record; each key may be missing from a record that
      was written elsewhere. */
  datatype Progress = Progress(finalTurns: Option<seq<Turn>>, contextSummary: Option<string>, lastChunk: Option<int>)

  /** The record this driver writes. */
  function Checkpoint(finalTurns: seq<Turn>, contextSummary: string, lastChunk: int): Progress {
    Progress(Some(finalTurns), Some(contextSummary), Some(lastChunk))
  }

  /** Where a run begins: the turns so far, the summary, and the first chunk index. */
  datatype Start = Start(finalTurns: seq<Turn>, contextSummary: string, startChunk: int)

  /** The resume logic: a saved record is used only when resuming, and a
      missing key falls back to `[]`, `""` or `0`. */
  function Restore(resume: bool, saved: Option<Progress>): Start {
    if resume && saved.Some? then
      var p := saved.value;
      Start(p.finalTurns.GetOr([]), p.contextSummary.GetOr(""), p.lastChunk.GetOr(0) + 1)
    else Start([], "", 0)
  }

  /** `chunks[start:]`, including Python's counting from the end for a
      negative start. */
  function SliceFrom(chunks: seq<seq<Turn>>, start: int): (r: seq<seq<Turn>>)
    ensures |r| <= |chunks| && r == chunks[|chunks| - |r|..]
    ensures 0 <= start <= |chunks| ==> r == chunks[start..]
    ensures start >= |chunks| ==> r == []
  {
    if start >= |chunks| then []
    else if start >= 0 then chunks[start..]
    else if |chunks| + start >= 0 then chunks[|chunks| + start..]
    else chunks
  }

  /** The observable result of running the loop over some chunks. */
  datatype RunState = RunState(raised: bool, finalTurns: seq<Turn>, saved: Option<Progress>, calls: seq<string>)

  /** The loop over `pending`, whose first chunk has index `idx`: each chunk's
      dialogue goes to the generator; a failure writes the checkpoint for the
      chunk before and stops the run, a success extends the final turns with
      the reply's turns and writes the checkpoint for this chunk. The reply
      parser is a parameter, so the properties of the loop below hold for any
      parser; the driver runs it with `Parse`. */
  function RunFrom(pending: seq<seq<Turn>>, idx: int, finalTurns: seq<Turn>, contextSummary: string,
                   generate: (string, string) -> Reply, parse: string -> seq<Turn>, saved: Option<Progress>): RunState
    decreases |pending|
  {
    if pending == [] then RunState(false, finalTurns, saved, [])
    else
      var d := Dialogue(pending[0]);
      match generate(d, contextSummary)
      case Fail => RunState(true, finalTurns, Some(Checkpoint(finalTurns, contextSummary, idx - 1)), [d])
      case Ok(text) =>
        var extended := finalTurns + parse(text);
        var rest := RunFrom(pending[1..], idx + 1, extended, contextSummary, generate, parse,
                            Some(Checkpoint(extended, contextSummary, idx)));
        rest.(calls := [d] + rest.calls)
  }

  /** The turns a chunk translates into, when the generator succeeds on it. */
  function Translated(chunk: seq<Turn>, contextSummary: string, generate: (string, string) -> Reply, parse: string -> seq<Turn>): seq<Turn> {
    match generate(Dialogue(chunk), contextSummary)
    case Ok(text) => parse(text)
    case Fail => []
  }

  function TranslatedAll(chunks: seq<seq<Turn>>, contextSummary: string, generate: (string, string) -> Reply, parse: string -> seq<Turn>): seq<Turn>
    decreases |chunks|
  {
    if chunks == [] then [] else Translated(chunks[0], contextSummary, generate, parse) + TranslatedAll(chunks[1..], contextSummary, generate, parse)
  }

  lemma TranslatedAllCons(chunks: seq<seq<Turn>>, contextSummary: string, generate: (string, string) -> Reply, parse: string -> seq<Turn>)
    requires chunks != []
    ensures TranslatedAll(chunks, contextSummary, generate, parse)
         == Translated(chunks[0], contextSummary, generate, parse) + TranslatedAll(chunks[1..], contextSummary, generate, parse)
  {
  }

  function Dialogues(chunks: seq<seq<Turn>>): (r: seq<string>)
  {
    seq(|chunks|, i requires 0 <= i < |chunks| => Dialogue(chunks[i]))
  }

  predicate SucceedsOn(chunk: seq<Turn>, contextSummary: string, generate: (string, string) -> Reply) {
    generate(Dialogue(chunk), contextSummary).Ok?
  }

  /** The generator succeeds on every chunk of `chunks`. */
  predicate AllSucceed(chunks: seq<seq<Turn>>, contextSummary: string, generate: (string, string) -> Reply)
    decreases |chunks|
  {
    chunks == [] || (AllSucceed(chunks[..|chunks| - 1], contextSummary, generate)
                     && SucceedsOn(chunks[|chunks| - 1], contextSummary, generate))
  }

  lemma {:induction false} AllSucceedEach(chunks: seq<seq<Turn>>, contextSummary: string, generate: (string, string) -> Reply)
    ensures AllSucceed(chunks, contextSummary, generate)
        <==> forall i :: 0 <= i < |chunks| ==> SucceedsOn(chunks[i], contextSummary, generate)
    decreases |chunks|
  {
    if chunks != [] {
      var p := chunks[..|chunks| - 1];
      AllSucceedEach(p, contextSummary, generate);
      assert forall i :: 0 <= i < |p| ==> p[i] == chunks[i];
    }
  }

  /** `RunAllSucceed` and `RunFailsAt`, for a loop that tracks success over a prefix. */
  lemma RunAllSucceedPrefix(pending: seq<seq<Turn>>, idx: int, finalTurns: seq<Turn>, contextSummary: string,
                            generate: (string, string) -> Reply, parse: string -> seq<Turn>, saved: Option<Progress>, k: nat)
    requires k == |pending| && AllSucceed(pending[..k], contextSummary, generate)
    ensures var turns := finalTurns + TranslatedAll(pending[..k], contextSummary, generate, parse);
      RunFrom(pending, idx, finalTurns, contextSummary, generate, parse, saved)
      == RunState(false, turns, if k == 0 then saved else Some(Checkpoint(turns, contextSummary, idx + k - 1)),
                  Dialogues(pending[..k]))
  {
    assert pending[..k] == pending;
    AllSucceedEach(pending, contextSummary, generate);
    RunAllSucceed(pending, idx, finalTurns, contextSummary, generate, parse, saved);
  }

  lemma RunFailsAtPrefix(pending: seq<seq<Turn>>, idx: int, finalTurns: seq<Turn>, contextSummary: string,
                         generate: (string, string) -> Reply, parse: string -> seq<Turn>, saved: Option<Progress>, k: nat)
    requires k < |pending| && AllSucceed(pending[..k], contextSummary, generate)
    requires !SucceedsOn(pending[k], contextSummary, generate)
    ensures var turns := finalTurns + TranslatedAll(pending[..k], contextSummary, generate, parse);
      RunFrom(pending, idx, finalTurns, contextSummary, generate, parse, saved)
      == RunState(true, turns, Some(Checkpoint(turns, contextSummary, idx + k - 1)), Dialogues(pending[..k + 1]))
  {
    AllSucceedEach(pending[..k], contextSummary, generate);
    assert forall i :: 0 <= i < k ==> pending[..k][i] == pending[i];
    RunFailsAt(pending, idx, finalTurns, contextSummary, generate, parse, saved, k);
  }

  lemma AllSucceedSnoc(chunks: seq<seq<Turn>>, k: nat, contextSummary: string, generate: (string, string) -> Reply)
    requires k < |chunks|
    ensures AllSucceed(chunks[..k + 1], contextSummary, generate)
        <==> AllSucceed(chunks[..k], contextSummary, generate) && SucceedsOn(chunks[k], contextSummary, generate)
  {
    assert chunks[..k + 1][..k] == chunks[..k];
  }

  /** One successful chunk: the run goes on from the next chunk with the
      extended turns and this chunk's checkpoint. */
  lemma RunFromOk(pending: seq<seq<Turn>>, idx: int, finalTurns: seq<Turn>, contextSummary: string,
                  generate: (string, string) -> Reply, parse: string -> seq<Turn>, saved: Option<Progress>)
    requires pending != [] && SucceedsOn(pending[0], contextSummary, generate)
    ensures var extended := finalTurns + Translated(pending[0], contextSummary, generate, parse);
      var rest := RunFrom(pending[1..], idx + 1, extended, contextSummary, generate, parse, Some(Checkpoint(extended, contextSummary, idx)));
      RunFrom(pending, idx, finalTurns, contextSummary, generate, parse, saved) == rest.(calls := [Dialogue(pending[0])] + rest.calls)
  {
  }

  /** When every chunk succeeds, the final turns grow by exactly each chunk's
      parsed turns, every dialogue is sent once in order, and the checkpoint
      holds the final turns with the last chunk's index. */
  lemma RunAllSucceed(pending: seq<seq<Turn>>, idx: int, finalTurns: seq<Turn>, contextSummary: string,
                      generate: (string, string) -> Reply, parse: string -> seq<Turn>, saved: Option<Progress>)
    requires forall i :: 0 <= i < |pending| ==> SucceedsOn(pending[i], contextSummary, generate)
    ensures var r := RunFrom(pending, idx, finalTurns, contextSummary, generate, parse, saved);
      && !r.raised
      && r.finalTurns == finalTurns + TranslatedAll(pending, contextSummary, generate, parse)
      && r.calls == Dialogues(pending)
      && r.saved == if pending == [] then saved
                    else Some(Checkpoint(r.finalTurns, contextSummary, idx + |pending| - 1))
  {
    RunAllSucceedTurns(pending, idx, finalTurns, contextSummary, generate, parse, saved);
    RunAllSucceedCalls(pending, idx, finalTurns, contextSummary, generate, parse, saved);
    RunAllSucceedSaved(pending, idx, finalTurns, contextSummary, generate, parse, saved);
  }

  lemma {:induction false} RunAllSucceedTurns(pending: seq<seq<Turn>>, idx: int, finalTurns: seq<Turn>, contextSummary: string,
                                              generate: (string, string) -> Reply, parse: string -> seq<Turn>, saved: Option<Progress>)
    requires forall i :: 0 <= i < |pending| ==> SucceedsOn(pending[i], contextSummary, generate)
    ensures var r := RunFrom(pending, idx, finalTurns, contextSummary, generate, parse, saved);
      !r.raised && r.finalTurns == finalTurns + TranslatedAll(pending, contextSummary, generate, parse)
    decreases |pending|
  {
    if pending != [] {
      var extended := finalTurns + Translated(pending[0], contextSummary, generate, parse);
      var next := Some(Checkpoint(extended, contextSummary, idx));
      forall i | 0 <= i < |pending[1..]|
        ensures SucceedsOn(pending[1..][i], contextSummary, generate)
      {
        assert pending[1..][i] == pending[i + 1];
      }
      RunFromOk(pending, idx, finalTurns, contextSummary, generate, parse, saved);
      RunAllSucceedTurns(pending[1..], idx + 1, extended, contextSummary, generate, parse, next);
      TranslatedAllCons(pending, contextSummary, generate, parse);
      AppendAssoc(finalTurns, Translated(pending[0], contextSummary, generate, parse), TranslatedAll(pending[1..], contextSummary, generate, parse));
    }
  }

  lemma {:induction false} RunAllSucceedCalls(pending: seq<seq<Turn>>, idx: int, finalTurns: seq<Turn>, contextSummary: string,
                                              generate: (string, string) -> Reply, parse: string -> seq<Turn>, saved: Option<Progress>)
    requires forall i :: 0 <= i < |pending| ==> SucceedsOn(pending[i], contextSummary, generate)
    ensures RunFrom(pending, idx, finalTurns, contextSummary, generate, parse, saved).calls == Dialogues(pending)
    decreases |pending|
  {
    if pending != [] {
      var extended := finalTurns + Translated(pending[0], contextSummary, generate, parse);
      var next := Some(Checkpoint(extended, contextSummary, idx));
      forall i | 0 <= i < |pending[1..]|
        ensures SucceedsOn(pending[1..][i], contextSummary, generate)
      {
        assert pending[1..][i] == pending[i + 1];
      }
      RunFromOk(pending, idx, finalTurns, contextSummary, generate, parse, saved);
      RunAllSucceedCalls(pending[1..], idx + 1, extended, contextSummary, generate, parse, next);
      assert Dialogues(pending) == [Dialogue(pending[0])] + Dialogues(pending[1..]);
    }
  }

  lemma {:induction false} RunAllSucceedSaved(pending: seq<seq<Turn>>, idx: int, finalTurns: seq<Turn>, contextSummary: string,
                                              generate: (string, string) -> Reply, parse: string -> seq<Turn>, saved: Option<Progress>)
    requires forall i :: 0 <= i < |pending| ==> SucceedsOn(pending[i], contextSummary, generate)
    ensures var r := RunFrom(pending, idx, finalTurns, contextSummary, generate, parse, saved);
      r.saved == if pending == [] then saved else Some(Checkpoint(r.finalTurns, contextSummary, idx + |pending| - 1))
    decreases |pending|
  {
    if pending != [] {
      var extended := finalTurns + Translated(pending[0], contextSummary, generate, parse);
      var next := Some(Checkpoint(extended, contextSummary, idx));
      forall i | 0 <= i < |pending[1..]|
        ensures SucceedsOn(pending[1..][i], contextSummary, generate)
      {
        assert pending[1..][i] == pending[i + 1];
      }
      RunFromOk(pending, idx, finalTurns, contextSummary, generate, parse, saved);
      RunAllSucceedSaved(pending[1..], idx + 1, extended, contextSummary, generate, parse, next);
    }
  }

  /** A failed chunk: the run raises after one call, checkpointing the chunk
      before it. */
  lemma RunFromFail(pending: seq<seq<Turn>>, idx: int, finalTurns: seq<Turn>, contextSummary: string,
                    generate: (string, string) -> Reply, parse: string -> seq<Turn>, saved: Option<Progress>)
    requires pending != [] && !SucceedsOn(pending[0], contextSummary, generate)
    ensures RunFrom(pending, idx, finalTurns, contextSummary, generate, parse, saved)
         == RunState(true, finalTurns, Some(Checkpoint(finalTurns, contextSummary, idx - 1)), [Dialogue(pending[0])])
  {
  }

  /** When chunk `j` of `pending` is the first to fail, the run raises, the
      dialogues up to and including chunk `j` were sent, and the checkpoint
      holds the turns of the chunks before `j` with the index before `j`'s. */
  lemma RunFailsAt(pending: seq<seq<Turn>>, idx: int, finalTurns: seq<Turn>, contextSummary: string,
                   generate: (string, string) -> Reply, parse: string -> seq<Turn>, saved: Option<Progress>, j: nat)
    requires j < |pending|
    requires forall i :: 0 <= i < j ==> SucceedsOn(pending[i], contextSummary, generate)
    requires !SucceedsOn(pending[j], contextSummary, generate)
    ensures var r := RunFrom(pending, idx, finalTurns, contextSummary, generate, parse, saved);
      && r.raised
      && r.finalTurns == finalTurns + TranslatedAll(pending[..j], contextSummary, generate, parse)
      && r.calls == Dialogues(pending[..j + 1])
      && r.saved == Some(Checkpoint(r.finalTurns, contextSummary, idx + j - 1))
  {
    RunFailsAtTurns(pending, idx, finalTurns, contextSummary, generate, parse, saved, j);
    RunFailsAtSaved(pending, idx, finalTurns, contextSummary, generate, parse, saved, j);
    RunFailsAtCalls(pending, idx, finalTurns, contextSummary, generate, parse, saved, j);
  }

  lemma {:induction false} RunFailsAtTurns(pending: seq<seq<Turn>>, idx: int, finalTurns: seq<Turn>, contextSummary: string,
                                           generate: (string, string) -> Reply, parse: string -> seq<Turn>, saved: Option<Progress>, j: nat)
    requires j < |pending|
    requires forall i :: 0 <= i < j ==> SucceedsOn(pending[i], contextSummary, generate)
    requires !SucceedsOn(pending[j], contextSummary, generate)
    ensures var r := RunFrom(pending, idx, finalTurns, contextSummary, generate, parse, saved);
      r.raised && r.finalTurns == finalTurns + TranslatedAll(pending[..j], contextSummary, generate, parse)
    decreases j
  {
    if j == 0 {
      RunFromFail(pending, idx, finalTurns, contextSummary, generate, parse, saved);
      assert pending[..0] == [];
    } else {
      var extended := finalTurns + Translated(pending[0], contextSummary, generate, parse);
      forall i | 0 <= i < j - 1
        ensures SucceedsOn(pending[1..][i], contextSummary, generate)
      {
        assert pending[1..][i] == pending[i + 1];
      }
      assert pending[1..][j - 1] == pending[j];
      RunFromOk(pending, idx, finalTurns, contextSummary, generate, parse, saved);
      RunFailsAtTurns(pending[1..], idx + 1, extended, contextSummary, generate, parse,
                      Some(Checkpoint(extended, contextSummary, idx)), j - 1);
      var before := pending[..j];
      assert before[0] == pending[0] && before[1..] == pending[1..][..j - 1];
      TranslatedAllCons(before, contextSummary, generate, parse);
      AppendAssoc(finalTurns, Translated(pending[0], contextSummary, generate, parse), TranslatedAll(before[1..], contextSummary, generate, parse));
    }
  }

  lemma {:induction false} RunFailsAtSaved(pending: seq<seq<Turn>>, idx: int, finalTurns: seq<Turn>, contextSummary: string,
                                           generate: (string, string) -> Reply, parse: string -> seq<Turn>, saved: Option<Progress>, j: nat)
    requires j < |pending|
    requires forall i :: 0 <= i < j ==> SucceedsOn(pending[i], contextSummary, generate)
    requires !SucceedsOn(pending[j], contextSummary, generate)
    ensures var r := RunFrom(pending, idx, finalTurns, contextSummary, generate, parse, saved);
      r.saved == Some(Checkpoint(r.finalTurns, contextSummary, idx + j - 1))
    decreases j
  {
    if j == 0 {
      RunFromFail(pending, idx, finalTurns, contextSummary, generate, parse, saved);
    } else {
      var extended := finalTurns + Translated(pending[0], contextSummary, generate, parse);
      forall i | 0 <= i < j - 1
        ensures SucceedsOn(pending[1..][i], contextSummary, generate)
      {
        assert pending[1..][i] == pending[i + 1];
      }
      assert pending[1..][j - 1] == pending[j];
      RunFromOk(pending, idx, finalTurns, contextSummary, generate, parse, saved);
      var next := Some(Checkpoint(extended, contextSummary, idx));
      RunFailsAtSaved(pending[1..], idx + 1, extended, contextSummary, generate, parse, next, j - 1);
      var r := RunFrom(pending, idx, finalTurns, contextSummary, generate, parse, saved);
      var rest := RunFrom(pending[1..], idx + 1, extended, contextSummary, generate, parse, next);
      assert r.saved == rest.saved && r.finalTurns == rest.finalTurns;
      assert rest.saved == Some(Checkpoint(rest.finalTurns, contextSummary, idx + j - 1));
    }
  }

  lemma {:induction false} RunFailsAtCalls(pending: seq<seq<Turn>>, idx: int, finalTurns: seq<Turn>, contextSummary: string,
                                           generate: (string, string) -> Reply, parse: string -> seq<Turn>, saved: Option<Progress>, j: nat)
    requires j < |pending|
    requires forall i :: 0 <= i < j ==> SucceedsOn(pending[i], contextSummary, generate)
    requires !SucceedsOn(pending[j], contextSummary, generate)
    ensures RunFrom(pending, idx, finalTurns, contextSummary, generate, parse, saved).calls == Dialogues(pending[..j + 1])
    decreases j
  {
    if j == 0 {
      RunFromFail(pending, idx, finalTurns, contextSummary, generate, parse, saved);
      assert Dialogues(pending[..1]) == [Dialogue(pending[0])];
    } else {
      var extended := finalTurns + Translated(pending[0], contextSummary, generate, parse);
      forall i | 0 <= i < j - 1
        ensures SucceedsOn(pending[1..][i], contextSummary, generate)
      {
        assert pending[1..][i] == pending[i + 1];
      }
      assert pending[1..][j - 1] == pending[j];
      RunFromOk(pending, idx, finalTurns, contextSummary, generate, parse, saved);
      RunFailsAtCalls(pending[1..], idx + 1, extended, contextSummary, generate, parse,
                      Some(Checkpoint(extended, contextSummary, idx)), j - 1);
      assert pending[..j + 1][1..] == pending[1..][..j];
      assert Dialogues(pending[..j + 1]) == [Dialogue(pending[0])] + Dialogues(pending[1..][..j]);
    }
  }

  /** Every checkpoint a run writes carries the summary it started with. */
  lemma {:induction false} RunKeepsSummary(pending: seq<seq<Turn>>, idx: int, finalTurns: seq<Turn>, contextSummary: string,
                                           generate: (string, string) -> Reply, parse: string -> seq<Turn>, saved: Option<Progress>)
    ensures var r := RunFrom(pending, idx, finalTurns, contextSummary, generate, parse, saved);
      r.saved == saved || (r.saved.Some? && r.saved.value.contextSummary == Some(contextSummary))
    decreases |pending|
  {
    if pending != [] && generate(Dialogue(pending[0]), contextSummary).Ok? {
      var extended := finalTurns + Translated(pending[0], contextSummary, generate, parse);
      RunKeepsSummary(pending[1..], idx + 1, extended, contextSummary, generate, parse,
                      Some(Checkpoint(extended, contextSummary, idx)));
    }
  }

  /** A run sends the dialogues of a prefix of its chunks, in order, and only
      adds turns after the ones it started with. */
  lemma {:induction false} RunSendsPrefix(pending: seq<seq<Turn>>, idx: int, finalTurns: seq<Turn>, contextSummary: string,
                                          generate: (string, string) -> Reply, parse: string -> seq<Turn>, saved: Option<Progress>)
    ensures var r := RunFrom(pending, idx, finalTurns, contextSummary, generate, parse, saved);
      && |r.calls| <= |pending| && r.calls == Dialogues(pending[..|r.calls|])
      && |finalTurns| <= |r.finalTurns| && r.finalTurns[..|finalTurns|] == finalTurns
    decreases |pending|
  {
    if pending != [] {
      match generate(Dialogue(pending[0]), contextSummary)
      case Fail =>
        assert Dialogues(pending[..1]) == [Dialogue(pending[0])];
      case Ok(text) =>
        var extended := finalTurns + parse(text);
        var next := Some(Checkpoint(extended, contextSummary, idx));
        RunSendsPrefix(pending[1..], idx + 1, extended, contextSummary, generate, parse, next);
        var rest := RunFrom(pending[1..], idx + 1, extended, contextSummary, generate, parse, next);
        var n := |rest.calls|;
        assert pending[..n + 1][1..] == pending[1..][..n];
        assert Dialogues(pending[..n + 1]) == [Dialogue(pending[0])] + Dialogues(pending[1..][..n]);
        assert extended[..|finalTurns|] == finalTurns;
    }
  }

  /** Resuming from a saved record: the run starts from the saved turns at
      chunk `last_chunk + 1` (chunk 1 when the key is missing), and the `i`-th
      dialogue it sends is that of chunk `last_chunk + 1 + i`, so no earlier
      chunk reaches the generator. */
  lemma ResumeSkips(chunks: seq<seq<Turn>>, saved: Option<Progress>, generate: (string, string) -> Reply, parse: string -> seq<Turn>)
    requires saved.Some?
    ensures var start := Restore(true, saved);
      var r := RunFrom(SliceFrom(chunks, start.startChunk), start.startChunk, start.finalTurns, start.contextSummary, generate, parse, saved);
      && start.startChunk == saved.value.lastChunk.GetOr(0) + 1
      && (saved.value.lastChunk.None? ==> start.startChunk == 1)
      && start.finalTurns == saved.value.finalTurns.GetOr([])
      && |start.finalTurns| <= |r.finalTurns| && r.finalTurns[..|start.finalTurns|] == start.finalTurns
      && (0 <= start.startChunk ==>
            forall i :: 0 <= i < |r.calls| ==> start.startChunk + i < |chunks| && r.calls[i] == Dialogue(chunks[start.startChunk + i]))
  {
    var start := Restore(true, saved);
    var pending := SliceFrom(chunks, start.startChunk);
    RunSendsPrefix(pending, start.startChunk, start.finalTurns, start.contextSummary, generate, parse, saved);
    var r := RunFrom(pending, start.startChunk, start.finalTurns, start.contextSummary, generate, parse, saved);
    if 0 <= start.startChunk {
      forall i | 0 <= i < |r.calls|
        ensures start.startChunk + i < |chunks| && r.calls[i] == Dialogue(chunks[start.startChunk + i])
      {
        assert r.calls[i] == Dialogue(pending[i]);
        if start.startChunk <= |chunks| {
          assert pending[i] == chunks[start.startChunk + i];
        }
      }
    }
  }

  /** A fresh run of a job that fails at chunk `j` leaves a checkpoint from
      which a resumed run starts at chunk `j`, with the turns of the chunks
      before it and the summary still empty. */
  lemma ResumeAfterFailure(chunks: seq<seq<Turn>>, generate: (string, string) -> Reply, parse: string -> seq<Turn>, saved: Option<Progress>, j: nat)
    requires j < |chunks|
    requires forall i :: 0 <= i < j ==> SucceedsOn(chunks[i], "", generate)
    requires !SucceedsOn(chunks[j], "", generate)
    ensures var first := Restore(false, saved);
      var r := RunFrom(SliceFrom(chunks, first.startChunk), first.startChunk, first.finalTurns, first.contextSummary, generate, parse, saved);
      Restore(true, r.saved) == Start(TranslatedAll(chunks[..j], "", generate, parse), "", j)
  {
    RunFailsAt(chunks, 0, [], "", generate, parse, saved, j);
  }

  lemma TranslatedAllSnoc(chunks: seq<seq<Turn>>, k: nat, contextSummary: string,
                          generate: (string, string) -> Reply, parse: string -> seq<Turn>)
    requires k < |chunks|
    ensures TranslatedAll(chunks[..k + 1], contextSummary, generate, parse)
         == TranslatedAll(chunks[..k], contextSummary, generate, parse) + Translated(chunks[k], contextSummary, generate, parse)
  {
    var p := chunks[..k + 1];
    TranslatedAllSplit(p, k, contextSummary, generate, parse);
    assert p[..k] == chunks[..k];
    assert p[k..] == [chunks[k]];
    assert [chunks[k]][1..] == [];
  }

  lemma DialoguesSnoc(chunks: seq<seq<Turn>>, k: nat)
    requires k < |chunks|
    ensures Dialogues(chunks[..k + 1]) == Dialogues(chunks[..k]) + [Dialogue(chunks[k])]
  {
  }

  lemma {:induction false} TranslatedAllSplit(chunks: seq<seq<Turn>>, j: nat, contextSummary: string,
                                              generate: (string, string) -> Reply, parse: string -> seq<Turn>)
    requires j <= |chunks|
    ensures TranslatedAll(chunks, contextSummary, generate, parse)
         == TranslatedAll(chunks[..j], contextSummary, generate, parse) + TranslatedAll(chunks[j..], contextSummary, generate, parse)
    decreases j
  {
    if j > 0 {
      TranslatedAllSplit(chunks[1..], j - 1, contextSummary, generate, parse);
      assert chunks[..j][0] == chunks[0] && chunks[..j][1..] == chunks[1..][..j - 1];
      assert chunks[1..][j - 1..] == chunks[j..];
    } else {
      assert chunks[..0] == [] && chunks[0..] == chunks;
    }
  }

  lemma {:induction false} TranslatedAllAgree(chunks: seq<seq<Turn>>, contextSummary: string,
                                              g1: (string, string) -> Reply, g2: (string, string) -> Reply, parse: string -> seq<Turn>)
    requires forall i :: 0 <= i < |chunks| ==> g1(Dialogue(chunks[i]), contextSummary) == g2(Dialogue(chunks[i]), contextSummary)
    ensures TranslatedAll(chunks, contextSummary, g1, parse) == TranslatedAll(chunks, contextSummary, g2, parse)
    decreases |chunks|
  {
    if chunks != [] {
      assert g1(Dialogue(chunks[0]), contextSummary) == g2(Dialogue(chunks[0]), contextSummary);
      forall i | 0 <= i < |chunks[1..]|
        ensures g1(Dialogue(chunks[1..][i]), contextSummary) == g2(Dialogue(chunks[1..][i]), contextSummary)
      {
        assert chunks[1..][i] == chunks[i + 1];
      }
      TranslatedAllAgree(chunks[1..], contextSummary, g1, g2, parse);
    }
  }

  /** Resuming replays nothing: after a fresh run fails at chunk `j`, a resumed
      run whose generator succeeds on the rest sends only the dialogues of
      chunks `j` onward, and ends with the same turns as one uninterrupted run
      of that generator, provided both generators agree on the chunks before `j`. */
  lemma ResumeMatchesUninterrupted(chunks: seq<seq<Turn>>, g1: (string, string) -> Reply, g2: (string, string) -> Reply,
                                   parse: string -> seq<Turn>, saved: Option<Progress>, j: nat)
    requires j < |chunks|
    requires forall i :: 0 <= i < j ==> SucceedsOn(chunks[i], "", g1)
    requires !SucceedsOn(chunks[j], "", g1)
    requires forall i :: j <= i < |chunks| ==> SucceedsOn(chunks[i], "", g2)
    requires forall i :: 0 <= i < j ==> g1(Dialogue(chunks[i]), "") == g2(Dialogue(chunks[i]), "")
    ensures var failed := RunFrom(chunks, 0, [], "", g1, parse, saved);
      var start := Restore(true, failed.saved);
      var resumed := RunFrom(SliceFrom(chunks, start.startChunk), start.startChunk, start.finalTurns, start.contextSummary, g2, parse, failed.saved);
      var whole := RunFrom(chunks, 0, [], "", g2, parse, saved);
      && failed.raised && !resumed.raised && !whole.raised
      && resumed.calls == Dialogues(chunks[j..])
      && resumed.finalTurns == whole.finalTurns
  {
    var before := TranslatedAll(chunks[..j], "", g1, parse);
    RunFailsAt(chunks, 0, [], "", g1, parse, saved, j);
    var failed := RunFrom(chunks, 0, [], "", g1, parse, saved);
    assert [] + before == before;
    assert failed.saved == Some(Checkpoint(before, "", j - 1));
    var start := Restore(true, failed.saved);
    assert start == Start(before, "", j);
    assert SliceFrom(chunks, j) == chunks[j..];
    ResumedRun(chunks, g2, parse, before, failed.saved, j);
    WholeRun(chunks, g1, g2, parse, saved, j);
  }

  lemma ResumedRun(chunks: seq<seq<Turn>>, g2: (string, string) -> Reply, parse: string -> seq<Turn>,
                   before: seq<Turn>, saved: Option<Progress>, j: nat)
    requires j < |chunks|
    requires forall i :: j <= i < |chunks| ==> SucceedsOn(chunks[i], "", g2)
    ensures var resumed := RunFrom(chunks[j..], j, before, "", g2, parse, saved);
      && !resumed.raised
      && resumed.calls == Dialogues(chunks[j..])
      && resumed.finalTurns == before + TranslatedAll(chunks[j..], "", g2, parse)
  {
    forall i | 0 <= i < |chunks[j..]|
      ensures SucceedsOn(chunks[j..][i], "", g2)
    {
      assert chunks[j..][i] == chunks[j + i];
    }
    RunAllSucceedTurns(chunks[j..], j, before, "", g2, parse, saved);
    RunAllSucceedCalls(chunks[j..], j, before, "", g2, parse, saved);
  }

  lemma WholeRun(chunks: seq<seq<Turn>>, g1: (string, string) -> Reply, g2: (string, string) -> Reply,
                 parse: string -> seq<Turn>, saved: Option<Progress>, j: nat)
    requires j < |chunks|
    requires forall i :: j <= i < |chunks| ==> SucceedsOn(chunks[i], "", g2)
    requires forall i :: 0 <= i < j ==> g1(Dialogue(chunks[i]), "") == g2(Dialogue(chunks[i]), "")
    requires forall i :: 0 <= i < j ==> SucceedsOn(chunks[i], "", g1)
    ensures var whole := RunFrom(chunks, 0, [], "", g2, parse, saved);
      && !whole.raised
      && whole.finalTurns == TranslatedAll(chunks[..j], "", g1, parse) + TranslatedAll(chunks[j..], "", g2, parse)
  {
    forall i | 0 <= i < |chunks|
      ensures SucceedsOn(chunks[i], "", g2)
    {
      if i < j {
        assert g1(Dialogue(chunks[i]), "") == g2(Dialogue(chunks[i]), "");
      }
    }
    RunAllSucceedTurns(chunks, 0, [], "", g2, parse, saved);
    forall i | 0 <= i < |chunks[..j]|
      ensures g1(Dialogue(chunks[..j][i]), "") == g2(Dialogue(chunks[..j][i]), "")
    {
      assert chunks[..j][i] == chunks[i];
    }
    TranslatedAllAgree(chunks[..j], "", g1, g2, parse);
    TranslatedAllSplit(chunks, j, "", g2, parse);
    assert [] + TranslatedAll(chunks, "", g2, parse) == TranslatedAll(chunks, "", g2, parse);
  }

  /** The translation loop over `pending`, whose first chunk has index
      `startChunk`, from the given final turns, context summary and
      checkpoint: it returns whether the generator raised, the final turns,
      the checkpoint last written and the dialogues sent. */
  method RunChunks(pending: seq<seq<Turn>>, startChunk: int, finalTurns0: seq<Turn>, contextSummary: string,
                   generate: (string, string) -> Reply, parse: string -> seq<Turn>, saved0: Option<Progress>)
    returns (raised: bool, finalTurns: seq<Turn>, saved: Option<Progress>, ghost calls: seq<string>)
    ensures RunState(raised, finalTurns, saved, calls) == RunFrom(pending, startChunk, finalTurns0, contextSummary, generate, parse, saved0)
  {
    finalTurns := finalTurns0;
    saved := saved0;
    calls := [];
    var k := 0;
    while k < |pending|
      invariant 0 <= k <= |pending|
      invariant AllSucceed(pending[..k], contextSummary, generate)
      invariant finalTurns == finalTurns0 + TranslatedAll(pending[..k], contextSummary, generate, parse)
      invariant calls == Dialogues(pending[..k])
      invariant k == 0 ==> saved == saved0
      invariant k > 0 ==> saved == Some(Checkpoint(finalTurns, contextSummary, startChunk + k - 1))
    {
      var idx := startChunk + k;
      var chunk := pending[k];
      var dialogue := Dialogue(chunk);
      DialoguesSnoc(pending, k);
      calls := calls + [dialogue];
      var reply := generate(dialogue, contextSummary);
      if reply.Fail? {
        saved := Some(Checkpoint(finalTurns, contextSummary, idx - 1));
        RunFailsAtPrefix(pending, startChunk, finalTurns0, contextSummary, generate, parse, saved0, k);
        return true, finalTurns, saved, calls;
      }
      var translatedChunk := parse(reply.text);
      SucceedStep(pending, k, finalTurns0, contextSummary, generate, parse);
      finalTurns := finalTurns + translatedChunk;
      saved := Some(Checkpoint(finalTurns, contextSummary, idx));
      k := k + 1;
    }
    RunAllSucceedPrefix(pending, startChunk, finalTurns0, contextSummary, generate, parse, saved0, k);
    raised := false;
  }

  /** One chunk on which the generator succeeds extends what the loop has
      seen by that chunk. */
  lemma SucceedStep(pending: seq<seq<Turn>>, k: nat, finalTurns0: seq<Turn>, contextSummary: string,
                    generate: (string, string) -> Reply, parse: string -> seq<Turn>)
    requires k < |pending| && AllSucceed(pending[..k], contextSummary, generate)
    requires SucceedsOn(pending[k], contextSummary, generate)
    ensures AllSucceed(pending[..k + 1], contextSummary, generate)
    ensures finalTurns0 + TranslatedAll(pending[..k], contextSummary, generate, parse)
              + parse(generate(Dialogue(pending[k]), contextSummary).text)
         == finalTurns0 + TranslatedAll(pending[..k + 1], contextSummary, generate, parse)
  {
    AllSucceedSnoc(pending, k, contextSummary, generate);
    TranslatedAllSnoc(pending, k, contextSummary, generate, parse);
    AppendAssoc(finalTurns0, TranslatedAll(pending[..k], contextSummary, generate, parse),
                Translated(pending[k], contextSummary, generate, parse));
  }

  /** What `translate_ar` hands back: the final turns with the validation
      report, or the generator's exception. */
  datatype Outcome = Done(finalTurns: seq<Turn>, report: Report) | Raised

  /** The driver, with the checkpoint file as a field. */
  class Translator {
    /** The record at the progress path, if one exists. */
    var saved: Option<Progress>
    /** The dialogues handed to the generator so far, in order. */
    ghost var calls: seq<string>

    constructor (existing: Option<Progress>)
      ensures saved == existing && calls == []
    {
      saved := existing;
      calls := [];
    }

    method Translate(turns: seq<Turn>, resume: bool, generate: (string, string) -> Reply)
      returns (outcome: Outcome, ghost chunks: seq<seq<Turn>>)
      modifies this
      ensures IsChunking(turns, ChunkSizeWords, chunks)
      ensures var start := Restore(resume, old(saved));
        var run := RunFrom(SliceFrom(chunks, start.startChunk), start.startChunk, start.finalTurns,
                           start.contextSummary, generate, Parse, old(saved));
        && saved == run.saved
        && calls == old(calls) + run.calls
        && outcome == if run.raised then Raised else Done(run.finalTurns, Validate(turns, run.finalTurns))
    {
      var allChunks := ChunkTurns(turns, ChunkSizeWords);
      chunks := allChunks;
      ghost var start := Restore(resume, saved);
      var finalTurns: seq<Turn> := [];
      var contextSummary := "";
      var startChunk := 0;
      if resume && saved.Some? {
        var progress := saved.value;
        finalTurns := progress.finalTurns.GetOr([]);
        contextSummary := progress.contextSummary.GetOr("");
        startChunk := progress.lastChunk.GetOr(0) + 1;
      }
      assert start == Start(finalTurns, contextSummary, startChunk);
      var pending := SliceFrom(allChunks, startChunk);
      ghost var run := RunFrom(pending, startChunk, finalTurns, contextSummary, generate, Parse, saved);
      var raised;
      ghost var sent;
      raised, finalTurns, saved, sent := RunChunks(pending, startChunk, finalTurns, contextSummary, generate, Parse, saved);
      assert RunState(raised, finalTurns, saved, sent) == run;
      calls := calls + sent;
      if raised {
        return Raised, chunks;
      }
      outcome := Done(finalTurns, Validate(turns, finalTurns));
    }
  }
}
