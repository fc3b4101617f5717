/** Speaker-segment consolidation: the five list transformations that
    `diarize_audio` applies to the raw diarization segments (overlap
    resolution, role relabelling, short-segment absorption, gap closing and
    same-speaker merging). Times are exact reals. Each stage is a method that
    works the way the source's loop does and is proved equal to a
    specification function, about which the properties are proved. */
module Diarize {
  import opened Seqs

  datatype Segment = Segment(start: real, end: real, speaker: string)

  /** `min_duration`: shorter segments are absorbed; also the lower gap bound. */
  const MinDuration: real := 0.6
  /** `gap_threshold`: the largest gap that is closed. */
  const GapThreshold: real := 3.0
  /** `gap_tolerance` of `merge_adjacent_segments`. */
  const GapTolerance: real := 1.0

  function Max(a: real, b: real): real {
    if a >= b then a else b
  }

  predicate WellFormed(s: seq<Segment>) {
    forall i :: 0 <= i < |s| ==> s[i].start <= s[i].end
  }

  /** Every speaker label of `s` is in `labels`. */
  predicate LabelsIn(s: seq<Segment>, labels: set<string>) {
    forall i :: 0 <= i < |s| ==> s[i].speaker in labels
  }

  // ===========================================================================
  // Sorting by start (`sorted(segments, key=lambda x: x["start"])`)
  // ===========================================================================

  predicate SortedByStart(s: seq<Segment>) {
    forall i, j :: 0 <= i < j < |s| ==> s[i].start <= s[j].start
  }

  /** Inserts `x` after every element whose start is not greater than its own. */
  function InsertByStart(x: Segment, s: seq<Segment>): (r: seq<Segment>)
    ensures multiset(r) == multiset(s) + multiset{x}
    decreases |s|
  {
    if s == [] then [x]
    else if x.start < s[0].start then [x] + s
    else
      assert s == [s[0]] + s[1..];
      [s[0]] + InsertByStart(x, s[1..])
  }

  /** Every segment of `s` starts at `lo` or later. */
  predicate StartsFrom(lo: real, s: seq<Segment>) {
    forall k :: 0 <= k < |s| ==> lo <= s[k].start
  }

  /** A segment in front of a sorted list that starts no later than any of it. */
  lemma ConsSorted(a: Segment, t: seq<Segment>)
    requires StartsFrom(a.start, t) && SortedByStart(t)
    ensures SortedByStart([a] + t)
  {
    var r := [a] + t;
    forall i, j | 0 <= i < j < |r|
      ensures r[i].start <= r[j].start
    {
      assert r[j] == t[j - 1];
      if i > 0 {
        assert r[i] == t[i - 1];
      }
    }
  }

  /** Inserting a segment that starts at `lo` or later keeps that lower bound. */
  lemma {:induction false} InsertStartsFrom(lo: real, x: Segment, s: seq<Segment>)
    requires lo <= x.start && StartsFrom(lo, s)
    ensures StartsFrom(lo, InsertByStart(x, s))
    decreases |s|
  {
    if s != [] && x.start >= s[0].start {
      InsertStartsFrom(lo, x, s[1..]);
      var rest := InsertByStart(x, s[1..]);
      assert InsertByStart(x, s) == [s[0]] + rest;
    }
  }

  /** Inserting into a sorted list keeps it sorted. */
  lemma {:induction false} InsertKeepsSorted(x: Segment, s: seq<Segment>)
    requires SortedByStart(s)
    ensures SortedByStart(InsertByStart(x, s))
    decreases |s|
  {
    if s != [] {
      assert StartsFrom(s[0].start, s[1..]);
      if x.start < s[0].start {
        assert StartsFrom(x.start, s);
        ConsSorted(x, s);
      } else {
        InsertKeepsSorted(x, s[1..]);
        InsertStartsFrom(s[0].start, x, s[1..]);
        ConsSorted(s[0], InsertByStart(x, s[1..]));
      }
    }
  }

  /** Python's stable sort by start, as an insertion sort that places each
      element after the equal-start elements that precede it in the input. */
  function SortByStart(s: seq<Segment>): seq<Segment>
    decreases |s|
  {
    if s == [] then [] else InsertByStart(s[|s| - 1], SortByStart(s[..|s| - 1]))
  }

  /** The sort orders by start and is a permutation of its input. */
  lemma {:induction false} SortByStartSorts(s: seq<Segment>)
    ensures SortedByStart(SortByStart(s))
    ensures multiset(SortByStart(s)) == multiset(s)
    decreases |s|
  {
    if s != [] {
      var init := s[..|s| - 1];
      assert s == init + [s[|s| - 1]];
      SortByStartSorts(init);
      InsertKeepsSorted(s[|s| - 1], SortByStart(init));
    }
  }

  /** The segments of `s` that start at `t`, in their order in `s`. */
  function WithStart(s: seq<Segment>, t: real): seq<Segment>
    decreases |s|
  {
    if s == [] then [] else (if s[0].start == t then [s[0]] else []) + WithStart(s[1..], t)
  }

  /** A segment in front contributes itself exactly when it starts at `t`. */
  lemma WithStartCons(a: Segment, s: seq<Segment>, t: real)
    ensures WithStart([a] + s, t) == (if a.start == t then [a] else []) + WithStart(s, t)
  {
    var l := [a] + s;
    assert l[0] == a && l[1..] == s;
  }

  lemma {:induction false} WithStartAppend(a: seq<Segment>, b: seq<Segment>, t: real)
    ensures WithStart(a + b, t) == WithStart(a, t) + WithStart(b, t)
    decreases |a|
  {
    if a == [] {
      assert a + b == b;
    } else {
      var h := if a[0].start == t then [a[0]] else [];
      WithStartAppend(a[1..], b, t);
      WithStartCons(a[0], a[1..] + b, t);
      WithStartCons(a[0], a[1..], t);
      SplitFirst(a);
      AppendAssoc([a[0]], a[1..], b);
      AppendAssoc(h, WithStart(a[1..], t), WithStart(b, t));
    }
  }

  /** No segment of `s` starts at `t` when all of them start later. */
  lemma {:induction false} NoneStartsAt(t: real, s: seq<Segment>)
    requires forall k :: 0 <= k < |s| ==> t < s[k].start
    ensures WithStart(s, t) == []
    decreases |s|
  {
    if s != [] {
      assert forall k :: 0 <= k < |s[1..]| ==> s[1..][k] == s[k + 1];
      NoneStartsAt(t, s[1..]);
    }
  }

  /** Inserting into a sorted list puts the new segment after every segment
      with the same start. */
  lemma {:induction false} InsertAfterEqual(x: Segment, s: seq<Segment>, t: real)
    requires SortedByStart(s)
    ensures WithStart(InsertByStart(x, s), t) == WithStart(s, t) + (if x.start == t then [x] else [])
    decreases |s|
  {
    var hx := if x.start == t then [x] else [];
    if s == [] {
      WithStartCons(x, [], t);
      assert [x] + [] == [x];
    } else if x.start < s[0].start {
      WithStartCons(x, s, t);
      if x.start == t {
        NoneStartsAt(t, s);
      }
    } else {
      var rest := InsertByStart(x, s[1..]);
      var h := if s[0].start == t then [s[0]] else [];
      assert InsertByStart(x, s) == [s[0]] + rest;
      InsertAfterEqual(x, s[1..], t);
      WithStartCons(s[0], rest, t);
      WithStartCons(s[0], s[1..], t);
      SplitFirst(s);
      AppendAssoc(h, WithStart(s[1..], t), hx);
    }
  }

  /** The sort is stable: for every start time, the segments that start then
      come out in their input order. */
  lemma {:induction false} SortByStartStable(s: seq<Segment>, t: real)
    ensures WithStart(SortByStart(s), t) == WithStart(s, t)
    decreases |s|
  {
    if s != [] {
      var init := s[..|s| - 1];
      var x := s[|s| - 1];
      var sorted := SortByStart(init);
      assert SortByStart(s) == InsertByStart(x, sorted);
      SortByStartStable(init, t);
      SortByStartSorts(init);
      InsertAfterEqual(x, sorted, t);
      SplitLast(s);
      WithStartAppend(init, [x], t);
      WithStartCons(x, [], t);
      assert [x] + [] == [x];
    }
  }

  // ===========================================================================
  // Stage 1: overlap resolution (`resolve_overlaps`)
  // ===========================================================================

  /** One step of the forward scan: compares `seg` with the last emitted
      segment only. No overlap appends `seg`; a nested `seg` splits the last
      segment around itself; a partial overlap truncates the last segment at
      `seg.start` and appends `seg` whole. */
  function ResolveStep(out: seq<Segment>, seg: Segment): seq<Segment> {
    if out == [] then [seg]
    else
      var last := out[|out| - 1];
      var init := out[..|out| - 1];
      if seg.start >= last.end then out + [seg]
      else
        var head := if seg.start > last.start then init + [Segment(last.start, seg.start, last.speaker)] else out;
        if seg.end <= last.end then
          head + [seg] + (if seg.end < last.end then [Segment(seg.end, last.end, last.speaker)] else [])
        else
          head + [seg]
  }
  /** A step adds one or two segments, rewrites at most the last emitted one,
      and ends at the further of the two ends. */
  lemma ResolveStepShape(out: seq<Segment>, seg: Segment)
    ensures var r := ResolveStep(out, seg);
      && (out == [] ==> r == [seg])
      && |out| + 1 <= |r| <= |out| + 2
      && (out != [] ==> r[..|out| - 1] == out[..|out| - 1])
      && (out != [] && seg.start <= seg.end ==> r[|r| - 1].end == Max(out[|out| - 1].end, seg.end))
  {
  }


  /** The scan over an already sorted list. */
  function ResolveScan(s: seq<Segment>): seq<Segment>
    decreases |s|
  {
    if s == [] then [] else ResolveStep(ResolveScan(s[..|s| - 1]), s[|s| - 1])
  }

  lemma ResolveScanStep(s: seq<Segment>, i: nat)
    requires i < |s|
    ensures ResolveScan(s[..i + 1]) == ResolveStep(ResolveScan(s[..i]), s[i])
  {
    var p := s[..i + 1];
    assert p[..|p| - 1] == s[..i];
    assert p[|p| - 1] == s[i];
  }

  /** The body of the scan for one segment, updating the last emitted
      segment in place as the source does. */
  method ResolveInto(output: seq<Segment>, seg: Segment) returns (r: seq<Segment>)
    ensures r == ResolveStep(output, seg)
  {
    r := output;
    if r == [] {
      r := r + [seg];
      return;
    }
    var last := r[|r| - 1];
    if seg.start >= last.end {
      r := r + [seg];
    } else if seg.end <= last.end {
      if seg.start > last.start {
        UpdateLast(r, Segment(last.start, seg.start, last.speaker));
        r := r[|r| - 1 := Segment(last.start, seg.start, last.speaker)];
      }
      r := r + [seg];
      if seg.end < last.end {
        r := r + [Segment(seg.end, last.end, last.speaker)];
      }
    } else {
      if seg.start > last.start {
        UpdateLast(r, Segment(last.start, seg.start, last.speaker));
        r := r[|r| - 1 := Segment(last.start, seg.start, last.speaker)];
      }
      r := r + [seg];
    }
  }

  method ResolveOverlaps(segments: seq<Segment>) returns (output: seq<Segment>)
    ensures output == ResolveScan(SortByStart(segments))
  {
    var sorted := SortByStart(segments);
    output := [];
    var i := 0;
    while i < |sorted|
      invariant 0 <= i <= |sorted|
      invariant output == ResolveScan(sorted[..i])
    {
      ResolveScanStep(sorted, i);
      output := ResolveInto(output, sorted[i]);
      i := i + 1;
    }
    assert sorted[..i] == sorted;
  }

  /** Empty input gives empty output; otherwise each segment after the first
      adds one or two elements. */
  lemma {:induction false} ResolveLength(s: seq<Segment>)
    ensures s == [] ==> ResolveScan(s) == []
    ensures s != [] ==> |s| <= |ResolveScan(s)| <= 2 * |s| - 1
    decreases |s|
  {
    if |s| > 1 {
      ResolveLength(s[..|s| - 1]);
    }
  }

  /** Neighbours that never overlap: each starts at or after the previous end. */
  predicate Chained(s: seq<Segment>) {
    forall i :: 0 < i < |s| ==> s[i - 1].end <= s[i].start
  }

  /** A list whose neighbours never overlap comes back unchanged. */
  lemma {:induction false} ResolveKeepsChained(s: seq<Segment>)
    requires Chained(s)
    ensures ResolveScan(s) == s
    decreases |s|
  {
    if s != [] {
      var p := s[..|s| - 1];
      ResolveKeepsChained(p);
      assert p + [s[|s| - 1]] == s;
    }
  }

  /** So a list whose sorted form is chained is returned sorted and otherwise unchanged. */
  lemma ResolveSortedChained(segments: seq<Segment>)
    requires Chained(SortByStart(segments))
    ensures ResolveScan(SortByStart(segments)) == SortByStart(segments)
  {
    ResolveKeepsChained(SortByStart(segments));
  }

  /** Nested case: the piece before `seg` replaces the last segment only when
      `seg` starts strictly later, the piece after it is emitted only when
      `seg` ends strictly earlier, and both keep the last segment's speaker. */
  lemma NestedCase(out: seq<Segment>, seg: Segment)
    requires out != []
    requires seg.start < out[|out| - 1].end && seg.end <= out[|out| - 1].end
    ensures var last := out[|out| - 1];
      var r := ResolveStep(out, seg);
      && r[|out| - 1] == (if seg.start > last.start then Segment(last.start, seg.start, last.speaker) else last)
      && r[|out|] == seg
      && (|r| == |out| + 2 <==> seg.end < last.end)
      && (seg.end < last.end ==> r[|out| + 1] == Segment(seg.end, last.end, last.speaker))
  {
  }

  /** Partial-overlap case: the last segment is cut at `seg.start` only when
      `seg` starts strictly later, and `seg` is appended with its own times. */
  lemma PartialCase(out: seq<Segment>, seg: Segment)
    requires out != []
    requires seg.start < out[|out| - 1].end < seg.end
    ensures var last := out[|out| - 1];
      var r := ResolveStep(out, seg);
      && |r| == |out| + 1
      && r[|out| - 1] == (if seg.start > last.start then Segment(last.start, seg.start, last.speaker) else last)
      && r[|out|] == seg
  {
  }

  lemma NestedExample()
    ensures ResolveScan([Segment(0.0, 5.0, "A"), Segment(2.0, 3.0, "B")])
         == [Segment(0.0, 2.0, "A"), Segment(2.0, 3.0, "B"), Segment(3.0, 5.0, "A")]
    ensures ResolveScan([Segment(0.0, 10.0, "A"), Segment(3.0, 4.0, "B")])
         == [Segment(0.0, 3.0, "A"), Segment(3.0, 4.0, "B"), Segment(4.0, 10.0, "A")]
  {
    var a := [Segment(0.0, 5.0, "A"), Segment(2.0, 3.0, "B")];
    assert a[..1] == [a[0]] && [a[0]][..0] == [];
    assert ResolveStep([a[0]], a[1]) == [Segment(0.0, 2.0, "A"), Segment(2.0, 3.0, "B"), Segment(3.0, 5.0, "A")];
    var b := [Segment(0.0, 10.0, "A"), Segment(3.0, 4.0, "B")];
    assert b[..1] == [b[0]] && [b[0]][..0] == [];
    assert ResolveStep([b[0]], b[1]) == [Segment(0.0, 3.0, "A"), Segment(3.0, 4.0, "B"), Segment(4.0, 10.0, "A")];
  }

  /** The scan compares with the last emitted element only, so its output need
      not be ordered by start: here the third element starts after the fourth. */
  lemma ResolveNotOrdered()
    ensures var r := ResolveScan([Segment(0.0, 10.0, "A"), Segment(3.0, 8.0, "B"), Segment(4.0, 5.0, "C")]);
      && r == [Segment(0.0, 3.0, "A"), Segment(3.0, 8.0, "B"), Segment(8.0, 10.0, "A"),
               Segment(4.0, 5.0, "C"), Segment(5.0, 10.0, "A")]
      && r[2].start > r[3].start
  {
    var s := [Segment(0.0, 10.0, "A"), Segment(3.0, 8.0, "B"), Segment(4.0, 5.0, "C")];
    assert s[..2][..1] == [s[0]];
    assert ResolveScan([s[0]]) == [s[0]] by {
      assert [s[0]][..0] == [];
    }
    assert s[..2] == [s[0], s[1]];
    var two := [Segment(0.0, 3.0, "A"), Segment(3.0, 8.0, "B"), Segment(8.0, 10.0, "A")];
    assert ResolveStep([s[0]], s[1]) == two;
    assert ResolveScan(s[..2]) == two;
    assert ResolveStep(two, s[2]) == two + [Segment(4.0, 5.0, "C"), Segment(5.0, 10.0, "A")];
  }

  /** `piece` lies inside `seg` and carries its speaker. */
  predicate Within(piece: Segment, seg: Segment) {
    seg.start <= piece.start && piece.end <= seg.end && piece.speaker == seg.speaker
  }

  /** `piece` lies inside some segment of `s`. */
  predicate WithinSome(piece: Segment, s: seq<Segment>) {
    exists j :: 0 <= j < |s| && Within(piece, s[j])
  }

  /** Each piece of `pieces` lies inside some segment of `s`. */
  predicate AllWithin(pieces: seq<Segment>, s: seq<Segment>) {
    forall k :: 0 <= k < |pieces| ==> WithinSome(pieces[k], s)
  }

  /** Every element one step adds lies inside `seg` or inside the segment that
      holds the last emitted element, provided that one starts no later. */
  lemma StepWithin(out: seq<Segment>, seg: Segment, holder: Segment)
    requires out != [] && Within(out[|out| - 1], holder)
    requires holder.start <= seg.start <= seg.end
    ensures var r := ResolveStep(out, seg);
      forall k :: |out| - 1 <= k < |r| ==> r[k] == seg || Within(r[k], holder)
  {
  }

  /** No time is invented and no label is moved: for sorted, well-formed
      input, every output piece lies inside some input segment of the same
      speaker. */
  lemma {:induction false} ResolveWithinInput(s: seq<Segment>)
    requires SortedByStart(s) && WellFormed(s)
    ensures AllWithin(ResolveScan(s), s)
    decreases |s|
  {
    if s != [] {
      var n := |s|;
      var p := s[..n - 1];
      var seg := s[n - 1];
      ResolveWithinInput(p);
      var r0 := ResolveScan(p);
      var r := ResolveScan(s);
      assert r == ResolveStep(r0, seg);
      assert s == p + [seg];
      if r0 == [] {
        assert Within(r[0], s[n - 1]);
      } else {
        assert AllWithin(r0, p);
        assert WithinSome(r0[|r0| - 1], p);
        var j0 :| 0 <= j0 < |p| && Within(r0[|r0| - 1], p[j0]);
        assert s[j0] == p[j0];
        ResolveStepShape(r0, seg);
        StepWithin(r0, seg, s[j0]);
        WithinExtend(r0, r, p, seg, j0);
      }
    }
  }

  /** The pieces a step keeps lie inside what they lay in before, and the new
      ones inside `seg` or inside input segment `j0`. */
  lemma WithinExtend(r0: seq<Segment>, r: seq<Segment>, p: seq<Segment>, seg: Segment, j0: nat)
    requires AllWithin(r0, p) && r0 != [] && j0 < |p|
    requires |r| >= |r0| && r[..|r0| - 1] == r0[..|r0| - 1]
    requires forall k :: |r0| - 1 <= k < |r| ==> r[k] == seg || Within(r[k], p[j0])
    ensures AllWithin(r, p + [seg])
  {
    var s := p + [seg];
    assert |s| == |p| + 1;
    forall k | 0 <= k < |r|
      ensures WithinSome(r[k], s)
    {
      if k < |r0| - 1 {
        var j :| 0 <= j < |p| && Within(r0[k], p[j]);
        assert r[k] == r[..|r0| - 1][k] == r0[k];
        assert s[j] == p[j];
        assert Within(r[k], s[j]);
      } else if r[k] == seg {
        assert s[|p|] == seg;
        assert Within(r[k], s[|p|]);
      } else {
        assert s[j0] == p[j0];
        assert Within(r[k], s[j0]);
      }
    }
  }

  /** The furthest end seen so far. */
  function MaxEnd(s: seq<Segment>): real
    requires s != []
    decreases |s|
  {
    if |s| == 1 then s[0].end else Max(MaxEnd(s[..|s| - 1]), s[|s| - 1].end)
  }

  /** For well-formed input the last emitted element always reaches the
      furthest end seen, so no input time beyond it is lost. */
  lemma {:induction false} ResolveReachesFurthest(s: seq<Segment>)
    requires s != [] && WellFormed(s)
    ensures var r := ResolveScan(s); r != [] && r[|r| - 1].end == MaxEnd(s)
    decreases |s|
  {
    if |s| > 1 {
      var p := s[..|s| - 1];
      ResolveReachesFurthest(p);
    }
  }

  // ===========================================================================
  // Stage 2: role relabelling (the M/R loop)
  // ===========================================================================

  /** The label of a segment whose original id is `id`, given the first
      segment's id `anchor`. */
  function RoleOf(id: string, anchor: string, moderatorFirst: bool): string {
    if id == anchor then "M" else if moderatorFirst then "R" + id else "R"
  }

  function Roles(s: seq<Segment>, moderatorFirst: bool): (r: seq<Segment>)
    ensures |r| == |s|
  {
    if s == [] then []
    else seq(|s|, i requires 0 <= i < |s| => s[i].(speaker := RoleOf(s[i].speaker, s[0].speaker, moderatorFirst)))
  }

  method AssignRoles(segs: seq<Segment>, moderatorFirst: bool) returns (r: seq<Segment>)
    ensures r == Roles(segs, moderatorFirst)
  {
    r := segs;
    if |segs| == 0 {
      return;
    }
    var moderatorId := segs[0].speaker;
    var i := 0;
    while i < |r|
      invariant 0 <= i <= |r| == |segs|
      invariant forall k :: 0 <= k < i ==> r[k] == Roles(segs, moderatorFirst)[k]
      invariant forall k :: i <= k < |r| ==> r[k] == segs[k]
    {
      var seg := r[i];
      if moderatorFirst {
        r := r[i := seg.(speaker := if seg.speaker == moderatorId then "M" else "R" + seg.speaker)];
      } else {
        r := r[i := seg.(speaker := if seg.speaker == moderatorId then "M" else "R")];
      }
      i := i + 1;
    }
  }

  /** Relabelling keeps every time, makes the first segment's speaker "M" and
      every other speaker "R" or "R" followed by its id. */
  lemma RolesShape(s: seq<Segment>, moderatorFirst: bool)
    ensures var r := Roles(s, moderatorFirst);
      && |r| == |s|
      && (forall i :: 0 <= i < |s| ==> r[i].start == s[i].start && r[i].end == s[i].end)
      && (forall i :: 0 <= i < |s| ==> (r[i].speaker == "M" <==> s[i].speaker == s[0].speaker))
      && (forall i :: 0 <= i < |s| && s[i].speaker != s[0].speaker ==>
            r[i].speaker == if moderatorFirst then "R" + s[i].speaker else "R")
  {
    var r := Roles(s, moderatorFirst);
    forall i | 0 <= i < |s| && s[i].speaker != s[0].speaker
      ensures r[i].speaker != "M"
    {
      if moderatorFirst {
        assert r[i].speaker == "R" + s[i].speaker;
        assert r[i].speaker[0] == 'R';
      }
    }
  }

  /** With the flag off there are only two labels. */
  lemma RolesCollapsed(s: seq<Segment>)
    ensures LabelsIn(Roles(s, false), {"M", "R"})
  {
  }

  /** Reads the id back from a label made with the flag on. */
  function IdOfRole(role: string, anchor: string): string {
    if role == "M" || role == [] then anchor else role[1..]
  }

  lemma IdOfRoleInverts(id: string, anchor: string)
    ensures IdOfRole(RoleOf(id, anchor, true), anchor) == id
  {
    if id != anchor {
      assert ("R" + id)[0] == 'R';
      assert ("R" + id)[1..] == id;
    }
  }

  /** With the flag on, two segments share a label exactly when they shared
      an id: respondents stay distinct. */
  lemma RolesDistinguish(s: seq<Segment>, i: nat, j: nat)
    requires i < |s| && j < |s|
    ensures Roles(s, true)[i].speaker == Roles(s, true)[j].speaker <==> s[i].speaker == s[j].speaker
  {
    IdOfRoleInverts(s[i].speaker, s[0].speaker);
    IdOfRoleInverts(s[j].speaker, s[0].speaker);
  }

  // ===========================================================================
  // Stage 3: short-segment absorption (`merge_short_segments`)
  // ===========================================================================

  /** A segment shorter than `minDuration` extends the last emitted segment to
      its own end, whatever its speaker; any other segment is appended. */
  function AbsorbShort(merged: seq<Segment>, seg: Segment, minDuration: real): (r: seq<Segment>)
    requires merged != []
  {
    if seg.end - seg.start < minDuration then
      merged[..|merged| - 1] + [merged[|merged| - 1].(end := seg.end)]
    else
      merged + [seg]
  }

  function MergeShort(s: seq<Segment>, minDuration: real): (r: seq<Segment>)
    ensures |r| <= |s|
    ensures r == [] <==> s == []
    decreases |s|
  {
    if |s| <= 1 then s
    else AbsorbShort(MergeShort(s[..|s| - 1], minDuration), s[|s| - 1], minDuration)
  }

  /** The output starts where the input starts, with its first label, and
      ends where the input ends. */
  lemma {:induction false} MergeShortEnds(s: seq<Segment>, minDuration: real)
    requires s != []
    ensures var r := MergeShort(s, minDuration);
      r[0].start == s[0].start && r[0].speaker == s[0].speaker && r[|r| - 1].end == s[|s| - 1].end
    decreases |s|
  {
    if |s| > 1 {
      var p := s[..|s| - 1];
      MergeShortEnds(p, minDuration);
      assert p[0] == s[0];
    }
  }

  lemma MergeShortStep(s: seq<Segment>, i: nat, minDuration: real)
    requires 1 <= i < |s|
    ensures MergeShort(s[..i + 1], minDuration) == AbsorbShort(MergeShort(s[..i], minDuration), s[i], minDuration)
  {
    var p := s[..i + 1];
    assert p[..|p| - 1] == s[..i];
    assert p[|p| - 1] == s[i];
  }

  method MergeShortSegments(segments: seq<Segment>, minDuration: real) returns (merged: seq<Segment>)
    ensures merged == MergeShort(segments, minDuration)
  {
    if segments == [] {
      return [];
    }
    merged := [segments[0]];
    var i := 1;
    while i < |segments|
      invariant 1 <= i <= |segments|
      invariant merged == MergeShort(segments[..i], minDuration)
    {
      var seg := segments[i];
      var last := merged[|merged| - 1];
      MergeShortStep(segments, i, minDuration);
      if seg.end - seg.start < minDuration {
        // both branches of the source's speaker test do the same
        UpdateLast(merged, last.(end := seg.end));
        merged := merged[|merged| - 1 := last.(end := seg.end)];
      } else {
        merged := merged + [seg];
      }
      i := i + 1;
    }
    assert segments[..i] == segments;
  }

  /** The start and speaker of each element. */
  function Heads(s: seq<Segment>): seq<(real, string)>
    decreases |s|
  {
    if s == [] then [] else Heads(s[..|s| - 1]) + [(s[|s| - 1].start, s[|s| - 1].speaker)]
  }

  lemma {:induction false} HeadsAppend(a: seq<Segment>, b: seq<Segment>)
    ensures Heads(a + b) == Heads(a) + Heads(b)
    decreases |b|
  {
    if b == [] {
      assert a + b == a;
    } else {
      assert (a + b)[..|a + b| - 1] == a + b[..|b| - 1];
      HeadsAppend(a, b[..|b| - 1]);
    }
  }

  /** The segments lasting at least `minDuration`, in order. */
  function LongOnly(s: seq<Segment>, minDuration: real): seq<Segment>
    decreases |s|
  {
    if s == [] then []
    else
      var last := s[|s| - 1];
      LongOnly(s[..|s| - 1], minDuration) + (if last.end - last.start < minDuration then [] else [last])
  }

  lemma HeadsSnoc(a: seq<Segment>, x: Segment)
    ensures Heads(a + [x]) == Heads(a) + [(x.start, x.speaker)]
  {
    DropLast(a, x);
  }

  /** Moving the end of the last element changes no head. */
  lemma HeadsIgnoreEnd(m: seq<Segment>, e: real)
    requires m != []
    ensures Heads(m[..|m| - 1] + [m[|m| - 1].(end := e)]) == Heads(m)
  {
    HeadsSnoc(m[..|m| - 1], m[|m| - 1].(end := e));
    assert m[..|m| - 1] + [m[|m| - 1]] == m;
    HeadsSnoc(m[..|m| - 1], m[|m| - 1]);
  }

  /** One absorption step adds a head exactly when the segment is long. */
  lemma AbsorbShortHeads(m: seq<Segment>, kept: seq<Segment>, seg: Segment, minDuration: real)
    requires m != [] && Heads(m) == Heads(kept)
    ensures Heads(AbsorbShort(m, seg, minDuration))
         == Heads(kept + (if seg.end - seg.start < minDuration then [] else [seg]))
  {
    if seg.end - seg.start < minDuration {
      assert kept + [] == kept;
      HeadsIgnoreEnd(m, seg.end);
    } else {
      HeadsSnoc(m, seg);
      HeadsSnoc(kept, seg);
    }
  }

  lemma LongOnlySnoc(s: seq<Segment>, minDuration: real)
    requires |s| >= 2
    ensures LongOnly(s[1..], minDuration)
         == LongOnly(s[1..|s| - 1], minDuration)
          + (if s[|s| - 1].end - s[|s| - 1].start < minDuration then [] else [s[|s| - 1]])
  {
    assert s[1..][..|s[1..]| - 1] == s[1..|s| - 1];
  }

  /** The output's starts and labels are those of the first segment followed by
      the long ones: a short segment never appears on its own and its label
      is dropped, the absorbing segment keeping its own. */
  lemma {:induction false} MergeShortHeads(s: seq<Segment>, minDuration: real)
    requires s != []
    ensures Heads(MergeShort(s, minDuration)) == Heads([s[0]] + LongOnly(s[1..], minDuration))
    decreases |s|
  {
    if |s| == 1 {
      assert s[1..] == [];
      assert [s[0]] + LongOnly(s[1..], minDuration) == s;
    } else {
      var p := s[..|s| - 1];
      var seg := s[|s| - 1];
      MergeShortHeads(p, minDuration);
      assert p[1..] == s[1..|s| - 1] && p[0] == s[0];
      var long := LongOnly(s[1..|s| - 1], minDuration);
      var kept := [s[0]] + long;
      var added := if seg.end - seg.start < minDuration then [] else [seg];
      LongOnlySnoc(s, minDuration);
      assert MergeShort(s, minDuration) == AbsorbShort(MergeShort(p, minDuration), seg, minDuration);
      AbsorbShortHeads(MergeShort(p, minDuration), kept, seg, minDuration);
      AppendAssoc([s[0]], long, added);
    }
  }

  /** Absorption and appending never bring in a label from outside `labels`. */
  lemma {:induction false} MergeShortLabels(s: seq<Segment>, minDuration: real, labels: set<string>)
    requires LabelsIn(s, labels)
    ensures LabelsIn(MergeShort(s, minDuration), labels)
    decreases |s|
  {
    if |s| > 1 {
      MergeShortLabels(s[..|s| - 1], minDuration, labels);
    }
  }

  // ===========================================================================
  // Stage 4: gap closing (the loop over `shortmerged_segments`)
  // ===========================================================================

  /** `gap > min_duration and gap <= gap_threshold`. */
  predicate GapCloses(gap: real) {
    MinDuration < gap <= GapThreshold
  }

  /** Each segment followed by a closable gap ends where the next one starts. */
  function CloseGaps(s: seq<Segment>): (r: seq<Segment>)
    ensures |r| == |s|
  {
    seq(|s|, i requires 0 <= i < |s| =>
      if i + 1 < |s| && GapCloses(s[i + 1].start - s[i].end) then s[i].(end := s[i + 1].start) else s[i])
  }

  method CloseGapsInPlace(segments: seq<Segment>) returns (out: seq<Segment>)
    ensures out == CloseGaps(segments)
  {
    out := [];
    var i := 0;
    while i < |segments|
      invariant 0 <= i <= |segments| && |out| == i
      invariant forall k :: 0 <= k < i - 1 ==> out[k] == CloseGaps(segments)[k]
      invariant i > 0 ==> out[i - 1] == segments[i - 1]
    {
      var seg := segments[i];
      if i > 0 {
        var prev := out[i - 1];
        var gap := seg.start - prev.end;
        if gap > MinDuration && gap <= GapThreshold {
          out := out[i - 1 := prev.(end := seg.start)];
        }
      }
      out := out + [seg];
      i := i + 1;
    }
  }

  /** Gap closing keeps every start and label and the last segment, and
      moves an end only forward. */
  lemma CloseGapsKeeps(s: seq<Segment>)
    ensures var r := CloseGaps(s);
      && (forall i :: 0 <= i < |s| ==> r[i].start == s[i].start && r[i].speaker == s[i].speaker && r[i].end >= s[i].end)
      && (s != [] ==> r[|s| - 1] == s[|s| - 1])
  {
    var r := CloseGaps(s);
    forall i | 0 <= i < |s|
      ensures r[i].start == s[i].start && r[i].speaker == s[i].speaker && r[i].end >= s[i].end
    {
    }
  }

  /** The end of a segment becomes the next start exactly when the gap
      between them is closable. */
  lemma CloseGapsEnds(s: seq<Segment>)
    ensures var r := CloseGaps(s);
      forall i :: 0 < i < |s| ==>
        r[i - 1].end == if GapCloses(s[i].start - s[i - 1].end) then s[i].start else s[i - 1].end
  {
    var r := CloseGaps(s);
    forall i | 0 < i < |s|
      ensures r[i - 1].end == if GapCloses(s[i].start - s[i - 1].end) then s[i].start else s[i - 1].end
    {
      var j := i - 1;
      assert j + 1 < |s|;
      assert r[j] == if GapCloses(s[j + 1].start - s[j].end) then s[j].(end := s[j + 1].start) else s[j];
    }
  }

  /** Afterwards no closable gap remains. */
  lemma CloseGapsLeavesNone(s: seq<Segment>)
    ensures var r := CloseGaps(s);
      forall i :: 0 < i < |r| ==> !GapCloses(r[i].start - r[i - 1].end)
  {
  }

  lemma CloseGapsIdempotent(s: seq<Segment>)
    ensures CloseGaps(CloseGaps(s)) == CloseGaps(s)
  {
    CloseGapsLeavesNone(s);
  }

  lemma CloseGapsLabels(s: seq<Segment>, labels: set<string>)
    requires LabelsIn(s, labels)
    ensures LabelsIn(CloseGaps(s), labels)
  {
  }

  // ===========================================================================
  // Stage 5: same-speaker merge (`merge_adjacent_segments`)
  // ===========================================================================

  /** Neighbours differ in speaker or are more than `tolerance` apart. */
  predicate Separated(s: seq<Segment>, tolerance: real) {
    forall i :: 0 < i < |s| ==>
      s[i].speaker != s[i - 1].speaker || s[i].start - s[i - 1].end > tolerance
  }

  /** A segment of the last emitted one's speaker starting at most `tolerance`
      after its end extends it to the later of the two ends; any other
      segment is appended. */
  function Coalesce(merged: seq<Segment>, seg: Segment, tolerance: real): seq<Segment>
    requires merged != []
  {
    var last := merged[|merged| - 1];
    if seg.speaker == last.speaker && seg.start - last.end <= tolerance then
      merged[..|merged| - 1] + [last.(end := Max(last.end, seg.end))]
    else
      merged + [seg]
  }

  function MergeAdjacent(s: seq<Segment>, tolerance: real): (r: seq<Segment>)
    ensures |r| <= |s|
    ensures r == [] <==> s == []
    ensures s != [] ==> r[0].start == s[0].start && r[0].speaker == s[0].speaker
    decreases |s|
  {
    if |s| <= 1 then s
    else Coalesce(MergeAdjacent(s[..|s| - 1], tolerance), s[|s| - 1], tolerance)
  }

  /** Merging keeps the last element's start and label, so the pairs behind
      it stay separated, and appends only what the last element leaves apart. */
  lemma CoalesceSeparated(merged: seq<Segment>, seg: Segment, tolerance: real)
    requires merged != [] && Separated(merged, tolerance)
    ensures Separated(Coalesce(merged, seg, tolerance), tolerance)
  {
    var r := Coalesce(merged, seg, tolerance);
    forall i | 0 < i < |r|
      ensures r[i].speaker != r[i - 1].speaker || r[i].start - r[i - 1].end > tolerance
    {
      if i < |merged| {
        assert r[i - 1] == merged[i - 1];
        assert r[i].start == merged[i].start && r[i].speaker == merged[i].speaker;
      }
    }
  }

  /** In the output, neighbours differ in speaker or are more than
      `tolerance` apart. */
  lemma {:induction false} MergeAdjacentSeparated(s: seq<Segment>, tolerance: real)
    ensures Separated(MergeAdjacent(s, tolerance), tolerance)
    decreases |s|
  {
    if |s| > 1 {
      MergeAdjacentSeparated(s[..|s| - 1], tolerance);
      CoalesceSeparated(MergeAdjacent(s[..|s| - 1], tolerance), s[|s| - 1], tolerance);
    }
  }

  lemma MergeAdjacentStep(s: seq<Segment>, i: nat, tolerance: real)
    requires 1 <= i < |s|
    ensures MergeAdjacent(s[..i + 1], tolerance) == Coalesce(MergeAdjacent(s[..i], tolerance), s[i], tolerance)
  {
    var p := s[..i + 1];
    assert p[..|p| - 1] == s[..i];
    assert p[|p| - 1] == s[i];
  }

  method MergeAdjacentSegments(segments: seq<Segment>, tolerance: real) returns (merged: seq<Segment>)
    ensures merged == MergeAdjacent(segments, tolerance)
  {
    if segments == [] {
      return [];
    }
    merged := [segments[0]];
    var i := 1;
    while i < |segments|
      invariant 1 <= i <= |segments|
      invariant merged == MergeAdjacent(segments[..i], tolerance)
    {
      var seg := segments[i];
      var last := merged[|merged| - 1];
      MergeAdjacentStep(segments, i, tolerance);
      if seg.speaker == last.speaker && seg.start - last.end <= tolerance {
        UpdateLast(merged, last.(end := Max(last.end, seg.end)));
        merged := merged[|merged| - 1 := last.(end := Max(last.end, seg.end))];
      } else {
        merged := merged + [seg];
      }
      i := i + 1;
    }
    assert segments[..i] == segments;
  }

  /** A separated list has nothing to merge. */
  lemma {:induction false} MergeAdjacentKeepsSeparated(s: seq<Segment>, tolerance: real)
    requires Separated(s, tolerance)
    ensures MergeAdjacent(s, tolerance) == s
    decreases |s|
  {
    if |s| > 1 {
      var p := s[..|s| - 1];
      MergeAdjacentKeepsSeparated(p, tolerance);
      assert p + [s[|s| - 1]] == s;
    }
  }

  lemma MergeAdjacentIdempotent(s: seq<Segment>, tolerance: real)
    ensures MergeAdjacent(MergeAdjacent(s, tolerance), tolerance) == MergeAdjacent(s, tolerance)
  {
    MergeAdjacentSeparated(s, tolerance);
    MergeAdjacentKeepsSeparated(MergeAdjacent(s, tolerance), tolerance);
  }

  lemma {:induction false} MergeAdjacentLabels(s: seq<Segment>, tolerance: real, labels: set<string>)
    requires LabelsIn(s, labels)
    ensures LabelsIn(MergeAdjacent(s, tolerance), labels)
    decreases |s|
  {
    if |s| > 1 {
      MergeAdjacentLabels(s[..|s| - 1], tolerance, labels);
    }
  }

  // ===========================================================================
  // The pipeline, in the order of `diarize_audio`
  // ===========================================================================

  function ConsolidateSpec(raw: seq<Segment>, moderatorFirst: bool): seq<Segment> {
    MergeAdjacent(CloseGaps(MergeShort(Roles(ResolveScan(SortByStart(raw)), moderatorFirst), MinDuration)), GapTolerance)
  }

  method Consolidate(raw: seq<Segment>, moderatorFirst: bool) returns (segments: seq<Segment>)
    ensures segments == ConsolidateSpec(raw, moderatorFirst)
    ensures segments == [] <==> raw == []
    ensures Separated(segments, GapTolerance)
    ensures !moderatorFirst ==> LabelsIn(segments, {"M", "R"})
  {
    var resolved := ResolveOverlaps(raw);
    var labelled := AssignRoles(resolved, moderatorFirst);
    var absorbed := MergeShortSegments(labelled, MinDuration);
    var closed := CloseGapsInPlace(absorbed);
    segments := MergeAdjacentSegments(closed, GapTolerance);
    ResolveLength(SortByStart(raw));
    MergeAdjacentSeparated(closed, GapTolerance);
    if !moderatorFirst {
      RolesCollapsed(resolved);
      MergeShortLabels(labelled, MinDuration, {"M", "R"});
      CloseGapsLabels(absorbed, {"M", "R"});
      MergeAdjacentLabels(closed, GapTolerance, {"M", "R"});
    }
  }

  /** A short segment between two long ones lends its end to the one before
      it and disappears, label and all. */
  lemma ShortAbsorbed(a: Segment, b: Segment, c: Segment)
    requires b.end - b.start < MinDuration && c.end - c.start >= MinDuration
    ensures MergeShort([a, b, c], MinDuration) == [a.(end := b.end), c]
  {
    var s := [a, b, c];
    assert s[..1] == [a];
    MergeShortStep(s, 1, MinDuration);
    MergeShortStep(s, 2, MinDuration);
    assert s[..3] == s;
  }

  /** Two touching segments of one speaker merge into one. */
  lemma TouchingMerge(x: Segment, c: Segment)
    requires c.speaker == x.speaker && c.start == x.end <= c.end
    ensures MergeAdjacent(CloseGaps([x, c]), GapTolerance) == [x.(end := c.end)]
  {
    var m := [x, c];
    assert CloseGaps(m) == m;
    assert m[..1] == [x];
    MergeAdjacentStep(m, 1, GapTolerance);
    assert m[..2] == m;
  }

  /** A short interjection between two turns of one speaker loses its label
      to the turn before it, and the two turns then merge into one segment
      from the first start to the last end: a moderator turn, a 0.3-second
      response and the moderator again come out as one moderator segment. */
  lemma ShortAbsorbThenMerge(a: Segment, b: Segment, c: Segment)
    requires b.end - b.start < MinDuration && c.end - c.start >= MinDuration
    requires c.speaker == a.speaker && c.start == b.end
    ensures MergeShort([a, b, c], MinDuration) == [a.(end := b.end), c]
    ensures MergeAdjacent(CloseGaps(MergeShort([a, b, c], MinDuration)), GapTolerance) == [a.(end := c.end)]
  {
    ShortAbsorbed(a, b, c);
    TouchingMerge(a.(end := b.end), c);
  }

  /** A one-second gap is closed, and the two moderator pieces then merge. */
  lemma GapCloseExample()
    ensures var s := [Segment(0.0, 2.0, "M"), Segment(3.0, 5.0, "M")];
      && CloseGaps(s) == [Segment(0.0, 3.0, "M"), Segment(3.0, 5.0, "M")]
      && MergeAdjacent(CloseGaps(s), GapTolerance) == [Segment(0.0, 5.0, "M")]
  {
    var c := [Segment(0.0, 3.0, "M"), Segment(3.0, 5.0, "M")];
    assert CloseGaps([Segment(0.0, 2.0, "M"), Segment(3.0, 5.0, "M")]) == c;
    assert c[..1] == [c[0]];
  }
}
