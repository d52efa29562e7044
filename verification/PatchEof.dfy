// Lines without a newline (src/gitclient/domain/patch.py): when the chosen lines, written one
// after the other, are a file that has those lines.
module PatchEof {
  import opened Text
  import opened Wrappers
  import opened Patch
  import opened PatchApply
  import opened PatchReading

  // ----- Lines without a newline in a sequence -----

  ghost predicate OpenAmong(f: File) { exists a :: 0 <= a < |f| && !Ends(f[a]) }

  ghost predicate OpenInside(f: File) { exists a :: 0 <= a < |f| - 1 && !Ends(f[a]) }

  lemma OpenJoin(f: File, g: File)
    ensures OpenAmong(f + g) <==> OpenAmong(f) || OpenAmong(g)
    ensures OpenInside(f + g) <==> OpenInside(g) || (if g == [] then OpenInside(f) else OpenAmong(f))
  {
    if a :| 0 <= a < |f| && !Ends(f[a]) {
      assert (f + g)[a] == f[a];
    }
    if a :| 0 <= a < |g| && !Ends(g[a]) {
      assert (f + g)[|f| + a] == g[a];
    }
    if a :| 0 <= a < |g| - 1 && !Ends(g[a]) {
      assert (f + g)[|f| + a] == g[a];
    }
    if g == [] {
      assert f + g == f;
    }
  }

  lemma OpenOne(line: string)
    ensures OpenAmong([line]) <==> !Ends(line)
    ensures !OpenInside([line]) && !OpenAmong([]) && !OpenInside([])
  {
    if !Ends(line) {
      assert !Ends([line][0]);
    }
  }

  // ----- Chosen lines of a diff -----

  // A line of a diff: its hunk, and its place in the hunk.
  type Coordinate = (nat, nat)

  // The line at p is part of the result.
  predicate ChosenAt(hunks: seq<PatchHunk>, p: Coordinate, sel: Selection, reverse: bool) {
    && p.0 < |hunks| && p.1 < |hunks[p.0].lines|
    && IsChosen(hunks[p.0].lines[p.1], Keeps(sel, p.0, p.1), reverse)
  }

  predicate OpenAt(hunks: seq<PatchHunk>, p: Coordinate) {
    p.0 < |hunks| && p.1 < |hunks[p.0].lines| && !Ends(hunks[p.0].lines[p.1].content)
  }

  predicate Precedes(p: Coordinate, q: Coordinate) { p.0 < q.0 || (p.0 == q.0 && p.1 < q.1) }

  // The line at p has no newline, and the line at q comes after it in the result.
  predicate IsCovered(hunks: seq<PatchHunk>, p: Coordinate, q: Coordinate, sel: Selection, reverse: bool) {
    ChosenAt(hunks, p, sel, reverse) && OpenAt(hunks, p) && ChosenAt(hunks, q, sel, reverse) && Precedes(p, q)
  }

  // In the hunks from k on, a line of the result without a newline has another one after it.
  ghost predicate Covered(hunks: seq<PatchHunk>, k: nat, sel: Selection, reverse: bool) {
    exists p: Coordinate, q: Coordinate :: k <= p.0 && IsCovered(hunks, p, q, sel, reverse)
  }

  ghost predicate Later(hunks: seq<PatchHunk>, k: nat, sel: Selection, reverse: bool) {
    exists p: Coordinate :: k <= p.0 && ChosenAt(hunks, p, sel, reverse)
  }

  ghost predicate SomeIn(hunks: seq<PatchHunk>, k: nat, n: nat, sel: Selection, reverse: bool) {
    exists i: nat :: i < n && ChosenAt(hunks, (k, i), sel, reverse)
  }

  ghost predicate OpenIn(hunks: seq<PatchHunk>, k: nat, n: nat, sel: Selection, reverse: bool) {
    exists i: nat :: i < n && ChosenAt(hunks, (k, i), sel, reverse) && OpenAt(hunks, (k, i))
  }

  ghost predicate CoveredIn(hunks: seq<PatchHunk>, k: nat, n: nat, sel: Selection, reverse: bool) {
    exists i: nat, j: nat :: i < j < n && IsCovered(hunks, (k, i), (k, j), sel, reverse)
  }

  lemma CoveredUnfolds(hunks: seq<PatchHunk>, k: nat, sel: Selection, reverse: bool)
    requires k < |hunks|
    ensures var n := |hunks[k].lines|;
      Covered(hunks, k, sel, reverse)
      <==> (|| CoveredIn(hunks, k, n, sel, reverse)
            || (OpenIn(hunks, k, n, sel, reverse) && Later(hunks, k + 1, sel, reverse))
            || Covered(hunks, k + 1, sel, reverse))
  {
    hide Ends, IsChosen, Keeps;
    var n := |hunks[k].lines|;
    if Covered(hunks, k, sel, reverse) {
      var p: Coordinate, q: Coordinate :| k <= p.0 && IsCovered(hunks, p, q, sel, reverse);
      if p.0 == k {
        assert p == (k, p.1) && q == (q.0, q.1);
      }
    }
    if i: nat, j: nat :| i < j < n && IsCovered(hunks, (k, i), (k, j), sel, reverse) {
      assert k <= (k, i).0;
    }
    if OpenIn(hunks, k, n, sel, reverse) && Later(hunks, k + 1, sel, reverse) {
      var i: nat :| i < n && ChosenAt(hunks, (k, i), sel, reverse) && OpenAt(hunks, (k, i));
      var q: Coordinate :| k + 1 <= q.0 && ChosenAt(hunks, q, sel, reverse);
      assert IsCovered(hunks, (k, i), q, sel, reverse);
    }
  }

  lemma LaterUnfolds(hunks: seq<PatchHunk>, k: nat, sel: Selection, reverse: bool)
    requires k < |hunks|
    ensures Later(hunks, k, sel, reverse)
      <==> SomeIn(hunks, k, |hunks[k].lines|, sel, reverse) || Later(hunks, k + 1, sel, reverse)
  {
    if p: Coordinate :| k <= p.0 && ChosenAt(hunks, p, sel, reverse) {
      assert p == (p.0, p.1);
    }
    if i: nat :| i < |hunks[k].lines| && ChosenAt(hunks, (k, i), sel, reverse) {
      assert k <= (k, i).0;
    }
  }

  // The chosen lines of one hunk.
  lemma {:induction false} ChosenOpens(hunks: seq<PatchHunk>, k: nat, n: nat, sel: Selection, reverse: bool)
    requires k < |hunks| && n <= |hunks[k].lines|
    ensures var c := Chosen(hunks[k].lines, k, n, sel, reverse);
      && (c != [] <==> SomeIn(hunks, k, n, sel, reverse))
      && (OpenAmong(c) <==> OpenIn(hunks, k, n, sel, reverse))
      && (OpenInside(c) <==> CoveredIn(hunks, k, n, sel, reverse))
  {
    hide OpenAmong, OpenInside, IsChosen, Ends, Keeps;
    if n == 0 {
      OpenOne("");
    } else {
      ChosenOpens(hunks, k, n - 1, sel, reverse);
      var c := Chosen(hunks[k].lines, k, n - 1, sel, reverse);
      var last := ChosenOf(hunks[k].lines[n - 1], Keeps(sel, k, n - 1), reverse);
      OpenJoin(c, last);
      OpenOne(hunks[k].lines[n - 1].content);
      assert SomeIn(hunks, k, n, sel, reverse)
        <==> SomeIn(hunks, k, n - 1, sel, reverse) || ChosenAt(hunks, (k, n - 1), sel, reverse);
      assert OpenIn(hunks, k, n, sel, reverse)
        <==> (|| OpenIn(hunks, k, n - 1, sel, reverse)
              || (ChosenAt(hunks, (k, n - 1), sel, reverse) && OpenAt(hunks, (k, n - 1))));
      CoveredGrows(hunks, k, n, sel, reverse);
    }
  }

  lemma CoveredGrows(hunks: seq<PatchHunk>, k: nat, n: nat, sel: Selection, reverse: bool)
    requires 0 < n
    ensures CoveredIn(hunks, k, n, sel, reverse)
      <==> (|| CoveredIn(hunks, k, n - 1, sel, reverse)
            || (OpenIn(hunks, k, n - 1, sel, reverse) && ChosenAt(hunks, (k, n - 1), sel, reverse)))
  {
    hide ChosenAt, OpenAt;
    if i: nat :| i < n - 1 && ChosenAt(hunks, (k, i), sel, reverse) && OpenAt(hunks, (k, i)) {
      assert ChosenAt(hunks, (k, n - 1), sel, reverse) ==> IsCovered(hunks, (k, i), (k, n - 1), sel, reverse);
    }
  }

  // ----- Where such lines are -----

  lemma {:induction false} SideContains(lines: seq<PatchLine>, i: nat, n: nat, reverse: bool) returns (a: nat)
    requires i < n <= |lines| && OnSide(lines[i], reverse)
    ensures a < |Side(lines, n, reverse)| && Side(lines, n, reverse)[a] == lines[i].content
  {
    if i + 1 < n {
      a := SideContains(lines, i, n - 1, reverse);
    } else {
      a := |Side(lines, n - 1, reverse)|;
    }
  }

  // A range of a file that holds a line without a newline reaches the end of the file.
  lemma OpenEndsFile(f: File, s: nat, n: nat, a: nat)
    requires IsFile(f) && s + n <= |f| && a < n && !Ends(f[s..s + n][a])
    ensures s + n == |f|
  {
    assert f[s..s + n][a] == f[s + a];
  }

  // A hunk whose result has such a line ends one of the files.
  lemma OpenHunkEndsAFile(
    hunks: seq<PatchHunk>, k: nat, index: File, i: nat, other: File, o: nat, sel: Selection, reverse: bool)
    requires k < |hunks| && IsDiff(hunks, k, index, i, other, o, reverse) && IsFile(index) && IsFile(other)
    requires OpenIn(hunks, k, |hunks[k].lines|, sel, reverse)
    ensures Begin(hunks[k], reverse) + IndexCount(hunks[k], reverse) == |index|
         || Begin(hunks[k], !reverse) + IndexCount(hunks[k], !reverse) == |other|
  {
    hide IsDiff, FullSide, Begin, IndexCount, IsFile, GoodHunk, OpenAt;
    DiffCons(hunks, k, index, i, other, o, reverse);
    var j: nat :| j < |hunks[k].lines| && ChosenAt(hunks, (k, j), sel, reverse) && OpenAt(hunks, (k, j));
    if OnSide(hunks[k].lines[j], reverse) {
      OpenSideEndsFile(hunks, k, j, index, reverse);
    } else {
      OpenSideEndsFile(hunks, k, j, other, !reverse);
    }
  }

  predicate OnSide(line: PatchLine, reverse: bool) { line.IsContext() || InIndex(line, reverse) }

  lemma OpenSideEndsFile(hunks: seq<PatchHunk>, k: nat, j: nat, f: File, reverse: bool)
    requires k < |hunks| && j < |hunks[k].lines| && OnSide(hunks[k].lines[j], reverse) && OpenAt(hunks, (k, j))
    requires var s, n := Begin(hunks[k], reverse), IndexCount(hunks[k], reverse);
      0 <= s && s + n <= |f| && f[s..s + n] == FullSide(hunks[k], reverse)
    requires IsFile(f)
    ensures Begin(hunks[k], reverse) + IndexCount(hunks[k], reverse) == |f|
  {
    hide Side, Begin, IndexCount, IsFile, Ends;
    var a := SideContains(hunks[k].lines, j, |hunks[k].lines|, reverse);
    OpenEndsFile(f, Begin(hunks[k], reverse), IndexCount(hunks[k], reverse), a);
  }

  // What a diff says about the next hunk, as far as it is needed here.
  lemma NextHunk(hunks: seq<PatchHunk>, k: nat, index: File, i: nat, other: File, o: nat, reverse: bool)
    requires k < |hunks| && IsDiff(hunks, k, index, i, other, o, reverse)
    ensures
      var s, n := Begin(hunks[k], reverse), IndexCount(hunks[k], reverse);
      var t, m := Begin(hunks[k], !reverse), IndexCount(hunks[k], !reverse);
      && i <= s && s + n <= |index| && o <= t && t + m <= |other|
      && index[i..s] == other[o..t]
      && n == |FullSide(hunks[k], reverse)| && m == |FullSide(hunks[k], !reverse)|
      && GoodHunk(hunks[k])
      && IsDiff(hunks, k + 1, index, s + n, other, t + m, reverse)
  {
    DiffCons(hunks, k, index, i, other, o, reverse);
    hide IsDiff, FullSide, GoodHunk, Begin, IndexCount;
  }

  // The lines between the hunks all end in a newline.
  lemma GapIsClosed(hunks: seq<PatchHunk>, k: nat, index: File, i: nat, other: File, o: nat, reverse: bool)
    requires k < |hunks| && IsDiff(hunks, k, index, i, other, o, reverse) && IsFile(index) && IsFile(other)
    ensures i <= Begin(hunks[k], reverse) <= |index| && !OpenAmong(index[i..Begin(hunks[k], reverse)])
  {
    NextHunk(hunks, k, index, i, other, o, reverse);
    hide IsDiff, FullSide, Begin, IndexCount, IsFile, Ends;
    var s, t := Begin(hunks[k], reverse), Begin(hunks[k], !reverse);
    if OpenAmong(index[i..s]) {
      var a :| 0 <= a < |index[i..s]| && !Ends(index[i..s][a]);
      OpenEndsFile(index, i, s - i, a);
      OpenEndsFile(other, o, t - o, a);
      HunkIsNotEmpty(hunks[k], reverse);
    }
  }

  lemma HunkIsNotEmpty(hunk: PatchHunk, reverse: bool)
    requires GoodHunk(hunk)
    ensures FullSide(hunk, reverse) != [] || FullSide(hunk, !reverse) != []
  {
    if FullSide(hunk, !reverse) == [] {
      KeptHunkIsNotEmpty(hunk, reverse);
    }
  }

  // Past the end of one of the files only chosen lines are left.
  lemma {:induction false} RestIsChosen(
    hunks: seq<PatchHunk>, k: nat, index: File, i: nat, other: File, o: nat, sel: Selection, reverse: bool)
    requires k <= |hunks| && IsDiff(hunks, k, index, i, other, o, reverse) && (i == |index| || o == |other|)
    ensures Outcome(hunks, k, index, i, sel, reverse) != [] <==> Later(hunks, k, sel, reverse)
    decreases |hunks| - k
  {
    hide IsDiff, Outcome, Begin, IndexCount, FullSide, GoodHunk, SomeIn, Chosen, ChosenAt;
    if k == |hunks| {
      AtEnd(hunks, index, i, other, o, sel, reverse, 0);
      NothingLater(hunks, sel, reverse);
    } else {
      NextHunk(hunks, k, index, i, other, o, reverse);
      var s, n := Begin(hunks[k], reverse), IndexCount(hunks[k], reverse);
      var t, m := Begin(hunks[k], !reverse), IndexCount(hunks[k], !reverse);
      RestIsChosen(hunks, k + 1, index, s + n, other, t + m, sel, reverse);
      OutcomeCons(hunks, k, index, i, sel, reverse);
      ChosenOpens(hunks, k, |hunks[k].lines|, sel, reverse);
      LaterUnfolds(hunks, k, sel, reverse);
      assert |index[i..s]| == |other[o..t]| == 0;
    }
  }

  lemma NothingLater(hunks: seq<PatchHunk>, sel: Selection, reverse: bool)
    ensures !Later(hunks, |hunks|, sel, reverse) && !Covered(hunks, |hunks|, sel, reverse)
  {
  }

  lemma FileHasNoneInside(f: File, i: nat)
    requires IsFile(f) && i <= |f|
    ensures !OpenInside(f[i..])
  {
  }

  lemma {:induction false} OpenInsideIff(
    hunks: seq<PatchHunk>, k: nat, index: File, i: nat, other: File, o: nat, sel: Selection, reverse: bool)
    requires k <= |hunks| && IsDiff(hunks, k, index, i, other, o, reverse) && IsFile(index) && IsFile(other)
    ensures OpenInside(Outcome(hunks, k, index, i, sel, reverse)) <==> Covered(hunks, k, sel, reverse)
    decreases |hunks| - k
  {
    hide IsDiff, Outcome, Begin, IndexCount, FullSide, GoodHunk, SomeIn, OpenIn, CoveredIn, Covered, Later, Chosen,
      ChosenAt, OpenInside, OpenAmong, IsFile;
    if k == |hunks| {
      AtEnd(hunks, index, i, other, o, sel, reverse, 0);
      NothingLater(hunks, sel, reverse);
      FileHasNoneInside(index, i);
    } else {
      NextHunk(hunks, k, index, i, other, o, reverse);
      var s, n := Begin(hunks[k], reverse), IndexCount(hunks[k], reverse);
      var t, m := Begin(hunks[k], !reverse), IndexCount(hunks[k], !reverse);
      OpenInsideIff(hunks, k + 1, index, s + n, other, t + m, sel, reverse);
      GapIsClosed(hunks, k, index, i, other, o, reverse);
      if OpenIn(hunks, k, |hunks[k].lines|, sel, reverse) {
        OpenHunkEndsAFile(hunks, k, index, i, other, o, sel, reverse);
        RestIsChosen(hunks, k + 1, index, s + n, other, t + m, sel, reverse);
      }
      var gap, c := index[i..s], FullChosen(hunks[k], k, sel, reverse);
      var rest := Outcome(hunks, k + 1, index, s + n, sel, reverse);
      OutcomeCons(hunks, k, index, i, sel, reverse);
      ChosenOpens(hunks, k, |hunks[k].lines|, sel, reverse);
      CoveredUnfolds(hunks, k, sel, reverse);
      ThreeParts(gap, c, rest);
      CoveredIsOpen(hunks, k, |hunks[k].lines|, sel, reverse);
    }
  }

  lemma CoveredIsOpen(hunks: seq<PatchHunk>, k: nat, n: nat, sel: Selection, reverse: bool)
    ensures CoveredIn(hunks, k, n, sel, reverse) ==> OpenIn(hunks, k, n, sel, reverse)
  {
    hide ChosenAt, OpenAt;
    if i: nat, j: nat :| i < j < n && IsCovered(hunks, (k, i), (k, j), sel, reverse) {
      assert ChosenAt(hunks, (k, i), sel, reverse);
    }
  }

  lemma InsideIsAmong(f: File)
    ensures OpenInside(f) ==> OpenAmong(f)
  {
  }

  lemma ThreeParts(gap: File, c: File, rest: File)
    requires !OpenAmong(gap)
    ensures OpenInside(gap + c + rest) <==> OpenInside(rest) || (if rest == [] then OpenInside(c) else OpenAmong(c))
    ensures rest == [] ==> !OpenInside(rest)
  {
    OpenJoin(gap, c);
    OpenJoin(gap + c, rest);
    InsideIsAmong(gap);
    if c == [] {
      OpenOne("");
    }
  }

  // ----- The result as a file -----

  lemma {:induction false} ChosenAreLines(lines: seq<PatchLine>, h: nat, n: nat, sel: Selection, reverse: bool)
    requires n <= |lines| && CleanLines(lines)
    ensures forall x :: x in Chosen(lines, h, n, sel, reverse) ==> IsLine(x)
  {
    hide IsLine, Ends;
    if n > 0 {
      ChosenAreLines(lines, h, n - 1, sel, reverse);
      assert CleanAt(lines, n - 1);
    }
  }

  lemma {:induction false} OutcomeIsLines(
    hunks: seq<PatchHunk>, k: nat, index: File, i: nat, other: File, o: nat, sel: Selection, reverse: bool)
    requires k <= |hunks| && IsDiff(hunks, k, index, i, other, o, reverse) && AllClean(hunks)
    requires forall x :: x in index ==> IsLine(x)
    ensures forall x :: x in Outcome(hunks, k, index, i, sel, reverse) ==> IsLine(x)
    decreases |hunks| - k
  {
    hide IsDiff, Outcome, Begin, IndexCount, FullSide, GoodHunk, CleanLines, IsLine, Chosen;
    if k == |hunks| {
      AtEnd(hunks, index, i, other, o, sel, reverse, 0);
    } else {
      NextHunk(hunks, k, index, i, other, o, reverse);
      var s, n := Begin(hunks[k], reverse), IndexCount(hunks[k], reverse);
      var t, m := Begin(hunks[k], !reverse), IndexCount(hunks[k], !reverse);
      OutcomeIsLines(hunks, k + 1, index, s + n, other, t + m, sel, reverse);
      OutcomeCons(hunks, k, index, i, sel, reverse);
      ChosenAreLines(hunks[k].lines, k, |hunks[k].lines|, sel, reverse);
    }
  }

  // Main result on line ends. The file that is written has exactly the chosen lines unless one of
  // them lacks a newline and is not the last: an unselected last line of the index, kept in front
  // of a selected line of the other side, is then glued to it.
  lemma ResultIsReadBackIff(hunks: seq<PatchHunk>, index: string, other: string, sel: Selection, reverse: bool)
    requires IsDiff(hunks, 0, SplitKeep(index), 0, SplitKeep(other), 0, reverse) && AllClean(hunks)
    ensures var f := Outcome(hunks, 0, SplitKeep(index), 0, sel, reverse);
      SplitKeep(Concat(f)) == f <==> !Covered(hunks, 0, sel, reverse)
  {
    hide IsDiff, Outcome, SplitKeep, Concat, Covered, AllClean;
    var f := Outcome(hunks, 0, SplitKeep(index), 0, sel, reverse);
    SplitIsFile(index);
    SplitIsFile(other);
    OpenInsideIff(hunks, 0, SplitKeep(index), 0, SplitKeep(other), 0, sel, reverse);
    OutcomeIsLines(hunks, 0, SplitKeep(index), 0, SplitKeep(other), 0, sel, reverse);
    FileIff(f);
    SplitBackIff(f);
  }

  lemma FileIff(f: File)
    requires forall x :: x in f ==> IsLine(x)
    ensures IsFile(f) <==> !OpenInside(f)
  {
  }

  // It happens: a last line x without a newline is replaced by a line y with one, and only the
  // addition is selected. The guard lets that pass, and the result has x in front of y.
  lemma OpenLineIsKept(hunk: PatchHunk, x: string, y: string)
    requires IsLine(x) && !Ends(x) && IsLine(y) && Ends(y)
    requires hunk == PatchHunk(1, 1, 1, 1,
      [PatchLine('-', x, Some(1), None), PatchLine('>', MARKER, None, None), PatchLine('+', y, None, Some(1))])
    ensures IsDiff([hunk], 0, [x], 0, [y], 0, false) && AllClean([hunk])
    ensures GuardAccepts([hunk], 0, Some({(0, 2)}))
    ensures Outcome([hunk], 0, [x], 0, Some({(0, 2)}), false) == [x, y]
    ensures Covered([hunk], 0, Some({(0, 2)}), false)
  {
    var sel := Some({(0 as nat, 2 as nat)});
    hide *;
    ReplacedLine(hunk.lines, sel);
    ReplacedIsClean(hunk, sel);
    OneHunk(hunk, x, y, sel);
  }

  lemma ReplacedLine(lines: seq<PatchLine>, sel: Selection)
    requires |lines| == 3 && lines[0].origin == '-' && lines[1].origin == '>' && lines[2].origin == '+'
    requires sel == Some({(0, 2)})
    ensures Side(lines, 3, false) == [lines[0].content] && Side(lines, 3, true) == [lines[2].content]
    ensures Chosen(lines, 0, 3, sel, false) == [lines[0].content, lines[2].content]
    ensures !GuardRejects(lines, 0, sel)
  {
    assert Side(lines, 1, false) == [lines[0].content] && Side(lines, 1, true) == [];
    assert Chosen(lines, 0, 1, sel, false) == [lines[0].content] == Chosen(lines, 0, 2, sel, false);
    assert RunEnd(lines, 3) == 3 && RunEnd(lines, 2) == 3 && RunEnd(lines, 1) == 3 && RunEnd(lines, 0) == 3;
    assert Pick(lines, 0, 1, '-') == [lines[0]] == Pick(lines, 0, 2, '-') == Pick(lines, 0, 3, '-');
    assert |BlocksFrom(lines, 0)| == 1;
  }

  lemma ReplacedIsClean(hunk: PatchHunk, sel: Selection)
    requires var lines := hunk.lines;
      && |lines| == 3 && lines[0].origin == '-' && lines[1].origin == '>' && lines[2].origin == '+'
      && IsLine(lines[0].content) && !Ends(lines[0].content) && lines[1].content == MARKER
      && IsLine(lines[2].content) && Ends(lines[2].content)
    requires sel == Some({(0, 2)})
    ensures CleanLines(hunk.lines) && GoodHunk(hunk) && Covered([hunk], 0, sel, false)
  {
    assert CleanAt(hunk.lines, 0) && CleanAt(hunk.lines, 1) && CleanAt(hunk.lines, 2);
    assert hunk.lines[0].IsChange();
    assert IsCovered([hunk], (0, 0), (0, 2), sel, false);
  }

  lemma OneHunk(hunk: PatchHunk, x: string, y: string, sel: Selection)
    requires hunk.oldStart == hunk.oldLines == hunk.newStart == hunk.newLines == 1 && |hunk.lines| == 3
    requires GoodHunk(hunk) && CleanLines(hunk.lines) && !GuardRejects(hunk.lines, 0, sel)
    requires Side(hunk.lines, 3, false) == [x] && Side(hunk.lines, 3, true) == [y]
    requires Chosen(hunk.lines, 0, 3, sel, false) == [x, y]
    ensures IsDiff([hunk], 0, [x], 0, [y], 0, false) && Outcome([hunk], 0, [x], 0, sel, false) == [x, y]
    ensures AllClean([hunk]) && GuardAccepts([hunk], 0, sel)
  {
    hide GoodHunk, Side, Chosen, CleanLines, GuardRejects;
    assert IsDiff([hunk], 1, [x], 1, [y], 1, false);
    OutcomeCons([hunk], 0, [x], 0, sel, false);
    assert Outcome([hunk], 1, [x], 1, sel, false) == [];
  }
}
