// What the emitted patch means: strict application, without fuzz, of the emitted hunks to the
// index gives the chosen result (src/gitclient/domain/patch.py).
//
// A file is its sequence of raw lines; a line without a final newline is a line whose text does
// not end in one. `reverse` says which side of the diff the index is on: the old side when
// staging, the new side when unstaging.
module PatchApply {
  import opened Wrappers
  import opened Patch

  type File = seq<string>

  const MARKER := "\n\\ No newline at end of file\n"

  // ----- A diff between two files -----

  function Only(b: bool, text: string): seq<string> { if b then [text] else [] }

  // What one line contributes to the index side of the diff.
  function SideOf(line: PatchLine, reverse: bool): seq<string> {
    Only(line.IsContext() || InIndex(line, reverse), line.content)
  }

  // The lines, among the first n, that the index side of the diff has.
  function Side(lines: seq<PatchLine>, n: nat, reverse: bool): seq<string>
    requires n <= |lines|
  {
    if n == 0 then []
    else Side(lines, n - 1, reverse) + SideOf(lines[n - 1], reverse)
  }

  function FullSide(hunk: PatchHunk, reverse: bool): seq<string> {
    Side(hunk.lines, |hunk.lines|, reverse)
  }

  function IndexCount(hunk: PatchHunk, reverse: bool): nat {
    if reverse then hunk.newLines else hunk.oldLines
  }

  // The number of file lines before the range a header names. An empty range names the line
  // before it, a non-empty one its first line.
  function Before(start: int, count: nat): int {
    if count == 0 then start else start - 1
  }

  function Begin(hunk: PatchHunk, reverse: bool): int {
    Before(IndexStart(hunk, reverse), IndexCount(hunk, reverse))
  }

  ghost predicate GoodHunk(hunk: PatchHunk) {
    && (forall i :: 0 <= i < |hunk.lines| ==> hunk.lines[i].IsKnown())
    && (forall i :: 0 <= i < |hunk.lines| && hunk.lines[i].IsMarker() ==> hunk.lines[i].content == MARKER)
    && exists i :: 0 <= i < |hunk.lines| && hunk.lines[i].IsChange()
  }

  // The hunks from k on lead from the rest of `index` (from i) to the rest of `other` (from o):
  // ordered and disjoint, counts and contents agree with both files, and so do the gaps.
  ghost predicate IsDiff(hunks: seq<PatchHunk>, k: nat, index: File, i: nat, other: File, o: nat, reverse: bool)
    requires k <= |hunks|
    decreases |hunks| - k
  {
    if k == |hunks| then i <= |index| && o <= |other| && index[i..] == other[o..]
    else
      var s, t := Begin(hunks[k], reverse), Begin(hunks[k], !reverse);
      var n, m := IndexCount(hunks[k], reverse), IndexCount(hunks[k], !reverse);
      && i <= s && s + n <= |index| && o <= t && t + m <= |other|
      && GoodHunk(hunks[k])
      && index[i..s] == other[o..t]
      && index[s..s + n] == FullSide(hunks[k], reverse)
      && other[t..t + m] == FullSide(hunks[k], !reverse)
      && IsDiff(hunks, k + 1, index, s + n, other, t + m, reverse)
  }

  // A diff read backwards is a diff in the other direction.
  lemma {:induction false} DiffMirrors(
    hunks: seq<PatchHunk>, k: nat, index: File, i: nat, other: File, o: nat, reverse: bool)
    requires k <= |hunks| && IsDiff(hunks, k, index, i, other, o, reverse)
    ensures IsDiff(hunks, k, other, o, index, i, !reverse)
    decreases |hunks| - k
  {
    hide GoodHunk, Begin, IndexCount, FullSide;
    if k < |hunks| {
      var s, t := Begin(hunks[k], reverse), Begin(hunks[k], !reverse);
      DiffMirrors(hunks, k + 1, index, s + IndexCount(hunks[k], reverse),
                  other, t + IndexCount(hunks[k], !reverse), reverse);
    }
  }

  // ----- The result the user asked for -----

  // Context stays, an unselected index line stays, a selected line of the other side comes in.
  predicate IsChosen(line: PatchLine, keep: bool, reverse: bool) {
    line.IsContext() || (line.IsChange() && InIndex(line, reverse) != keep)
  }

  function ChosenOf(line: PatchLine, keep: bool, reverse: bool): seq<string> {
    Only(IsChosen(line, keep, reverse), line.content)
  }

  function Chosen(lines: seq<PatchLine>, h: nat, n: nat, sel: Selection, reverse: bool): seq<string>
    requires n <= |lines|
  {
    if n == 0 then []
    else Chosen(lines, h, n - 1, sel, reverse) + ChosenOf(lines[n - 1], Keeps(sel, h, n - 1), reverse)
  }

  function FullChosen(hunk: PatchHunk, h: nat, sel: Selection, reverse: bool): seq<string> {
    Chosen(hunk.lines, h, |hunk.lines|, sel, reverse)
  }

  // The rest of the index from line i on, with each hunk replaced by its chosen lines.
  function Outcome(hunks: seq<PatchHunk>, k: nat, index: File, i: nat, sel: Selection, reverse: bool): File
    requires k <= |hunks|
    decreases |hunks| - k
  {
    if k == |hunks| then (if i <= |index| then index[i..] else [])
    else
      var s := Begin(hunks[k], reverse);
      (if i <= s <= |index| then index[i..s] else [])
      + FullChosen(hunks[k], k, sel, reverse)
      + (if s < 0 then [] else Outcome(hunks, k + 1, index, s + IndexCount(hunks[k], reverse), sel, reverse))
  }

  // ----- Strict application -----

  // The old-side and the new-side line of one body entry; a marker has neither.
  function PreOf(entry: string): seq<string> {
    if entry != "" && (entry[0] == ' ' || entry[0] == '-') then [entry[1..]] else []
  }

  function PostOf(entry: string): seq<string> {
    if entry != "" && (entry[0] == ' ' || entry[0] == '+') then [entry[1..]] else []
  }

  function PreImage(body: seq<string>): seq<string> {
    if body == [] then [] else PreImage(body[..|body| - 1]) + PreOf(body[|body| - 1])
  }

  function PostImage(body: seq<string>): seq<string> {
    if body == [] then [] else PostImage(body[..|body| - 1]) + PostOf(body[|body| - 1])
  }

  predicate LegalEntry(entry: string) { entry == MARKER || (entry != "" && IsTag(entry[0])) }

  predicate LegalBody(body: seq<string>) { forall j :: 0 <= j < |body| ==> LegalEntry(body[j]) }

  // Applies the hunks to the rest of the file from line i, after `written` result lines. Fails
  // unless every count, every position and every context and deleted line is exact. An empty
  // result range has no first line to number; `numberEmpty` asks for the line before it, as the
  // unified format of POSIX.1-2017 does.
  function StrictApply(os: seq<OutHunk>, index: File, i: nat, written: nat, numberEmpty: bool): Option<File> {
    if os == [] then (if i <= |index| then Some(index[i..]) else None)
    else
      var o := os[0];
      var s := Before(o.oldStart, o.oldCount);
      if !(i <= s && s + o.oldCount <= |index|) then None
      else if !LegalBody(o.body) || |PreImage(o.body)| != o.oldCount || |PostImage(o.body)| != o.newCount then None
      else if index[s..s + o.oldCount] != PreImage(o.body) then None
      else
        var above := written + (s - i);
        if (o.newCount > 0 || numberEmpty) && Before(o.newStart, o.newCount) != above then None
        else
          var rest := StrictApply(os[1..], index, s + o.oldCount, above + o.newCount, numberEmpty);
          if rest.None? then None else Some(index[i..s] + PostImage(o.body) + rest.value)
  }

  // ----- One hunk -----

  lemma ImagesGrow(body: seq<string>, entry: string)
    ensures PreImage(body + [entry]) == PreImage(body) + PreOf(entry)
    ensures PostImage(body + [entry]) == PostImage(body) + PostOf(entry)
  {
    assert (body + [entry])[..|body + [entry]| - 1] == body;
  }

  // One line: what it emits stands for it on both sides.
  lemma EntrySides(lines: seq<PatchLine>, h: nat, i: nat, sel: Selection, reverse: bool)
    requires i < |lines| && (lines[i].IsMarker() ==> lines[i].content == MARKER)
    ensures var e := Entry(lines, h, i, sel, reverse);
      var keep := Keeps(sel, h, i);
      && (e.None? ==> SideOf(lines[i], reverse) == [] == ChosenOf(lines[i], keep, reverse))
      && (e.Some? ==>
            && LegalEntry(e.value)
            && SideOf(lines[i], reverse) == PreOf(e.value) && ChosenOf(lines[i], keep, reverse) == PostOf(e.value)
            && |PreOf(e.value)| == Count(!lines[i].IsMarker() && e.value != "" && e.value[0] != '+')
            && |PostOf(e.value)| == Count(!lines[i].IsMarker() && e.value != "" && e.value[0] != '-'))
  {
  }

  ghost predicate Stands(b: Build, side: seq<string>, chosen: seq<string>) {
    && LegalBody(b.body)
    && PreImage(b.body) == side && b.oldCount == |side|
    && PostImage(b.body) == chosen && b.newCount == |chosen|
  }

  lemma StandsGrows(b: Build, side: seq<string>, chosen: seq<string>, line: PatchLine, e: Option<string>)
    requires Stands(b, side, chosen)
    requires e.Some? ==> LegalEntry(e.value)
    requires e.Some? ==> |PreOf(e.value)| == Count(!line.IsMarker() && e.value != "" && e.value[0] != '+')
    requires e.Some? ==> |PostOf(e.value)| == Count(!line.IsMarker() && e.value != "" && e.value[0] != '-')
    ensures Stands(Extend(b, line, e),
                   side + if e.Some? then PreOf(e.value) else [],
                   chosen + if e.Some? then PostOf(e.value) else [])
  {
    if e.Some? {
      ImagesGrow(b.body, e.value);
    }
  }

  lemma NothingStands()
    ensures Stands(Build(0, 0, []), [], [])
  {
  }

  // Whatever was selected, the old side of the body is the index side of the diff; its new side
  // is the chosen lines; and the counters count exactly them.
  lemma {:induction false} BodySides(lines: seq<PatchLine>, h: nat, n: nat, sel: Selection, reverse: bool)
    requires n <= |lines|
    requires forall i :: 0 <= i < n && lines[i].IsMarker() ==> lines[i].content == MARKER
    ensures Stands(BuildOf(lines, h, n, sel, reverse), Side(lines, n, reverse), Chosen(lines, h, n, sel, reverse))
  {
    hide Entry, PreOf, PostOf, SideOf, ChosenOf, LegalEntry, Stands, Extend;
    if n == 0 {
      NothingStands();
    } else {
      BodySides(lines, h, n - 1, sel, reverse);
      EntrySides(lines, h, n - 1, sel, reverse);
      StandsGrows(BuildOf(lines, h, n - 1, sel, reverse), Side(lines, n - 1, reverse),
                  Chosen(lines, h, n - 1, sel, reverse), lines[n - 1], Entry(lines, h, n - 1, sel, reverse));
    }
  }

  predicate SelectsChange(lines: seq<PatchLine>, h: nat, n: nat, sel: Selection)
    requires n <= |lines|
  {
    exists i: nat :: i < n && lines[i].IsChange() && Keeps(sel, h, i)
  }

  lemma HasChangeGrows(body: seq<string>, entry: string)
    ensures HasChange(body + [entry]) <==> HasChange(body) || StartsChange(entry)
  {
    var longer := body + [entry];
    if HasChange(body) {
      var i :| 0 <= i < |body| && StartsChange(body[i]);
      assert StartsChange(longer[i]);
    }
    if StartsChange(entry) {
      assert StartsChange(longer[|body|]);
    }
  }

  lemma EmptyHasNoChange()
    ensures !HasChange([])
  {
  }

  lemma EntryStartsChange(lines: seq<PatchLine>, h: nat, i: nat, sel: Selection, reverse: bool)
    requires i < |lines| && (lines[i].IsMarker() ==> lines[i].content == MARKER)
    ensures var e := Entry(lines, h, i, sel, reverse);
      (e.Some? && StartsChange(e.value)) <==> (lines[i].IsChange() && Keeps(sel, h, i))
  {
  }

  // A hunk is emitted exactly when one of its change lines is selected.
  lemma {:induction false} EmittedIffSelected(lines: seq<PatchLine>, h: nat, n: nat, sel: Selection, reverse: bool)
    requires n <= |lines|
    requires forall i :: 0 <= i < n && lines[i].IsMarker() ==> lines[i].content == MARKER
    ensures HasChange(BuildOf(lines, h, n, sel, reverse).body) <==> SelectsChange(lines, h, n, sel)
  {
    hide HasChange, Entry, Keeps, StartsChange;
    if n == 0 {
      EmptyHasNoChange();
    } else {
      EmittedIffSelected(lines, h, n - 1, sel, reverse);
      var e := Entry(lines, h, n - 1, sel, reverse);
      if e.Some? {
        HasChangeGrows(BuildOf(lines, h, n - 1, sel, reverse).body, e.value);
      }
      EntryStartsChange(lines, h, n - 1, sel, reverse);
      assert SelectsChange(lines, h, n, sel)
        <==> SelectsChange(lines, h, n - 1, sel) || (lines[n - 1].IsChange() && Keeps(sel, h, n - 1));
    }
  }

  lemma {:induction false} NothingSelectedKeepsSide(lines: seq<PatchLine>, h: nat, n: nat, sel: Selection, reverse: bool)
    requires n <= |lines|
    requires !SelectsChange(lines, h, n, sel)
    ensures Chosen(lines, h, n, sel, reverse) == Side(lines, n, reverse)
  {
    if n > 0 {
      NothingSelectedKeepsSide(lines, h, n - 1, sel, reverse);
    }
  }

  lemma {:induction false} EverythingSelectedGivesOtherSide(
    lines: seq<PatchLine>, h: nat, n: nat, sel: Selection, reverse: bool)
    requires n <= |lines|
    requires forall i :: 0 <= i < n && lines[i].IsChange() ==> Keeps(sel, h, i)
    ensures Chosen(lines, h, n, sel, reverse) == Side(lines, n, !reverse)
  {
    if n > 0 {
      EverythingSelectedGivesOtherSide(lines, h, n - 1, sel, reverse);
    }
  }

  lemma {:induction false} OppositeSelectionsAgree(lines: seq<PatchLine>, h: nat, n: nat, sel: Selection, opp: Selection, reverse: bool)
    requires n <= |lines|
    requires forall i :: 0 <= i < n && lines[i].IsChange() ==> Keeps(sel, h, i) != Keeps(opp, h, i)
    ensures Chosen(lines, h, n, sel, reverse) == Chosen(lines, h, n, opp, !reverse)
  {
    if n > 0 {
      OppositeSelectionsAgree(lines, h, n - 1, sel, opp, reverse);
    }
  }

  // ----- The whole patch -----

  // The hunks from k on whose chosen result is empty sit at the very top of the result.
  // `drift` is the number of lines the earlier hunks added to the result.
  predicate EmptyOnlyAtTop(hunks: seq<PatchHunk>, k: nat, sel: Selection, reverse: bool, drift: int)
    requires k <= |hunks|
    decreases |hunks| - k
  {
    k == |hunks|
    || (var b := FullBuild(hunks[k], k, sel, reverse);
        && (HasChange(b.body) && b.newCount == 0 ==> Begin(hunks[k], reverse) + drift == 0)
        && EmptyOnlyAtTop(hunks, k + 1, sel, reverse, drift + b.newCount - b.oldCount))
  }

  lemma PlaceCons(hunks: seq<PatchHunk>, k: nat, b: Build, rest: seq<(nat, Build)>, reverse: bool, offset: int)
    requires k < |hunks| && NumbersHunks(rest, hunks)
    ensures NumbersHunks([(k, b)] + rest, hunks)
    ensures Place(hunks, [(k, b)] + rest, reverse, offset)
         == [PlaceOne(hunks[k], b, reverse, offset)]
            + Place(hunks, rest, reverse, offset + b.newCount - b.oldCount)
  {
    assert ([(k, b)] + rest)[1..] == rest;
  }

  // One hunk whose body stands for the index lines at its position, in front of the others.
  lemma ApplyCons(
    hunk: PatchHunk, b: Build, reverse: bool, index: File, i: nat, written: nat, numberEmpty: bool,
    chosen: seq<string>, tail: seq<OutHunk>)
    requires var s, n := Begin(hunk, reverse), IndexCount(hunk, reverse);
      && i <= s && s + n <= |index| && n == |index[s..s + n]| && Stands(b, index[s..s + n], chosen)
    ensures var s, n := Begin(hunk, reverse), IndexCount(hunk, reverse);
      var rest := StrictApply(tail, index, s + n, written + (s - i) + |chosen|, numberEmpty);
      StrictApply([PlaceOne(hunk, b, reverse, written - i)] + tail, index, i, written, numberEmpty)
      == if numberEmpty && |chosen| == 0 && s + (written - i) != 0 then None
         else if rest.None? then None
         else Some(index[i..s] + chosen + rest.value)
  {
    hide PreImage, PostImage, LegalBody;
    var head := PlaceOne(hunk, b, reverse, written - i);
    assert ([head] + tail)[0] == head && ([head] + tail)[1..] == tail;
  }

  // The emitted hunks from k on apply at their stated positions, wherever between the last
  // emitted hunk (line i) and hunk k (line j) the reading stands.
  ghost predicate Applies(
    hunks: seq<PatchHunk>, k: nat, index: File, i: nat, j: nat, sel: Selection, reverse: bool,
    written: nat, numberEmpty: bool)
    requires k <= |hunks|
  {
    && i <= j <= |index|
    && StrictApply(Place(hunks, BuildsFrom(hunks, k, sel, reverse), reverse, written - i), index, i, written, numberEmpty)
       == if numberEmpty && !EmptyOnlyAtTop(hunks, k, sel, reverse, written - i) then None
          else Some(index[i..j] + Outcome(hunks, k, index, j, sel, reverse))
  }

  // Hunk k reads the index at s, j lines below which the reading of the diff stood.
  ghost predicate Located(hunk: PatchHunk, k: nat, index: File, i: nat, j: nat, sel: Selection, reverse: bool) {
    var s, n := Begin(hunk, reverse), IndexCount(hunk, reverse);
    && i <= j <= s && s + n <= |index|
    && Stands(FullBuild(hunk, k, sel, reverse), index[s..s + n], FullChosen(hunk, k, sel, reverse))
  }

  // Past the last hunk both files agree and nothing is emitted.
  lemma AtEnd(hunks: seq<PatchHunk>, index: File, i: nat, other: File, o: nat, sel: Selection, reverse: bool, offset: int)
    requires IsDiff(hunks, |hunks|, index, i, other, o, reverse)
    ensures i <= |index| && o <= |other| && index[i..] == other[o..]
    ensures Outcome(hunks, |hunks|, index, i, sel, reverse) == index[i..]
    ensures BuildsFrom(hunks, |hunks|, sel, reverse) == [] && Place(hunks, [], reverse, offset) == []
  {
  }

  lemma OutcomeCons(hunks: seq<PatchHunk>, k: nat, index: File, i: nat, sel: Selection, reverse: bool)
    requires k < |hunks| && i <= Begin(hunks[k], reverse) <= |index|
    ensures var s := Begin(hunks[k], reverse);
      Outcome(hunks, k, index, i, sel, reverse)
      == index[i..s] + FullChosen(hunks[k], k, sel, reverse)
         + Outcome(hunks, k + 1, index, s + IndexCount(hunks[k], reverse), sel, reverse)
  {
  }

  lemma TopCons(hunks: seq<PatchHunk>, k: nat, sel: Selection, reverse: bool, drift: int)
    requires k < |hunks|
    ensures var b := FullBuild(hunks[k], k, sel, reverse);
      EmptyOnlyAtTop(hunks, k, sel, reverse, drift)
      == (&& (HasChange(b.body) && b.newCount == 0 ==> Begin(hunks[k], reverse) + drift == 0)
          && EmptyOnlyAtTop(hunks, k + 1, sel, reverse, drift + b.newCount - b.oldCount))
  {
  }

  lemma Slices(index: File, i: nat, j: nat, s: nat, e: nat)
    requires i <= j <= s <= e <= |index|
    ensures index[i..s] == index[i..j] + index[j..s]
    ensures index[i..e] == index[i..s] + index[s..e]
    ensures index[e..e] == []
  {
  }

  lemma AppliesEmitted(
    hunks: seq<PatchHunk>, k: nat, index: File, i: nat, j: nat, sel: Selection, reverse: bool,
    written: nat, numberEmpty: bool)
    requires k < |hunks| && Located(hunks[k], k, index, i, j, sel, reverse)
    requires var b := FullBuild(hunks[k], k, sel, reverse);
      var s := Begin(hunks[k], reverse);
      var end := s + IndexCount(hunks[k], reverse);
      && HasChange(b.body)
      && Applies(hunks, k + 1, index, end, end, sel, reverse, written + (s - i) + b.newCount, numberEmpty)
    ensures Applies(hunks, k, index, i, j, sel, reverse, written, numberEmpty)
  {
    hide PlaceOne, HasChange, Begin, StrictApply, Place, FullBuild, FullChosen, Outcome, EmptyOnlyAtTop, BuildsFrom;
    var hunk := hunks[k];
    var s, n := Begin(hunk, reverse), IndexCount(hunk, reverse);
    var b := FullBuild(hunk, k, sel, reverse);
    var chosen := FullChosen(hunk, k, sel, reverse);
    var rest := BuildsFrom(hunks, k + 1, sel, reverse);
    BuildsUnfold(hunks, k, sel, reverse);
    PlaceCons(hunks, k, b, rest, reverse, written - i);
    ApplyCons(hunk, b, reverse, index, i, written, numberEmpty, chosen,
              Place(hunks, rest, reverse, written - i + b.newCount - b.oldCount));
    assert written + (s - i) + b.newCount - (s + n) == written - i + b.newCount - b.oldCount;
    OutcomeCons(hunks, k, index, j, sel, reverse);
    TopCons(hunks, k, sel, reverse, written - i);
    RegroupAround(index, i, j, s, s + n, chosen, Outcome(hunks, k + 1, index, s + n, sel, reverse));
  }

  lemma RegroupAround(index: File, i: nat, j: nat, s: nat, e: nat, chosen: File, after: File)
    requires i <= j <= s <= e <= |index|
    ensures index[i..s] + chosen + (index[e..e] + after) == index[i..j] + (index[j..s] + chosen + after)
  {
    assert index[i..s] == index[i..j] + index[j..s] && index[e..e] == [];
  }

  lemma AppliesSkipped(
    hunks: seq<PatchHunk>, k: nat, index: File, i: nat, j: nat, sel: Selection, reverse: bool,
    written: nat, numberEmpty: bool)
    requires k < |hunks| && Located(hunks[k], k, index, i, j, sel, reverse)
    requires var s, n := Begin(hunks[k], reverse), IndexCount(hunks[k], reverse);
      && !HasChange(FullBuild(hunks[k], k, sel, reverse).body)
      && FullChosen(hunks[k], k, sel, reverse) == index[s..s + n]
      && Applies(hunks, k + 1, index, i, s + n, sel, reverse, written, numberEmpty)
    ensures Applies(hunks, k, index, i, j, sel, reverse, written, numberEmpty)
  {
    hide PlaceOne, HasChange, Begin, StrictApply, Place, FullBuild, FullChosen, Outcome, EmptyOnlyAtTop, BuildsFrom;
    var s, n := Begin(hunks[k], reverse), IndexCount(hunks[k], reverse);
    BuildsUnfold(hunks, k, sel, reverse);
    assert BuildsFrom(hunks, k, sel, reverse) == BuildsFrom(hunks, k + 1, sel, reverse);
    OutcomeCons(hunks, k, index, j, sel, reverse);
    TopCons(hunks, k, sel, reverse, written - i);
    Slices(index, i, j, s, s + n);
    var after := Outcome(hunks, k + 1, index, s + n, sel, reverse);
    assert (index[i..j] + index[j..s] + index[s..s + n]) + after
        == index[i..j] + (index[j..s] + index[s..s + n] + after);
  }

  lemma DiffCons(hunks: seq<PatchHunk>, k: nat, index: File, i: nat, other: File, o: nat, reverse: bool)
    requires k < |hunks| && IsDiff(hunks, k, index, i, other, o, reverse)
    ensures
      var s, t := Begin(hunks[k], reverse), Begin(hunks[k], !reverse);
      var n, m := IndexCount(hunks[k], reverse), IndexCount(hunks[k], !reverse);
      && i <= s && s + n <= |index| && o <= t && t + m <= |other|
      && GoodHunk(hunks[k])
      && index[i..s] == other[o..t]
      && index[s..s + n] == FullSide(hunks[k], reverse)
      && other[t..t + m] == FullSide(hunks[k], !reverse)
      && IsDiff(hunks, k + 1, index, s + n, other, t + m, reverse)
  {
  }

  lemma AppliesAtEnd(
    hunks: seq<PatchHunk>, index: File, i: nat, j: nat, other: File, o: nat,
    sel: Selection, reverse: bool, written: nat, numberEmpty: bool)
    requires i <= j && IsDiff(hunks, |hunks|, index, j, other, o, reverse)
    ensures Applies(hunks, |hunks|, index, i, j, sel, reverse, written, numberEmpty)
  {
    assert index[i..] == index[i..j] + index[j..];
  }

  lemma {:induction false} AppliesFrom(
    hunks: seq<PatchHunk>, k: nat, index: File, i: nat, j: nat, other: File, o: nat,
    sel: Selection, reverse: bool, written: nat, numberEmpty: bool)
    requires k <= |hunks| && i <= j && IsDiff(hunks, k, index, j, other, o, reverse)
    ensures Applies(hunks, k, index, i, j, sel, reverse, written, numberEmpty)
    decreases |hunks| - k
  {
    hide Applies, HasChange, Begin, FullBuild, FullChosen, FullSide, IsDiff, GoodHunk, Stands;
    if k == |hunks| {
      AppliesAtEnd(hunks, index, i, j, other, o, sel, reverse, written, numberEmpty);
    } else {
      var hunk := hunks[k];
      DiffCons(hunks, k, index, j, other, o, reverse);
      var s, t := Begin(hunk, reverse), Begin(hunk, !reverse);
      var n, m := IndexCount(hunk, reverse), IndexCount(hunk, !reverse);
      var b := FullBuild(hunk, k, sel, reverse);
      HunkStands(hunk, k, sel, reverse);
      if HasChange(b.body) {
        AppliesFrom(hunks, k + 1, index, s + n, s + n, other, t + m, sel, reverse, written + (s - i) + b.newCount,
                    numberEmpty);
        AppliesEmitted(hunks, k, index, i, j, sel, reverse, written, numberEmpty);
      } else {
        AppliesFrom(hunks, k + 1, index, i, s + n, other, t + m, sel, reverse, written, numberEmpty);
        AppliesSkipped(hunks, k, index, i, j, sel, reverse, written, numberEmpty);
      }
    }
  }

  lemma HunkStands(hunk: PatchHunk, k: nat, sel: Selection, reverse: bool)
    requires GoodHunk(hunk)
    ensures var b := FullBuild(hunk, k, sel, reverse);
      && Stands(b, FullSide(hunk, reverse), FullChosen(hunk, k, sel, reverse))
      && (HasChange(b.body) <==> SelectsChange(hunk.lines, k, |hunk.lines|, sel))
      && (!HasChange(b.body) ==> FullChosen(hunk, k, sel, reverse) == FullSide(hunk, reverse))
  {
    BodySides(hunk.lines, k, |hunk.lines|, sel, reverse);
    EmittedIffSelected(hunk.lines, k, |hunk.lines|, sel, reverse);
    if !SelectsChange(hunk.lines, k, |hunk.lines|, sel) {
      NothingSelectedKeepsSide(hunk.lines, k, |hunk.lines|, sel, reverse);
    }
  }

  // ----- The theorems -----

  // Main result. For every diff and every accepted selection the emitted hunks apply strictly to
  // the index and yield the chosen result. With empty ranges numbered as POSIX.1-2017 numbers
  // them, they apply exactly when every hunk left without lines is at the top of the result:
  // the source writes 0 for each of them.
  lemma EmittedPatchApplies(patch: FilePatch, index: File, other: File, sel: Selection, reverse: bool)
    requires IsDiff(patch.hunks, 0, index, 0, other, 0, reverse)
    requires Synthesis(patch, sel, reverse).Success?
    ensures var os := Synthesis(patch, sel, reverse).value;
      && StrictApply(os, index, 0, 0, false) == Some(Outcome(patch.hunks, 0, index, 0, sel, reverse))
      && StrictApply(os, index, 0, 0, true)
         == (if EmptyOnlyAtTop(patch.hunks, 0, sel, reverse, 0) then Some(Outcome(patch.hunks, 0, index, 0, sel, reverse))
             else None)
  {
    hide StrictApply, Outcome, EmptyOnlyAtTop, BuildsFrom, Place, FirstError;
    AppliesFrom(patch.hunks, 0, index, 0, 0, other, 0, sel, reverse, 0, false);
    AppliesFrom(patch.hunks, 0, index, 0, 0, other, 0, sel, reverse, 0, true);
    assert index[0..0] + Outcome(patch.hunks, 0, index, 0, sel, reverse) == Outcome(patch.hunks, 0, index, 0, sel, reverse);
  }

  // Deleting the second of two lines without context: the source numbers the empty range 0,
  // POSIX numbers it 1.
  lemma EmptyRangeBelowTop()
    ensures
      var hunk := PatchHunk(2, 1, 1, 0, [PatchLine('-', "b\n", Some(2), None)]);
      var patch := FilePatch("f", "f", [hunk], false, false, false, "100644", "100644");
      && IsDiff(patch.hunks, 0, ["a\n", "b\n"], 0, ["a\n"], 0, false)
      && Synthesis(patch, None, false) == Success([OutHunk(2, 1, 0, 0, ["-b\n"])])
      && !EmptyOnlyAtTop(patch.hunks, 0, None, false, 0)
      && StrictApply([OutHunk(2, 1, 0, 0, ["-b\n"])], ["a\n", "b\n"], 0, 0, true) == None
  {
    var line := PatchLine('-', "b\n", Some(2), None);
    var hunk := PatchHunk(2, 1, 1, 0, [line]);
    var patch := FilePatch("f", "f", [hunk], false, false, false, "100644", "100644");
    assert "-" + "b\n" == "-b\n";
    hide FullBuild, GoodHunk, FullSide, HasChange, HunkError;
    OneDeletedLine(hunk, line, 0);
    DeletedLineIsDiff(hunk);
    DeletedLineIsPlaced(hunk, Build(1, 0, ["-b\n"]));
    assert FirstError([hunk], 1, None) == None;
  }

  // With context in every hunk that does not start the index, as diffs have it unless asked for
  // without, no emitted range below the top is empty, and the numbers are those of POSIX.
  ghost predicate HasContext(hunks: seq<PatchHunk>, reverse: bool) {
    forall k :: 0 <= k < |hunks| && !(k == 0 && Begin(hunks[0], reverse) == 0) ==> SomeContext(hunks[k].lines)
  }

  ghost predicate SomeContext(lines: seq<PatchLine>) { exists i :: 0 <= i < |lines| && lines[i].IsContext() }

  lemma {:induction false} ContextIsChosen(lines: seq<PatchLine>, h: nat, i: nat, n: nat, sel: Selection, reverse: bool)
    requires i < n <= |lines| && lines[i].IsContext()
    ensures BuildOf(lines, h, n, sel, reverse).newCount > 0
  {
    if i + 1 < n {
      ContextIsChosen(lines, h, i, n - 1, sel, reverse);
    }
  }

  lemma {:induction false} ContextStaysAtTop(hunks: seq<PatchHunk>, k: nat, sel: Selection, reverse: bool, drift: int)
    requires k <= |hunks| && HasContext(hunks, reverse) && (k == 0 ==> drift == 0)
    ensures EmptyOnlyAtTop(hunks, k, sel, reverse, drift)
    decreases |hunks| - k
  {
    hide BuildOf, HasChange, Begin, SomeContext;
    if k < |hunks| {
      var b := FullBuild(hunks[k], k, sel, reverse);
      if SomeContext(hunks[k].lines) {
        SomeContextIsChosen(hunks[k], k, sel, reverse);
      }
      ContextStaysAtTop(hunks, k + 1, sel, reverse, drift + b.newCount - b.oldCount);
    }
  }

  lemma SomeContextIsChosen(hunk: PatchHunk, k: nat, sel: Selection, reverse: bool)
    requires SomeContext(hunk.lines)
    ensures FullBuild(hunk, k, sel, reverse).newCount > 0
  {
    var i :| 0 <= i < |hunk.lines| && hunk.lines[i].IsContext();
    ContextIsChosen(hunk.lines, k, i, |hunk.lines|, sel, reverse);
  }

  // So for the diffs the program asks for, the emitted patch applies with the numbers of POSIX too,
  // with the same result.
  lemma ContextAgreesWithPosix(patch: FilePatch, index: File, other: File, sel: Selection, reverse: bool)
    requires IsDiff(patch.hunks, 0, index, 0, other, 0, reverse) && HasContext(patch.hunks, reverse)
    requires Synthesis(patch, sel, reverse).Success?
    ensures StrictApply(Synthesis(patch, sel, reverse).value, index, 0, 0, true)
         == Some(Outcome(patch.hunks, 0, index, 0, sel, reverse))
  {
    hide IsDiff, StrictApply, EmptyOnlyAtTop, Synthesis, HasContext, Outcome;
    EmittedPatchApplies(patch, index, other, sel, reverse);
    ContextStaysAtTop(patch.hunks, 0, sel, reverse, 0);
  }

  lemma DeletedLineIsDiff(hunk: PatchHunk)
    requires hunk.oldStart == 2 && hunk.oldLines == 1 && hunk.newStart == 1 && hunk.newLines == 0
    requires GoodHunk(hunk) && FullSide(hunk, false) == ["b\n"] && FullSide(hunk, true) == []
    ensures IsDiff([hunk], 0, ["a\n", "b\n"], 0, ["a\n"], 0, false)
  {
    hide GoodHunk, FullSide;
    assert ["a\n", "b\n"][2..] == ["a\n"][1..] == [];
    assert IsDiff([hunk], 1, ["a\n", "b\n"], 2, ["a\n"], 1, false);
  }

  lemma DeletedLineIsPlaced(hunk: PatchHunk, b: Build)
    requires hunk.oldStart == 2 && b.oldCount == 1 && b.newCount == 0 && HasChange(b.body)
    requires FullBuild(hunk, 0, None, false) == b && Begin(hunk, false) == 1
    ensures BuildsFrom([hunk], 0, None, false) == [(0, b)]
    ensures Place([hunk], [(0, b)], false, 0) == [OutHunk(2, 1, 0, 0, b.body)]
    ensures !EmptyOnlyAtTop([hunk], 0, None, false, 0)
  {
    hide FullBuild, HasChange, Begin;
    BuildsUnfold([hunk], 0, None, false);
    assert BuildsFrom([hunk], 0, None, false) == [(0, b)] + [];
    PlaceCons([hunk], 0, b, [], false, 0);
  }

  lemma OneDeletedLine(hunk: PatchHunk, line: PatchLine, h: nat)
    requires hunk.lines == [line] && line.origin == '-'
    ensures GoodHunk(hunk) && FullSide(hunk, false) == [line.content] && FullSide(hunk, true) == []
    ensures FullBuild(hunk, h, None, false) == Build(1, 0, ["-" + line.content])
    ensures HasChange(["-" + line.content]) && HunkError(hunk, h, None) == None
  {
    assert hunk.lines[0].IsChange();
    assert StartsChange(["-" + line.content][0]);
    assert Side(hunk.lines, 0, false) == [] == Side(hunk.lines, 0, true);
    assert BuildOf(hunk.lines, h, 0, None, false) == Build(0, 0, []);
    assert FirstUnknown(hunk.lines, 1) == None;
  }

  ghost predicate SelectsSomething(hunks: seq<PatchHunk>, k: nat, sel: Selection) {
    exists j :: k <= j < |hunks| && SelectsChange(hunks[j].lines, j, |hunks[j].lines|, sel)
  }

  ghost predicate GuardAccepts(hunks: seq<PatchHunk>, k: nat, sel: Selection) {
    forall j :: k <= j < |hunks| ==> !GuardRejects(hunks[j].lines, j, sel)
  }

  lemma {:induction false} KnownLinesRaiseNothing(lines: seq<PatchLine>, i: nat)
    requires i <= |lines|
    ensures FirstUnknown(lines, i) == None <==> forall j :: i <= j < |lines| ==> lines[j].IsKnown()
    decreases |lines| - i
  {
    if i < |lines| {
      KnownLinesRaiseNothing(lines, i + 1);
    }
  }

  lemma {:induction false} ErrorsFrom(hunks: seq<PatchHunk>, k: nat, sel: Selection)
    requires k <= |hunks|
    requires forall j :: k <= j < |hunks| ==> GoodHunk(hunks[j])
    ensures FirstError(hunks, k, sel) == if GuardAccepts(hunks, k, sel) then None else Some(Ambiguous)
    decreases |hunks| - k
  {
    hide GuardRejects;
    if k < |hunks| {
      ErrorsFrom(hunks, k + 1, sel);
      KnownLinesRaiseNothing(hunks[k].lines, 0);
      assert GuardAccepts(hunks, k, sel) <==> GuardAccepts(hunks, k + 1, sel) && !GuardRejects(hunks[k].lines, k, sel);
    }
  }

  lemma {:induction false} BuildsExist(hunks: seq<PatchHunk>, k: nat, sel: Selection, reverse: bool)
    requires k <= |hunks|
    requires forall j :: k <= j < |hunks| ==> GoodHunk(hunks[j])
    ensures BuildsFrom(hunks, k, sel, reverse) != [] <==> SelectsSomething(hunks, k, sel)
    decreases |hunks| - k
  {
    hide SelectsChange, HasChange, FullBuild, Stands, BuildsFrom, SelectsSomething, GoodHunk, FullSide, FullChosen;
    if k == |hunks| {
      BuildsEnd(hunks, sel, reverse);
      NothingSelectedPastTheEnd(hunks, sel);
    } else {
      BuildsExist(hunks, k + 1, sel, reverse);
      HunkStands(hunks[k], k, sel, reverse);
      BuildsUnfold(hunks, k, sel, reverse);
      SomethingUnfolds(hunks, k, sel);
    }
  }

  lemma NothingSelectedPastTheEnd(hunks: seq<PatchHunk>, sel: Selection)
    ensures !SelectsSomething(hunks, |hunks|, sel)
  {
  }

  lemma SomethingUnfolds(hunks: seq<PatchHunk>, k: nat, sel: Selection)
    requires k < |hunks|
    ensures SelectsSomething(hunks, k, sel)
      <==> SelectsSomething(hunks, k + 1, sel) || SelectsChange(hunks[k].lines, k, |hunks[k].lines|, sel)
  {
    hide SelectsChange;
  }

  lemma {:induction false} DiffHunksAreGood(
    hunks: seq<PatchHunk>, k: nat, index: File, i: nat, other: File, o: nat, reverse: bool)
    requires k <= |hunks| && IsDiff(hunks, k, index, i, other, o, reverse)
    ensures forall j :: k <= j < |hunks| ==> GoodHunk(hunks[j])
    decreases |hunks| - k
  {
    hide GoodHunk, IsDiff, Begin, IndexCount, FullSide;
    if k < |hunks| {
      DiffCons(hunks, k, index, i, other, o, reverse);
      DiffHunksAreGood(hunks, k + 1, index, Begin(hunks[k], reverse) + IndexCount(hunks[k], reverse),
                       other, Begin(hunks[k], !reverse) + IndexCount(hunks[k], !reverse), reverse);
    }
  }

  // For a diff, the synthesis succeeds exactly when the guard lets the selection pass and some
  // change line is selected; otherwise it says which of the two failed.
  lemma SynthesisSucceedsIff(patch: FilePatch, index: File, other: File, sel: Selection, reverse: bool)
    requires IsDiff(patch.hunks, 0, index, 0, other, 0, reverse)
    requires !patch.isBinary && !patch.IsRename() && patch.hunks != []
    ensures
      var r := Synthesis(patch, sel, reverse);
      && (r.Success? <==> GuardAccepts(patch.hunks, 0, sel) && SelectsSomething(patch.hunks, 0, sel))
      && (r == Failure(Ambiguous) <==> !GuardAccepts(patch.hunks, 0, sel))
      && (r.Failure? ==> r.error == Ambiguous || r.error == NothingSelected)
  {
    hide GoodHunk, GuardRejects, SelectsChange, IsDiff, BuildsFrom, FirstError, GuardAccepts, SelectsSomething;
    DiffHunksAreGood(patch.hunks, 0, index, 0, other, 0, reverse);
    ErrorsFrom(patch.hunks, 0, sel);
    BuildsExist(patch.hunks, 0, sel, reverse);
  }

  ghost predicate Covers(hunks: seq<PatchHunk>, sel: Selection) {
    forall k, i :: 0 <= k < |hunks| && 0 <= i < |hunks[k].lines| && hunks[k].lines[i].IsChange() ==> Keeps(sel, k, i)
  }

  ghost predicate Opposite(hunks: seq<PatchHunk>, sel: Selection, opp: Selection) {
    forall k, i :: 0 <= k < |hunks| && 0 <= i < |hunks[k].lines| && hunks[k].lines[i].IsChange()
      ==> Keeps(sel, k, i) != Keeps(opp, k, i)
  }

  // Selecting every change turns the index into the other file.
  lemma {:induction false} SelectingAllGivesOther(
    hunks: seq<PatchHunk>, k: nat, index: File, i: nat, other: File, o: nat, sel: Selection, reverse: bool)
    requires k <= |hunks| && IsDiff(hunks, k, index, i, other, o, reverse) && Covers(hunks, sel)
    ensures o <= |other| && Outcome(hunks, k, index, i, sel, reverse) == other[o..]
    decreases |hunks| - k
  {
    hide GoodHunk, Covers, Begin, FullChosen, FullSide, IsDiff, Outcome;
    if k == |hunks| {
      AtEnd(hunks, index, i, other, o, sel, reverse, 0);
    } else {
      DiffCons(hunks, k, index, i, other, o, reverse);
      var s, t := Begin(hunks[k], reverse), Begin(hunks[k], !reverse);
      var n, m := IndexCount(hunks[k], reverse), IndexCount(hunks[k], !reverse);
      SelectingAllGivesOther(hunks, k + 1, index, s + n, other, t + m, sel, reverse);
      CoveredHunk(hunks, k, sel, reverse);
      OutcomeCons(hunks, k, index, i, sel, reverse);
      Slices(other, o, o, t, t + m);
      assert other[o..] == other[o..t + m] + other[t + m..];
    }
  }

  lemma CoveredHunk(hunks: seq<PatchHunk>, k: nat, sel: Selection, reverse: bool)
    requires k < |hunks| && Covers(hunks, sel)
    ensures FullChosen(hunks[k], k, sel, reverse) == FullSide(hunks[k], !reverse)
  {
    EverythingSelectedGivesOtherSide(hunks[k].lines, k, |hunks[k].lines|, sel, reverse);
  }

  lemma {:induction false} OutcomesMirror(
    hunks: seq<PatchHunk>, k: nat, index: File, i: nat, other: File, o: nat,
    sel: Selection, opp: Selection, reverse: bool)
    requires k <= |hunks| && IsDiff(hunks, k, index, i, other, o, reverse) && Opposite(hunks, sel, opp)
    ensures Outcome(hunks, k, index, i, sel, reverse) == Outcome(hunks, k, other, o, opp, !reverse)
    decreases |hunks| - k
  {
    hide GoodHunk, Opposite, Begin, FullChosen, FullSide, IsDiff, Outcome;
    if k == |hunks| {
      AtEnd(hunks, index, i, other, o, sel, reverse, 0);
      DiffMirrors(hunks, k, index, i, other, o, reverse);
      AtEnd(hunks, other, o, index, i, opp, !reverse, 0);
    } else {
      DiffCons(hunks, k, index, i, other, o, reverse);
      var s, t := Begin(hunks[k], reverse), Begin(hunks[k], !reverse);
      var n, m := IndexCount(hunks[k], reverse), IndexCount(hunks[k], !reverse);
      OutcomesMirror(hunks, k + 1, index, s + n, other, t + m, sel, opp, reverse);
      OppositeHunk(hunks, k, sel, opp, reverse);
      OutcomeCons(hunks, k, index, i, sel, reverse);
      OutcomeCons(hunks, k, other, o, opp, !reverse);
    }
  }

  lemma OppositeHunk(hunks: seq<PatchHunk>, k: nat, sel: Selection, opp: Selection, reverse: bool)
    requires k < |hunks| && Opposite(hunks, sel, opp)
    ensures FullChosen(hunks[k], k, sel, reverse) == FullChosen(hunks[k], k, opp, !reverse)
  {
    OppositeSelectionsAgree(hunks[k].lines, k, |hunks[k].lines|, sel, opp, reverse);
  }

  // The hunks that are emitted when the guard is not asked, possibly none.
  function Unguarded(hunks: seq<PatchHunk>, sel: Selection, reverse: bool): seq<OutHunk> {
    Place(hunks, BuildsFrom(hunks, 0, sel, reverse), reverse, 0)
  }

  // Main result on the two directions. They mirror each other, guard or no guard: staging S on the
  // old file and unstaging everything but S on the new file both apply, and give the same file.
  lemma DirectionsMirror(
    patch: FilePatch, index: File, other: File, sel: Selection, opp: Selection, reverse: bool)
    requires IsDiff(patch.hunks, 0, index, 0, other, 0, reverse) && Opposite(patch.hunks, sel, opp)
    ensures var result := StrictApply(Unguarded(patch.hunks, sel, reverse), index, 0, 0, false);
      result.Some? && result == StrictApply(Unguarded(patch.hunks, opp, !reverse), other, 0, 0, false)
    ensures Synthesis(patch, sel, reverse).Success? ==>
      Synthesis(patch, sel, reverse).value == Unguarded(patch.hunks, sel, reverse)
  {
    UnguardedIsEmitted(patch, sel, reverse);
    hide IsDiff, StrictApply, Outcome, Opposite, Synthesis, Unguarded;
    var hunks := patch.hunks;
    UnguardedApplies(hunks, index, other, sel, reverse);
    DiffMirrors(hunks, 0, index, 0, other, 0, reverse);
    UnguardedApplies(hunks, other, index, opp, !reverse);
    OutcomesMirror(hunks, 0, index, 0, other, 0, sel, opp, reverse);
  }

  lemma UnguardedIsEmitted(patch: FilePatch, sel: Selection, reverse: bool)
    ensures Synthesis(patch, sel, reverse).Success? ==>
      Synthesis(patch, sel, reverse).value == Unguarded(patch.hunks, sel, reverse)
  {
    hide Place, BuildsFrom, FirstError;
  }

  lemma UnguardedApplies(hunks: seq<PatchHunk>, index: File, other: File, sel: Selection, reverse: bool)
    requires IsDiff(hunks, 0, index, 0, other, 0, reverse)
    ensures StrictApply(Unguarded(hunks, sel, reverse), index, 0, 0, false)
         == Some(Outcome(hunks, 0, index, 0, sel, reverse))
  {
    hide IsDiff, StrictApply, Outcome, Place, BuildsFrom, EmptyOnlyAtTop;
    AppliesFrom(hunks, 0, index, 0, 0, other, 0, sel, reverse, 0, false);
    assert index[0..0] + Outcome(hunks, 0, index, 0, sel, reverse) == Outcome(hunks, 0, index, 0, sel, reverse);
  }

  // Staging everything and then unstaging everything is the identity on the index, and both
  // emitted patches apply.
  lemma StageAllThenUnstageAll(patch: FilePatch, a: File, b: File)
    requires IsDiff(patch.hunks, 0, a, 0, b, 0, false)
    requires !patch.isBinary && !patch.IsRename() && patch.hunks != []
    ensures Synthesis(patch, None, false).Success? && Synthesis(patch, None, true).Success?
    ensures StrictApply(Synthesis(patch, None, false).value, a, 0, 0, false) == Some(b)
    ensures StrictApply(Synthesis(patch, None, true).value, b, 0, 0, false) == Some(a)
  {
    var hunks := patch.hunks;
    DiffMirrors(hunks, 0, a, 0, b, 0, false);
    DiffHunksAreGood(hunks, 0, a, 0, b, 0, false);
    assert GoodHunk(hunks[0]);
    assert SelectsChange(hunks[0].lines, 0, |hunks[0].lines|, None);
    hide IsDiff, Synthesis, StrictApply, Outcome, GoodHunk, SelectsChange;
    SynthesisSucceedsIff(patch, a, b, None, false);
    SynthesisSucceedsIff(patch, b, a, None, true);
    EmittedPatchApplies(patch, a, b, None, false);
    EmittedPatchApplies(patch, b, a, None, true);
    SelectingAllGivesOther(hunks, 0, a, 0, b, 0, None, false);
    SelectingAllGivesOther(hunks, 0, b, 0, a, 0, None, true);
  }

  // ----- File deletion -----

  lemma {:induction false} DeletesFrom(
    hunks: seq<PatchHunk>, k: nat, index: File, i: nat, sel: Selection, reverse: bool, offset: int)
    requires k <= |hunks| && IsDiff(hunks, k, index, i, [], 0, reverse)
    ensures
      var os := Place(hunks, BuildsFrom(hunks, k, sel, reverse), reverse, offset);
      && |os| <= |hunks| - k
      && ((|os| == |hunks| - k && AllEmpty(os)) <==> Outcome(hunks, k, index, i, sel, reverse) == [])
    decreases |hunks| - k
  {
    hide GoodHunk, HasChange, FullBuild, FullChosen, FullSide, SelectsChange, PlaceOne, Outcome, Place, BuildsFrom,
      AllEmpty, IsDiff, Begin;
    if k == |hunks| {
      AtEnd(hunks, index, i, [], 0, sel, reverse, offset);
      assert AllEmpty([]) by { NothingIsEmpty(); }
    } else {
      var hunk := hunks[k];
      DiffCons(hunks, k, index, i, [], 0, reverse);
      var s, n := Begin(hunk, reverse), IndexCount(hunk, reverse);
      var b := FullBuild(hunk, k, sel, reverse);
      var rest := BuildsFrom(hunks, k + 1, sel, reverse);
      HunkStands(hunk, k, sel, reverse);
      OutcomeCons(hunks, k, index, i, sel, reverse);
      BuildsUnfold(hunks, k, sel, reverse);
      assert Begin(hunk, !reverse) == 0 == IndexCount(hunk, !reverse) && index[i..s] == [];
      if HasChange(b.body) {
        var next := offset + b.newCount - b.oldCount;
        DeletesFrom(hunks, k + 1, index, s + n, sel, reverse, next);
        PlaceCons(hunks, k, b, rest, reverse, offset);
        AllEmptyCons(hunk, b, reverse, offset, Place(hunks, rest, reverse, next));
      } else {
        assert BuildsFrom(hunks, k, sel, reverse) == rest;
        DeletesFrom(hunks, k + 1, index, s + n, sel, reverse, offset);
        KeptHunkIsNotEmpty(hunk, reverse);
      }
    }
  }

  lemma NothingIsEmpty()
    ensures AllEmpty([])
  {
  }

  lemma AllEmptyCons(hunk: PatchHunk, b: Build, reverse: bool, offset: int, tail: seq<OutHunk>)
    ensures AllEmpty([PlaceOne(hunk, b, reverse, offset)] + tail) <==> b.newCount == 0 && AllEmpty(tail)
  {
    var head := PlaceOne(hunk, b, reverse, offset);
    if AllEmpty([head] + tail) {
      assert ([head] + tail)[0] == head;
      forall j | 0 <= j < |tail| ensures tail[j].newCount == 0 {
        assert ([head] + tail)[j + 1] == tail[j];
      }
    }
  }

  // A hunk of a whole-file deletion has index lines.
  lemma KeptHunkIsNotEmpty(hunk: PatchHunk, reverse: bool)
    requires GoodHunk(hunk) && FullSide(hunk, !reverse) == []
    ensures FullSide(hunk, reverse) != []
  {
    var i :| 0 <= i < |hunk.lines| && hunk.lines[i].IsChange();
    if InIndex(hunk.lines[i], reverse) {
      SideHas(hunk.lines, i, |hunk.lines|, reverse);
    } else {
      SideHas(hunk.lines, i, |hunk.lines|, !reverse);
    }
  }

  lemma {:induction false} SideHas(lines: seq<PatchLine>, i: nat, n: nat, reverse: bool)
    requires i < n <= |lines| && InIndex(lines[i], reverse)
    ensures Side(lines, n, reverse) != []
  {
    if i + 1 < n {
      SideHas(lines, i, n - 1, reverse);
    }
  }

  // For a whole-file deletion, or an addition read backwards, the deletion header and the
  // /dev/null target appear exactly when applying the chosen lines leaves no line, also when
  // hunks without a selected line were dropped.
  lemma DeletionHeaderIff(patch: FilePatch, index: File, sel: Selection, reverse: bool)
    requires IsDiff(patch.hunks, 0, index, 0, [], 0, reverse)
    requires if reverse then patch.isNew && !patch.isDeleted else patch.isDeleted && !patch.isNew
    requires Synthesis(patch, sel, reverse).Success?
    ensures
      var gone := Outcome(patch.hunks, 0, index, 0, sel, reverse) == [];
      FileHeader(patch, Synthesis(patch, sel, reverse).value, reverse) == ChangeHeader(patch, gone, reverse)
  {
    hide Outcome, Place, BuildsFrom, IsDiff, Synthesis, FileHeader, ChangeHeader;
    UnguardedIsEmitted(patch, sel, reverse);
    DeletesFrom(patch.hunks, 0, index, 0, sel, reverse, 0);
    HeaderOfChange(patch, Synthesis(patch, sel, reverse).value, reverse);
  }

  // The header of a patch that does not create its file.
  function ChangeHeader(patch: FilePatch, gone: bool, reverse: bool): string {
    var path := if reverse then patch.newPath else patch.oldPath;
    var mode := if reverse then patch.newMode else patch.oldMode;
    "diff --git a/" + path + " b/" + path + "\n"
    + (if gone then "deleted file mode " + mode + "\n" else "")
    + "--- " + ("a/" + path) + "\n"
    + "+++ " + (if gone then "/dev/null" else "b/" + path) + "\n"
  }

  lemma HeaderOfChange(patch: FilePatch, os: seq<OutHunk>, reverse: bool)
    requires !SaysNew(patch, reverse)
    ensures FileHeader(patch, os, reverse) == ChangeHeader(patch, SaysDeleted(patch, os, reverse), reverse)
  {
  }
}
