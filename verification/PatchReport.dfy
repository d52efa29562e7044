// What a patch says about its file, and when there is no patch (src/gitclient/domain/patch.py).
module PatchReport {
  import opened Text
  import opened Wrappers
  import opened Patch
  import opened PatchApply

  // ----- Origins -----

  predicate KnownOrigin(c: char) { c == ' ' || c == '+' || c == '-' || c == '=' || c == '>' || c == '<' }

  // The six origins, and what each stands for.
  lemma OriginsAre(line: PatchLine)
    ensures line.IsContext() <==> line.origin == ' '
    ensures line.IsChange() <==> line.origin == '+' || line.origin == '-'
    ensures line.IsMarker() <==> line.origin == '=' || line.origin == '>' || line.origin == '<'
    ensures line.IsKnown() <==> KnownOrigin(line.origin)
  {
  }

  // ----- The file header -----

  // The file the patch is applied to does not exist yet.
  predicate Creates(patch: FilePatch, reverse: bool) { if reverse then patch.isDeleted else patch.isNew }

  // The file on the other side does not exist.
  predicate MayDelete(patch: FilePatch, reverse: bool) { if reverse then patch.isNew else patch.isDeleted }

  // Main result on the file header. A new file has its mode and no source; a file that is left
  // without lines on a side that has none has its mode and no target; in every other case both
  // sides are named, without a mode.
  lemma FileHeaderSays(patch: FilePatch, index: File, other: File, sel: Selection, reverse: bool)
    requires IsDiff(patch.hunks, 0, index, 0, other, 0, reverse)
    requires Synthesis(patch, sel, reverse).Success?
    requires MayDelete(patch, reverse) ==> other == []
    ensures
      var path := if reverse then patch.newPath else patch.oldPath;
      var mode := if reverse then patch.newMode else patch.oldMode;
      var created := Creates(patch, reverse);
      var gone := MayDelete(patch, reverse) && Outcome(patch.hunks, 0, index, 0, sel, reverse) == [];
      FileHeader(patch, Synthesis(patch, sel, reverse).value, reverse)
      == "diff --git a/" + path + " b/" + path + "\n"
         + (if created then "new file mode " + patch.newMode + "\n"
            else if gone then "deleted file mode " + mode + "\n" else "")
         + "--- " + (if created then "/dev/null" else "a/" + path) + "\n"
         + "+++ " + (if gone then "/dev/null" else "b/" + path) + "\n"
  {
    hide Outcome, Place, BuildsFrom, IsDiff, Synthesis;
    UnguardedIsEmitted(patch, sel, reverse);
    if MayDelete(patch, reverse) {
      DeletesFrom(patch.hunks, 0, index, 0, sel, reverse, 0);
    }
  }

  // ----- The hunk header -----

  // A count is written exactly when it is not 1.
  lemma RangeOmitsOne(start: nat, count: nat)
    ensures ',' in Range(start, count) <==> count != 1
  {
    DecimalReadsBack(start);
    hide Decimal;
    var text := Range(start, count);
    if count != 1 {
      assert text[|Decimal(start)|] == ',';
    }
  }

  // ----- Refusals -----

  ghost predicate Fine(hunks: seq<PatchHunk>, k: nat, sel: Selection)
    requires k < |hunks|
  {
    && !GuardRejects(hunks[k].lines, k, sel)
    && forall i :: 0 <= i < |hunks[k].lines| ==> KnownOrigin(hunks[k].lines[i].origin)
  }

  // The first line of an origin that is not known has this one.
  ghost predicate FirstStranger(lines: seq<PatchLine>, i: nat, c: char) {
    && i < |lines| && lines[i].origin == c && !KnownOrigin(c)
    && forall j :: 0 <= j < i ==> KnownOrigin(lines[j].origin)
  }

  // Hunk k is the first that is refused, and this is why; the guard comes first.
  ghost predicate RefusedAt(hunks: seq<PatchHunk>, k: nat, sel: Selection, e: PatchError) {
    && k < |hunks| && (forall j :: 0 <= j < k ==> Fine(hunks, j, sel))
    && if GuardRejects(hunks[k].lines, k, sel) then e == Ambiguous
       else e.UnknownOrigin? && exists i: nat :: FirstStranger(hunks[k].lines, i, e.origin)
  }

  lemma {:induction false} StrangerIsFound(lines: seq<PatchLine>, i: nat)
    requires i <= |lines| && forall j :: 0 <= j < i ==> KnownOrigin(lines[j].origin)
    ensures var e := FirstUnknown(lines, i);
      if e.None? then forall j :: 0 <= j < |lines| ==> KnownOrigin(lines[j].origin)
      else e.value.UnknownOrigin? && exists j: nat :: FirstStranger(lines, j, e.value.origin)
    decreases |lines| - i
  {
    if i < |lines| {
      if KnownOrigin(lines[i].origin) {
        StrangerIsFound(lines, i + 1);
      } else {
        assert FirstStranger(lines, i, lines[i].origin);
      }
    }
  }

  lemma {:induction false} RefusalIsFound(hunks: seq<PatchHunk>, k: nat, sel: Selection)
    requires k <= |hunks| && forall j :: 0 <= j < k ==> Fine(hunks, j, sel)
    ensures var e := FirstError(hunks, k, sel);
      if e.None? then forall j :: 0 <= j < |hunks| ==> Fine(hunks, j, sel)
      else exists j: nat :: RefusedAt(hunks, j, sel, e.value)
    decreases |hunks| - k
  {
    hide GuardRejects;
    if k < |hunks| {
      StrangerIsFound(hunks[k].lines, 0);
      if HunkError(hunks[k], k, sel).None? {
        RefusalIsFound(hunks, k + 1, sel);
      } else {
        assert RefusedAt(hunks, k, sel, HunkError(hunks[k], k, sel).value);
      }
    }
  }

  lemma RefusedOnce(hunks: seq<PatchHunk>, j: nat, k: nat, sel: Selection, e: PatchError, f: PatchError)
    requires RefusedAt(hunks, j, sel, e) && RefusedAt(hunks, k, sel, f)
    ensures j == k && e == f
  {
    hide GuardRejects;
    if j < k {
      assert Fine(hunks, j, sel);
      NotFine(hunks, j, sel, e);
      assert false;
    }
    if k < j {
      assert Fine(hunks, k, sel);
      NotFine(hunks, k, sel, f);
      assert false;
    }
  }

  lemma NotFine(hunks: seq<PatchHunk>, k: nat, sel: Selection, e: PatchError)
    requires RefusedAt(hunks, k, sel, e)
    ensures k < |hunks| && !Fine(hunks, k, sel) && (e == Ambiguous || e.UnknownOrigin?)
  {
    hide GuardRejects;
  }

  ghost predicate MarkersArePlain(hunks: seq<PatchHunk>) {
    forall k, i :: 0 <= k < |hunks| && 0 <= i < |hunks[k].lines| && hunks[k].lines[i].IsMarker() ==>
      hunks[k].lines[i].content == MARKER
  }

  // What a caller may stage by lines.
  predicate CanStage(patch: FilePatch) { !patch.isBinary && patch.oldPath == patch.newPath && patch.hunks != [] }

  // Main result on refusals, for every patch and every selection: which of them are refused, for
  // what reason, and that all others give a patch.
  lemma RefusalsAre(patch: FilePatch, sel: Selection, reverse: bool)
    ensures var r := Synthesis(patch, sel, reverse);
      && (r == Failure(Binary) <==> patch.isBinary)
      && (r == Failure(Rename) <==> !patch.isBinary && patch.oldPath != patch.newPath)
      && (r == Failure(NoHunks) <==> !patch.isBinary && patch.oldPath == patch.newPath && patch.hunks == [])
    ensures forall e :: e == Ambiguous || e.UnknownOrigin? ==>
      (Synthesis(patch, sel, reverse) == Failure(e)
       <==> CanStage(patch) && exists k: nat :: RefusedAt(patch.hunks, k, sel, e))
    ensures MarkersArePlain(patch.hunks) ==>
      (Synthesis(patch, sel, reverse) == Failure(NothingSelected)
       <==> CanStage(patch) && (forall k :: 0 <= k < |patch.hunks| ==> Fine(patch.hunks, k, sel))
            && !SelectsSomething(patch.hunks, 0, sel))
  {
    hide Place, BuildsFrom, FirstError, RefusedAt, SelectsSomething, Fine;
    RefusalIsFound(patch.hunks, 0, sel);
    forall e, k: nat | RefusedAt(patch.hunks, k, sel, e) ensures FirstError(patch.hunks, 0, sel) == Some(e) {
      RefusalIsTheFirst(patch.hunks, k, sel, e);
    }
    var first := FirstError(patch.hunks, 0, sel);
    if first.Some? {
      var k: nat :| RefusedAt(patch.hunks, k, sel, first.value);
      NotFine(patch.hunks, k, sel, first.value);
    }
    if MarkersArePlain(patch.hunks) {
      SomethingIsBuilt(patch.hunks, 0, sel, reverse);
    }
  }

  lemma RefusalIsTheFirst(hunks: seq<PatchHunk>, k: nat, sel: Selection, e: PatchError)
    requires RefusedAt(hunks, k, sel, e)
    ensures FirstError(hunks, 0, sel) == Some(e)
  {
    hide FirstError, GuardRejects;
    RefusalIsFound(hunks, 0, sel);
    if FirstError(hunks, 0, sel).None? {
      assert Fine(hunks, k, sel);
      NotFine(hunks, k, sel, e);
      assert false;
    }
    var j: nat :| RefusedAt(hunks, j, sel, FirstError(hunks, 0, sel).value);
    RefusedOnce(hunks, j, k, sel, FirstError(hunks, 0, sel).value, e);
  }

  lemma {:induction false} SomethingIsBuilt(hunks: seq<PatchHunk>, k: nat, sel: Selection, reverse: bool)
    requires k <= |hunks| && MarkersArePlain(hunks)
    ensures BuildsFrom(hunks, k, sel, reverse) != [] <==> SelectsSomething(hunks, k, sel)
    decreases |hunks| - k
  {
    hide SelectsChange, HasChange, FullBuild, BuildsFrom, SelectsSomething;
    if k == |hunks| {
      BuildsEnd(hunks, sel, reverse);
      NothingSelectedPastTheEnd(hunks, sel);
    } else {
      SomethingIsBuilt(hunks, k + 1, sel, reverse);
      EmittedIffSelected(hunks[k].lines, k, |hunks[k].lines|, sel, reverse);
      FullBuildIs(hunks[k], k, sel, reverse);
      BuildsUnfold(hunks, k, sel, reverse);
      SomethingUnfolds(hunks, k, sel);
    }
  }

  lemma FullBuildIs(hunk: PatchHunk, k: nat, sel: Selection, reverse: bool)
    ensures FullBuild(hunk, k, sel, reverse) == BuildOf(hunk.lines, k, |hunk.lines|, sel, reverse)
  {
  }
}
