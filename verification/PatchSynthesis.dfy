// The synthesis as the source runs it: counters and a body that grow line by line, a list of
// builds, a running offset. Every method is proved equal to the functions of Patch.dfy.
module PatchSynthesis {
  import opened Text
  import opened Wrappers
  import opened Patch

  // The accumulating state of one hunk.
  class HunkBuild {
    var oldCount: nat
    var newCount: nat
    var body: seq<string>

    constructor ()
      ensures Value() == Build(0, 0, [])
    {
      oldCount, newCount, body := 0, 0, [];
    }

    function Value(): Build
      reads this
    {
      Build(oldCount, newCount, body)
    }

    // Turns one line into body text of the final direction and counts it.
    method EmitLine(line: PatchLine, keep: bool, reverse: bool) returns (r: Result<Option<string>, PatchError>)
      requires !line.IsMarker()
      modifies this`oldCount, this`newCount
      ensures r.Success? <==> line.IsKnown()
      ensures r.Failure? ==> r.error == UnknownOrigin(line.origin) && Value() == old(Value())
      ensures r.Success? ==>
        var e := Piece(line, keep, reverse);
        && r.value == e
        && Value() == Build(
             old(oldCount) + Count(e.Some? && e.value[0] != '+'),
             old(newCount) + Count(e.Some? && e.value[0] != '-'),
             old(body))
    {
      if line.IsContext() {
        oldCount, newCount := oldCount + 1, newCount + 1;
        return Success(Some(" " + line.content));
      }
      if !line.IsChange() {
        return Failure(UnknownOrigin(line.origin));
      }
      var inIndex := if reverse then line.origin == '+' else line.origin == '-';
      if !keep {
        if inIndex {
          oldCount, newCount := oldCount + 1, newCount + 1;
          return Success(Some(" " + line.content));
        }
        return Success(None);
      }
      if inIndex {
        oldCount := oldCount + 1;
        return Success(Some("-" + line.content));
      }
      newCount := newCount + 1;
      return Success(Some("+" + line.content));
    }
  }

  function LookaheadMarker(lines: seq<PatchLine>, i: nat): Option<string> {
    if i + 1 < |lines| && lines[i + 1].IsMarker() then Some(lines[i + 1].content) else None
  }

  method ChangeBlocks(lines: seq<PatchLine>) returns (blocks: seq<Block>)
    ensures blocks == BlocksFrom(lines, 0)
  {
    blocks := [];
    var index := 0;
    while index < |lines|
      invariant index <= |lines|
      invariant blocks + BlocksFrom(lines, index) == BlocksFrom(lines, 0)
    {
      if !lines[index].IsChange() {
        index := index + 1;
        continue;
      }
      var start := index;
      var deletions, additions := [], [];
      while index < |lines| && (lines[index].IsChange() || lines[index].IsMarker())
        invariant start <= index <= |lines|
        invariant RunEnd(lines, index) == RunEnd(lines, start)
        invariant deletions == Pick(lines, start, index, '-')
        invariant additions == Pick(lines, start, index, '+')
        invariant index == start ==> lines[index].IsChange()
      {
        var line := lines[index];
        if line.origin == '-' {
          deletions := deletions + [line];
        } else if line.origin == '+' {
          additions := additions + [line];
        }
        index := index + 1;
      }
      blocks := blocks + [Block(start, deletions, additions)];
    }
  }

  method RejectAmbiguousSelection(lines: seq<PatchLine>, h: nat, sel: Selection) returns (rejected: bool)
    ensures rejected == GuardRejects(lines, h, sel)
  {
    if sel.None? {
      return false;
    }
    var blocks := ChangeBlocks(lines);
    for k := 0 to |blocks|
      invariant forall j :: 0 <= j < k ==> !BlockRejected(blocks[j], h, sel.value)
    {
      var b := blocks[k];
      if |b.deletions| <= 1 {
        continue;
      }
      var nd, na := |b.deletions|, |b.additions|;
      var unselectedDeletion := exists i: nat :: b.start <= i < b.start + nd && (h, i) !in sel.value;
      var selectedAddition := exists i: nat :: b.start + nd <= i < b.start + nd + na && (h, i) in sel.value;
      if unselectedDeletion && selectedAddition {
        return true;
      }
    }
    return false;
  }

  lemma BuildStep(lines: seq<PatchLine>, h: nat, i: nat, sel: Selection, reverse: bool)
    requires i < |lines|
    ensures BuildOf(lines, h, i + 1, sel, reverse)
         == Extend(BuildOf(lines, h, i, sel, reverse), lines[i], Entry(lines, h, i, sel, reverse))
  {
  }

  lemma BuildStart(lines: seq<PatchLine>, h: nat, sel: Selection, reverse: bool)
    ensures BuildOf(lines, h, 0, sel, reverse) == Build(0, 0, [])
  {
  }

  lemma MarkerEntry(lines: seq<PatchLine>, h: nat, i: nat, sel: Selection, reverse: bool)
    requires i + 1 < |lines| && lines[i + 1].IsMarker()
    ensures Entry(lines, h, i + 1, sel, reverse)
         == if !lines[i].IsMarker() && Piece(lines[i], Keeps(sel, h, i), reverse).Some?
            then LookaheadMarker(lines, i) else None
  {
  }

  method BuildHunk(hunk: PatchHunk, h: nat, sel: Selection, reverse: bool) returns (r: Result<HunkBuild, PatchError>)
    ensures r.Failure? ==> HunkError(hunk, h, sel) == Some(r.error)
    ensures r.Success? ==>
      && HunkError(hunk, h, sel) == None
      && fresh(r.value) && r.value.Value() == FullBuild(hunk, h, sel, reverse)
  {
    hide GuardRejects, Piece, BuildOf;
    var rejected := RejectAmbiguousSelection(hunk.lines, h, sel);
    if rejected {
      return Failure(Ambiguous);
    }
    var lines := hunk.lines;
    var build := new HunkBuild();
    var pending: Option<string> := None;
    assert BuildOf(lines, h, 0, sel, reverse) == Build(0, 0, []) by { BuildStart(lines, h, sel, reverse); }
    for i := 0 to |lines|
      invariant fresh(build)
      invariant FirstUnknown(lines, i) == FirstUnknown(lines, 0)
      invariant build.Value() == BuildOf(lines, h, i, sel, reverse)
      invariant i < |lines| && lines[i].IsMarker() ==> pending == Entry(lines, h, i, sel, reverse)
    {
      var line := lines[i];
      BuildStep(lines, h, i, sel, reverse);
      if i + 1 < |lines| && lines[i + 1].IsMarker() {
        MarkerEntry(lines, h, i, sel, reverse);
      }
      if line.IsMarker() {
        if pending.Some? {
          build.body := build.body + [pending.value];
          pending := None;
        }
        continue;
      }
      var keep := if sel.None? then true else (h, i) in sel.value;
      var emitted := build.EmitLine(line, keep, reverse);
      pending := None;
      if emitted.Failure? {
        return Failure(emitted.error);
      }
      if emitted.value.None? {
        continue;
      }
      build.body := build.body + [emitted.value.value];
      pending := LookaheadMarker(lines, i);
    }
    return Success(build);
  }

  lemma {:induction false} HunksTextSplit(a: seq<OutHunk>, b: seq<OutHunk>)
    ensures HunksText(a + b) == HunksText(a) + HunksText(b)
  {
    hide HunkText, HunksText;
    if a == [] {
      assert a + b == b;
      NothingPlaced([], false, 0);
    } else {
      HunksTextSplit(a[1..], b);
      assert a + b == [a[0]] + (a[1..] + b) && a == [a[0]] + a[1..];
      HunksTextCons(a[0], a[1..] + b);
      HunksTextCons(a[0], a[1..]);
    }
  }

  lemma HunksTextCons(o: OutHunk, os: seq<OutHunk>)
    ensures HunksText([o] + os) == HunkText(o) + HunksText(os)
  {
    hide HunkText;
    assert ([o] + os)[1..] == os;
  }

  lemma AppendHunk(a: seq<OutHunk>, o: OutHunk)
    ensures HunksText(a + [o]) == HunksText(a) + HunkText(o)
  {
    HunksTextSplit(a, [o]);
    assert [o][1..] == [];
    assert HunksText([o]) == HunkText(o) + "" == HunkText(o);
  }

  lemma NothingPlaced(hunks: seq<PatchHunk>, reverse: bool, offset: int)
    ensures Place(hunks, [], reverse, offset) == [] && HunksText([]) == ""
  {
  }

  lemma PlaceUnfolds(hunks: seq<PatchHunk>, bs: seq<(nat, Build)>, j: nat, reverse: bool, offset: int)
    requires NumbersHunks(bs, hunks) && j < |bs|
    ensures Place(hunks, bs[j..], reverse, offset)
         == [PlaceOne(hunks[bs[j].0], bs[j].1, reverse, offset)]
            + Place(hunks, bs[j + 1..], reverse, offset + bs[j].1.newCount - bs[j].1.oldCount)
  {
    assert bs[j..][0] == bs[j] && bs[j..][1..] == bs[j + 1..];
  }

  lemma PlaceShape(hunks: seq<PatchHunk>, bs: seq<(nat, Build)>, reverse: bool, offset: int)
    requires NumbersHunks(bs, hunks)
    ensures |Place(hunks, bs, reverse, offset)| == |bs|
    ensures forall j :: 0 <= j < |bs| ==> Place(hunks, bs, reverse, offset)[j].newCount == bs[j].1.newCount
  {
    if bs != [] {
      PlaceShape(hunks, bs[1..], reverse, offset + bs[0].1.newCount - bs[0].1.oldCount);
    }
  }

  method RenderHeader(patch: FilePatch, builds: seq<(nat, HunkBuild)>, reverse: bool, ghost placed: seq<OutHunk>)
    returns (text: string)
    requires |placed| == |builds|
    requires forall j :: 0 <= j < |builds| ==> placed[j].newCount == builds[j].1.newCount
    ensures text == FileHeader(patch, placed, reverse)
  {
    var isNew, isDeleted := patch.isNew, patch.isDeleted;
    if reverse {
      isNew, isDeleted := isDeleted, isNew;
    }
    var path := if reverse then patch.newPath else patch.oldPath;
    var mode := if reverse then patch.newMode else patch.oldMode;
    if isDeleted {
      var deletesEverything := |builds| == |patch.hunks|
        && forall j :: 0 <= j < |builds| ==> builds[j].1.newCount == 0;
      if !deletesEverything {
        isDeleted := false;
      }
    }
    assert isDeleted == SaysDeleted(patch, placed, reverse);
    text := "diff --git a/" + path + " b/" + path + "\n";
    if isNew {
      text := text + ("new file mode " + patch.newMode + "\n");
    } else if isDeleted {
      text := text + ("deleted file mode " + mode + "\n");
    } else {
      assert text == text + "";
    }
    text := text + "--- " + (if isNew then "/dev/null" else "a/" + path) + "\n";
    text := text + "+++ " + (if isDeleted then "/dev/null" else "b/" + path) + "\n";
  }

  // One hunk of the rendered patch; the returned offset is the drift after it.
  method RenderHunk(source: PatchHunk, build: HunkBuild, reverse: bool, offset: int)
    returns (text: string, newOffset: int)
    ensures text == HunkText(PlaceOne(source, build.Value(), reverse, offset))
    ensures newOffset == offset + build.newCount - build.oldCount
  {
    hide FormatHunkHeader, Concat;
    var oldCount, newCount := build.oldCount, build.newCount;
    var oldStart := if reverse then source.newStart else source.oldStart;
    var newStart: int;
    if oldCount == 0 {
      newStart := oldStart + 1 + offset;
    } else {
      newStart := oldStart + offset;
    }
    if newCount == 0 {
      newStart := 0;
    }
    newOffset := offset + newCount - oldCount;
    var body := Join(build.body);
    text := FormatHunkHeader(oldStart, oldCount, newStart, newCount) + "\n" + body;
  }

  method RenderHunks(hunks: seq<PatchHunk>, builds: seq<(nat, HunkBuild)>, reverse: bool, ghost bs: seq<(nat, Build)>)
    returns (text: string)
    requires |builds| == |bs|
    requires forall j :: 0 <= j < |builds| ==> builds[j].0 == bs[j].0 && builds[j].1.Value() == bs[j].1
    requires NumbersHunks(bs, hunks)
    ensures text == HunksText(Place(hunks, bs, reverse, 0))
  {
    hide HunkText, PlaceOne, Place, HunksText;
    text := "";
    var offset := 0;
    ghost var done: seq<OutHunk> := [];
    NothingPlaced(hunks, reverse, 0);
    for j := 0 to |builds|
      invariant done + Place(hunks, bs[j..], reverse, offset) == Place(hunks, bs[0..], reverse, 0)
      invariant text == HunksText(done)
    {
      var (k, build) := builds[j];
      ghost var out := PlaceOne(hunks[k], bs[j].1, reverse, offset);
      PlaceUnfolds(hunks, bs, j, reverse, offset);
      AppendHunk(done, out);
      var hunkText, drift := RenderHunk(hunks[k], build, reverse, offset);
      text, offset := text + hunkText, drift;
      done := done + [out];
    }
    assert bs[|builds|..] == [];
    NothingPlaced(hunks, reverse, offset);
    assert bs[0..] == bs && done + [] == done;
  }

  // The builds of all hunks that carry a change, or the first error.
  method CollectBuilds(hunks: seq<PatchHunk>, sel: Selection, reverse: bool)
    returns (r: Result<seq<(nat, HunkBuild)>, PatchError>, ghost bs: seq<(nat, Build)>)
    ensures r.Failure? ==> FirstError(hunks, 0, sel) == Some(r.error)
    ensures r.Success? ==>
      && FirstError(hunks, 0, sel) == None
      && bs == BuildsFrom(hunks, 0, sel, reverse)
      && |r.value| == |bs|
      && forall j :: 0 <= j < |bs| ==> r.value[j].0 == bs[j].0 && r.value[j].1.Value() == bs[j].1
  {
    hide FullBuild, HunkError, HasChange, BuildsFrom;
    BuildsEnd(hunks, sel, reverse);
    var builds: seq<(nat, HunkBuild)> := [];
    bs := [];
    for k := 0 to |hunks|
      invariant FirstError(hunks, k, sel) == FirstError(hunks, 0, sel)
      invariant bs + BuildsFrom(hunks, k, sel, reverse) == BuildsFrom(hunks, 0, sel, reverse)
      invariant |builds| == |bs|
      invariant forall j :: 0 <= j < |bs| ==> builds[j].0 == bs[j].0 && builds[j].1.Value() == bs[j].1
    {
      BuildsUnfold(hunks, k, sel, reverse);
      var built := BuildHunk(hunks[k], k, sel, reverse);
      if built.Failure? {
        return Failure(built.error), bs;
      }
      var build := built.value;
      if HasChange(build.body) {
        builds, bs := builds + [(k, build)], bs + [(k, build.Value())];
      }
    }
    return Success(builds), bs;
  }

  method SynthesizePatch(patch: FilePatch, sel: Selection, reverse: bool) returns (r: Result<string, PatchError>)
    ensures r == match Synthesis(patch, sel, reverse)
                 case Success(os) => Success(PatchText(patch, os, reverse))
                 case Failure(e) => Failure(e)
  {
    if patch.isBinary {
      return Failure(Binary);
    }
    if patch.IsRename() {
      return Failure(Rename);
    }
    if patch.hunks == [] {
      return Failure(NoHunks);
    }
    var collected, bs := CollectBuilds(patch.hunks, sel, reverse);
    if collected.Failure? {
      return Failure(collected.error);
    }
    var builds := collected.value;
    if builds == [] {
      return Failure(NothingSelected);
    }
    PlaceShape(patch.hunks, bs, reverse, 0);
    var header := RenderHeader(patch, builds, reverse, Place(patch.hunks, bs, reverse, 0));
    var body := RenderHunks(patch.hunks, builds, reverse, bs);
    return Success(header + body);
  }
}
