// Patch synthesis: from a diff and a set of selected lines to the patch that is applied to the
// index (src/gitclient/domain/patch.py).
//
// The functions say what the synthesis computes, index by index; the methods follow the source
// statement by statement and are proved equal to them. What the emitted patch means is in
// PatchApply.dfy, what the guard protects is in PatchGuard.dfy.
module Patch {
  import opened Text
  import opened Wrappers

  // ----- Data -----

  datatype PatchLine = PatchLine(origin: char, content: string, oldLineno: Option<int>, newLineno: Option<int>) {
    predicate IsMarker() { origin == '=' || origin == '>' || origin == '<' }

    predicate IsChange() { origin == '+' || origin == '-' }

    predicate IsContext() { origin == ' ' }

    predicate IsKnown() { IsMarker() || IsChange() || IsContext() }
  }

  datatype PatchHunk = PatchHunk(oldStart: nat, oldLines: nat, newStart: nat, newLines: nat, lines: seq<PatchLine>)

  datatype FilePatch = FilePatch(
    oldPath: string, newPath: string, hunks: seq<PatchHunk>,
    isNew: bool, isDeleted: bool, isBinary: bool, oldMode: string, newMode: string)
  {
    predicate IsRename() { oldPath != newPath }
  }

  datatype PatchError = Binary | Rename | NoHunks | Ambiguous | UnknownOrigin(origin: char) | NothingSelected

  // The coordinates (hunk, line) the user picked; None stands for every line.
  type Selection = Option<set<(nat, nat)>>

  predicate Keeps(sel: Selection, h: nat, i: nat) {
    sel.None? || (h, i) in sel.value
  }

  // The accumulated value of one hunk under construction.
  datatype Build = Build(oldCount: nat, newCount: nat, body: seq<string>)

  // One hunk of the emitted patch: the four numbers of its header and its body.
  datatype OutHunk = OutHunk(oldStart: nat, oldCount: nat, newStart: int, newCount: nat, body: seq<string>)

  // ----- One line -----

  // Is a change line part of the file the patch is applied to?
  predicate InIndex(line: PatchLine, reverse: bool) {
    line.origin == if reverse then '+' else '-'
  }

  predicate IsTag(c: char) { c == ' ' || c == '+' || c == '-' }

  // The body text a line turns into, or nothing.
  function Piece(line: PatchLine, keep: bool, reverse: bool): (e: Option<string>)
    ensures e.Some? ==> |e.value| > 0 && IsTag(e.value[0]) && e.value[1..] == line.content
  {
    if line.IsContext() then Some(" " + line.content)
    else if !line.IsChange() then None
    else if !keep then
      if InIndex(line, reverse) then Some(" " + line.content) else None
    else if InIndex(line, reverse) then Some("-" + line.content)
    else Some("+" + line.content)
  }

  // A marker shares the fate of the line right before it.
  function Entry(lines: seq<PatchLine>, h: nat, i: nat, sel: Selection, reverse: bool): Option<string>
    requires i < |lines|
  {
    if !lines[i].IsMarker() then Piece(lines[i], Keeps(sel, h, i), reverse)
    else if i > 0 && Piece(lines[i - 1], Keeps(sel, h, i - 1), reverse).Some? then Some(lines[i].content)
    else None
  }

  // ----- One hunk -----

  function Count(b: bool): nat { if b then 1 else 0 }

  // One more line, with the text it contributes; markers are never counted.
  function Extend(b: Build, line: PatchLine, e: Option<string>): Build {
    var counted := !line.IsMarker() && e.Some? && e.value != "";
    Build(
      b.oldCount + Count(counted && e.value[0] != '+'),
      b.newCount + Count(counted && e.value[0] != '-'),
      if e.Some? then b.body + [e.value] else b.body)
  }

  // The build after the first n lines.
  function BuildOf(lines: seq<PatchLine>, h: nat, n: nat, sel: Selection, reverse: bool): Build
    requires n <= |lines|
  {
    if n == 0 then Build(0, 0, [])
    else Extend(BuildOf(lines, h, n - 1, sel, reverse), lines[n - 1], Entry(lines, h, n - 1, sel, reverse))
  }

  predicate StartsChange(entry: string) {
    |entry| > 0 && (entry[0] == '+' || entry[0] == '-')
  }

  predicate HasChange(body: seq<string>) {
    exists i :: 0 <= i < |body| && StartsChange(body[i])
  }

  // The first line, from i on, whose origin the synthesis does not know.
  function FirstUnknown(lines: seq<PatchLine>, i: nat): Option<PatchError>
    requires i <= |lines|
    decreases |lines| - i
  {
    if i == |lines| then None
    else if !lines[i].IsKnown() then Some(UnknownOrigin(lines[i].origin))
    else FirstUnknown(lines, i + 1)
  }

  // ----- The guard -----

  datatype Block = Block(start: nat, deletions: seq<PatchLine>, additions: seq<PatchLine>)

  predicate InRun(line: PatchLine) { line.IsChange() || line.IsMarker() }

  // The end of the run of changes and markers that contains i.
  function RunEnd(lines: seq<PatchLine>, i: nat): (e: nat)
    requires i <= |lines|
    ensures i <= e <= |lines|
    ensures forall k :: i <= k < e ==> InRun(lines[k])
    ensures e < |lines| ==> !InRun(lines[e])
    decreases |lines| - i
  {
    if i < |lines| && InRun(lines[i]) then RunEnd(lines, i + 1) else i
  }

  // The lines of one origin in [s, e), in order.
  function Pick(lines: seq<PatchLine>, s: nat, e: nat, origin: char): seq<PatchLine>
    requires s <= e <= |lines|
    decreases e
  {
    if s == e then []
    else Pick(lines, s, e - 1, origin) + if lines[e - 1].origin == origin then [lines[e - 1]] else []
  }

  function BlocksFrom(lines: seq<PatchLine>, i: nat): seq<Block>
    requires i <= |lines|
    decreases |lines| - i
  {
    if i == |lines| then []
    else if !lines[i].IsChange() then BlocksFrom(lines, i + 1)
    else
      var e := RunEnd(lines, i);
      [Block(i, Pick(lines, i, e, '-'), Pick(lines, i, e, '+'))] + BlocksFrom(lines, e)
  }

  predicate SomeUnselected(sel: set<(nat, nat)>, h: nat, from: nat, n: nat) {
    exists i: nat :: from <= i < from + n && (h, i) !in sel
  }

  predicate SomeSelected(sel: set<(nat, nat)>, h: nat, from: nat, n: nat) {
    exists i: nat :: from <= i < from + n && (h, i) in sel
  }

  predicate BlockRejected(b: Block, h: nat, sel: set<(nat, nat)>) {
    && |b.deletions| > 1
    && SomeUnselected(sel, h, b.start, |b.deletions|)
    && SomeSelected(sel, h, b.start + |b.deletions|, |b.additions|)
  }

  predicate GuardRejects(lines: seq<PatchLine>, h: nat, sel: Selection) {
    sel.Some? && exists k :: 0 <= k < |BlocksFrom(lines, 0)| && BlockRejected(BlocksFrom(lines, 0)[k], h, sel.value)
  }

  // ----- The whole patch -----

  function HunkError(hunk: PatchHunk, h: nat, sel: Selection): Option<PatchError> {
    if GuardRejects(hunk.lines, h, sel) then Some(Ambiguous) else FirstUnknown(hunk.lines, 0)
  }

  function FirstError(hunks: seq<PatchHunk>, k: nat, sel: Selection): Option<PatchError>
    requires k <= |hunks|
    decreases |hunks| - k
  {
    if k == |hunks| then None
    else if HunkError(hunks[k], k, sel).Some? then HunkError(hunks[k], k, sel)
    else FirstError(hunks, k + 1, sel)
  }

  function FullBuild(hunk: PatchHunk, h: nat, sel: Selection, reverse: bool): Build {
    BuildOf(hunk.lines, h, |hunk.lines|, sel, reverse)
  }

  // The builds of the hunks from k on that carry a change, with their hunk numbers.
  function BuildsFrom(hunks: seq<PatchHunk>, k: nat, sel: Selection, reverse: bool): (bs: seq<(nat, Build)>)
    requires k <= |hunks|
    ensures forall j :: 0 <= j < |bs| ==> k <= bs[j].0 < |hunks|
    ensures |bs| <= |hunks| - k
    decreases |hunks| - k
  {
    if k == |hunks| then []
    else
      var b := FullBuild(hunks[k], k, sel, reverse);
      (if HasChange(b.body) then [(k, b)] else []) + BuildsFrom(hunks, k + 1, sel, reverse)
  }

  lemma BuildsUnfold(hunks: seq<PatchHunk>, k: nat, sel: Selection, reverse: bool)
    requires k < |hunks|
    ensures BuildsFrom(hunks, k, sel, reverse)
         == (var b := FullBuild(hunks[k], k, sel, reverse); if HasChange(b.body) then [(k, b)] else [])
            + BuildsFrom(hunks, k + 1, sel, reverse)
  {
  }

  lemma BuildsEnd(hunks: seq<PatchHunk>, sel: Selection, reverse: bool)
    ensures BuildsFrom(hunks, |hunks|, sel, reverse) == []
  {
  }

  function IndexStart(hunk: PatchHunk, reverse: bool): nat {
    if reverse then hunk.newStart else hunk.oldStart
  }

  // The header numbers of one emitted hunk, given the line drift of the hunks emitted before it.
  function PlaceOne(hunk: PatchHunk, b: Build, reverse: bool, offset: int): OutHunk {
    var start := IndexStart(hunk, reverse);
    var newStart :=
      if b.newCount == 0 then 0
      else if b.oldCount == 0 then start + 1 + offset
      else start + offset;
    OutHunk(start, b.oldCount, newStart, b.newCount, b.body)
  }

  ghost predicate NumbersHunks(bs: seq<(nat, Build)>, hunks: seq<PatchHunk>) {
    forall j :: 0 <= j < |bs| ==> bs[j].0 < |hunks|
  }

  function Place(hunks: seq<PatchHunk>, bs: seq<(nat, Build)>, reverse: bool, offset: int): seq<OutHunk>
    requires NumbersHunks(bs, hunks)
  {
    if bs == [] then []
    else
      var b := bs[0].1;
      [PlaceOne(hunks[bs[0].0], b, reverse, offset)]
      + Place(hunks, bs[1..], reverse, offset + b.newCount - b.oldCount)
  }

  function Synthesis(patch: FilePatch, sel: Selection, reverse: bool): Result<seq<OutHunk>, PatchError> {
    if patch.isBinary then Failure(Binary)
    else if patch.IsRename() then Failure(Rename)
    else if patch.hunks == [] then Failure(NoHunks)
    else if FirstError(patch.hunks, 0, sel).Some? then Failure(FirstError(patch.hunks, 0, sel).value)
    else
      var bs := BuildsFrom(patch.hunks, 0, sel, reverse);
      if bs == [] then Failure(NothingSelected) else Success(Place(patch.hunks, bs, reverse, 0))
  }

  // ----- The text -----

  function Range(start: int, count: nat): string {
    if count == 1 then Number(start) else Number(start) + "," + Decimal(count)
  }

  function FormatHunkHeader(oldStart: int, oldLines: nat, newStart: int, newLines: nat): string {
    "@@ -" + Range(oldStart, oldLines) + " +" + Range(newStart, newLines) + " @@"
  }

  function HunkText(o: OutHunk): string {
    FormatHunkHeader(o.oldStart, o.oldCount, o.newStart, o.newCount) + "\n" + Concat(o.body)
  }

  function HunksText(os: seq<OutHunk>): string {
    if os == [] then "" else HunkText(os[0]) + HunksText(os[1..])
  }

  predicate AllEmpty(os: seq<OutHunk>) {
    forall j :: 0 <= j < |os| ==> os[j].newCount == 0
  }

  predicate SaysNew(patch: FilePatch, reverse: bool) {
    if reverse then patch.isDeleted else patch.isNew
  }

  // The deletion header survives only when every hunk is emitted and none leaves a line.
  predicate SaysDeleted(patch: FilePatch, os: seq<OutHunk>, reverse: bool) {
    (if reverse then patch.isNew else patch.isDeleted) && |os| == |patch.hunks| && AllEmpty(os)
  }

  function FileHeader(patch: FilePatch, os: seq<OutHunk>, reverse: bool): string {
    var path := if reverse then patch.newPath else patch.oldPath;
    var mode := if reverse then patch.newMode else patch.oldMode;
    var isNew := SaysNew(patch, reverse);
    var isDeleted := SaysDeleted(patch, os, reverse);
    "diff --git a/" + path + " b/" + path + "\n"
    + (if isNew then "new file mode " + patch.newMode + "\n"
       else if isDeleted then "deleted file mode " + mode + "\n" else "")
    + "--- " + (if isNew then "/dev/null" else "a/" + path) + "\n"
    + "+++ " + (if isDeleted then "/dev/null" else "b/" + path) + "\n"
  }

  function PatchText(patch: FilePatch, os: seq<OutHunk>, reverse: bool): string {
    FileHeader(patch, os, reverse) + HunksText(os)
  }
}
