// Screen rows and patch coordinates (src/gitclient/domain/patch.py:166-207,
// src/gitclient/viewmodel/diff_model.py).
module DiffModel {
  import opened Text
  import opened Wrappers
  import opened Patch
  import opened PatchApply
  import opened PatchGuard

  datatype RowKind = FileHeader | HunkHeader | Context | Addition | Deletion

  // A row of the diff view, and the coordinate of the change line it shows.
  datatype DiffLine = DiffLine(kind: RowKind, text: string, oldLineno: Option<int>, newLineno: Option<int>)

  type Position = Option<(nat, nat)>

  datatype Row = Row(line: DiffLine, position: Position)

  // The text shown for a file without lines, "(binary file)" in the language of the user.
  const BINARY_TEXT := "(binary)"

  // ----- The rows of a patch -----

  function HeaderRow(patch: FilePatch): Row {
    var title := if patch.oldPath != patch.newPath then patch.oldPath + " -> " + patch.newPath else patch.newPath;
    Row(DiffLine(FileHeader, title, None, None), None)
  }

  function HunkRow(hunk: PatchHunk): Row {
    Row(DiffLine(HunkHeader, FormatHunkHeader(hunk.oldStart, hunk.oldLines, hunk.newStart, hunk.newLines), None, None), None)
  }

  function LineRow(line: PatchLine, h: nat, i: nat): Row {
    var kind := if line.origin == '+' then Addition else if line.origin == '-' then Deletion else Context;
    Row(DiffLine(kind, StripEnd(line.content), line.oldLineno, line.newLineno), if line.IsChange() then Some((h, i)) else None)
  }

  // The rows of the first n lines; a marker belongs to the line before it and has none.
  function LineRows(lines: seq<PatchLine>, h: nat, n: nat): seq<Row>
    requires n <= |lines|
  {
    if n == 0 then []
    else LineRows(lines, h, n - 1) + if lines[n - 1].IsMarker() then [] else [LineRow(lines[n - 1], h, n - 1)]
  }

  // The rows of the first k hunks.
  function HunkRows(hunks: seq<PatchHunk>, k: nat): seq<Row>
    requires k <= |hunks|
  {
    if k == 0 then []
    else HunkRows(hunks, k - 1) + [HunkRow(hunks[k - 1])] + LineRows(hunks[k - 1].lines, k - 1, |hunks[k - 1].lines|)
  }

  function DisplayRows(patch: FilePatch): seq<Row> {
    [HeaderRow(patch)]
    + if patch.isBinary then [Row(DiffLine(Context, BINARY_TEXT, None, None), None)]
      else HunkRows(patch.hunks, |patch.hunks|)
  }

  method IterDisplayRows(patch: FilePatch) returns (rows: seq<Row>)
    ensures rows == DisplayRows(patch)
  {
    hide HunkRows, HeaderRow;
    rows := [HeaderRow(patch)];
    if patch.isBinary {
      return rows + [Row(DiffLine(Context, BINARY_TEXT, None, None), None)];
    }
    var below := IterHunkRows(patch.hunks);
    rows := rows + below;
  }

  // The loop over the hunks.
  method IterHunkRows(hunks: seq<PatchHunk>) returns (rows: seq<Row>)
    ensures rows == HunkRows(hunks, |hunks|)
  {
    hide HunkRow, LineRows;
    rows := [];
    for k := 0 to |hunks|
      invariant rows == HunkRows(hunks, k)
    {
      var body := IterLineRows(hunks[k].lines, k);
      rows := rows + [HunkRow(hunks[k])] + body;
    }
  }

  // The rows of one hunk below its header.
  method IterLineRows(lines: seq<PatchLine>, h: nat) returns (rows: seq<Row>)
    ensures rows == LineRows(lines, h, |lines|)
  {
    hide LineRow;
    rows := [];
    for i := 0 to |lines|
      invariant rows == LineRows(lines, h, i)
    {
      if lines[i].IsMarker() {
        continue;
      }
      rows := rows + [LineRow(lines[i], h, i)];
    }
  }

  // ----- The model -----

  // The number of hunk headers among the first n lines.
  function Headers(lines: seq<DiffLine>, n: nat): nat
    requires n <= |lines|
  {
    if n == 0 then 0 else Headers(lines, n - 1) + if lines[n - 1].kind == HunkHeader then 1 else 0
  }

  // The hunk a row belongs to: the last one whose header is not below it.
  function HunkOfRow(lines: seq<DiffLine>, row: nat): Option<nat>
    requires row < |lines|
  {
    var n := Headers(lines, row + 1);
    if n == 0 then None else Some(n - 1)
  }

  class DiffView {
    var lines: seq<DiffLine>
    var positions: seq<Position>
    var hunkOfRow: seq<Option<nat>>
    var patch: Option<FilePatch>

    constructor ()
      ensures lines == [] && positions == [] && hunkOfRow == [] && patch == None
    {
      lines, positions, hunkOfRow, patch := [], [], [], None;
    }

    method MapRowsToHunks(ls: seq<DiffLine>) returns (out: seq<Option<nat>>)
      ensures |out| == |ls| && forall r :: 0 <= r < |ls| ==> out[r] == HunkOfRow(ls, r)
    {
      out := [];
      var current := -1;
      for r := 0 to |ls|
        invariant current == Headers(ls, r) - 1
        invariant |out| == r && forall k :: 0 <= k < r ==> out[k] == HunkOfRow(ls, k)
      {
        if ls[r].kind == HunkHeader {
          current := current + 1;
        }
        out := out + [if current >= 0 then Some(current) else None];
      }
    }

    method SetLines(ls: seq<DiffLine>, ps: Option<seq<Position>>, p: Option<FilePatch>)
      modifies this
      ensures lines == ls && patch == p
      ensures positions == if ps.Some? && ps.value != [] then ps.value else seq(|ls|, _ => None)
      ensures |hunkOfRow| == |ls| && forall r :: 0 <= r < |ls| ==> hunkOfRow[r] == HunkOfRow(ls, r)
    {
      lines := ls;
      positions := if ps.Some? && ps.value != [] then ps.value else seq(|ls|, _ => None);
      hunkOfRow := MapRowsToHunks(ls);
      patch := p;
    }

    function HunkAt(row: int): (h: Option<nat>)
      reads this
      ensures !(0 <= row < |hunkOfRow|) ==> h == None
    {
      if 0 <= row < |hunkOfRow| then hunkOfRow[row] else None
    }

    function PositionAt(row: int): (p: Position)
      reads this
      ensures !(0 <= row < |positions|) ==> p == None
    {
      if 0 <= row < |positions| then positions[row] else None
    }

    function PositionsInHunk(h: nat): set<(nat, nat)>
      reads this
    {
      set p | p in positions && p.Some? && p.value.0 == h :: p.value
    }

    // The rows of a patch, as the diff loader hands them over.
    method Show(p: FilePatch)
      modifies this
      ensures var rows := DisplayRows(p);
        && |positions| == |rows| == |lines| && patch == Some(p)
        && (forall r :: 0 <= r < |rows| ==> lines[r] == rows[r].line && positions[r] == rows[r].position)
        && |hunkOfRow| == |rows| && forall r :: 0 <= r < |rows| ==> hunkOfRow[r] == HunkOfRow(lines, r)
    {
      hide DisplayRows;
      var rows := IterDisplayRows(p);
      var ls := seq(|rows|, r requires 0 <= r < |rows| => rows[r].line);
      var ps := seq(|rows|, r requires 0 <= r < |rows| => rows[r].position);
      SetLines(ls, Some(ps), Some(p));
      assert rows == [] ==> positions == [];
    }
  }

  // ----- Screen and patch coordinates agree -----

  function LinesOf(rows: seq<Row>): (ls: seq<DiffLine>)
    ensures |ls| == |rows| && forall r :: 0 <= r < |rows| ==> ls[r] == rows[r].line
  {
    seq(|rows|, r requires 0 <= r < |rows| => rows[r].line)
  }

  // Every position of the rows is that of a change line of the hunks before k, shown as it is.
  ghost predicate Faithful(rows: seq<Row>, hunks: seq<PatchHunk>, k: nat)
    requires k <= |hunks|
  {
    forall r :: 0 <= r < |rows| && rows[r].position.Some? ==> ShowsLine(rows[r], hunks, k)
  }

  ghost predicate ShowsLine(row: Row, hunks: seq<PatchHunk>, k: nat)
    requires k <= |hunks| && row.position.Some?
  {
    var (h, i) := row.position.value;
    h < k && i < |hunks[h].lines| && hunks[h].lines[i].IsChange() && row == LineRow(hunks[h].lines[i], h, i)
  }

  ghost predicate InOrder(rows: seq<Row>) {
    forall a, b :: 0 <= a < b < |rows| && rows[a].position.Some? && rows[b].position.Some? ==>
      Earlier(rows[a].position.value, rows[b].position.value)
  }

  predicate Earlier(p: (nat, nat), q: (nat, nat)) { p.0 < q.0 || (p.0 == q.0 && p.1 < q.1) }

  ghost predicate Has(rows: seq<Row>, h: nat, i: nat) {
    exists r :: 0 <= r < |rows| && rows[r].position == Some((h, i))
  }

  lemma HasGrows(a: seq<Row>, b: seq<Row>, h: nat, i: nat)
    ensures Has(a, h, i) || Has(b, h, i) ==> Has(a + b, h, i)
  {
    if r :| 0 <= r < |a| && a[r].position == Some((h, i)) {
      assert (a + b)[r].position == Some((h, i));
    }
    if r :| 0 <= r < |b| && b[r].position == Some((h, i)) {
      assert (a + b)[|a| + r].position == Some((h, i));
    }
  }

  lemma {:induction false} LineRowsAre(lines: seq<PatchLine>, h: nat, n: nat)
    requires n <= |lines|
    ensures forall i: nat :: i < n && lines[i].IsChange() ==> Has(LineRows(lines, h, n), h, i)
    ensures forall r :: 0 <= r < |LineRows(lines, h, n)| ==>
      LineRows(lines, h, n)[r].line.kind != HunkHeader && LineRows(lines, h, n)[r].line.kind != FileHeader
    ensures forall r :: 0 <= r < |LineRows(lines, h, n)| && LineRows(lines, h, n)[r].position.Some? ==>
      var p := LineRows(lines, h, n)[r].position.value;
      p.0 == h && p.1 < n && lines[p.1].IsChange() && LineRows(lines, h, n)[r] == LineRow(lines[p.1], h, p.1)
    ensures InOrder(LineRows(lines, h, n))
  {
    hide LineRow, Has, InOrder;
    if n == 0 {
      NothingInOrder();
    } else {
      LineRowsAre(lines, h, n - 1);
      var before, last := LineRows(lines, h, n - 1), LineRow(lines[n - 1], h, n - 1);
      if lines[n - 1].IsMarker() {
        assert LineRows(lines, h, n) == before;
      } else {
        LineRowIs(lines[n - 1], h, n - 1);
        forall i: nat | i < n && lines[i].IsChange() ensures Has(LineRows(lines, h, n), h, i) {
          HasGrows(before, [last], h, i);
        }
        OneMoreInOrder(before, last, h, n - 1);
      }
    }
  }

  lemma NothingInOrder()
    ensures InOrder([])
  {
  }

  lemma LineRowIs(line: PatchLine, h: nat, i: nat)
    ensures var row := LineRow(line, h, i);
      && row.position == (if line.IsChange() then Some((h, i)) else None)
      && row.line.kind != HunkHeader && row.line.kind != FileHeader
      && (line.IsChange() ==> Has([row], h, i))
  {
    var row := LineRow(line, h, i);
    assert line.IsChange() ==> [row][0].position == Some((h, i));
  }

  lemma OneMoreInOrder(rows: seq<Row>, last: Row, h: nat, i: nat)
    requires InOrder(rows) && (last.position == None || last.position == Some((h, i)))
    requires forall r :: 0 <= r < |rows| && rows[r].position.Some? ==> Earlier(rows[r].position.value, (h, i))
    ensures InOrder(rows + [last])
  {
  }

  // The hunk mapped to a row is that of the row's coordinate.
  ghost predicate HunksAgree(rows: seq<Row>) {
    forall r :: 0 <= r < |rows| && rows[r].position.Some? ==>
      HunkOfRow(LinesOf(rows), r) == Some(rows[r].position.value.0)
  }

  lemma {:induction false} HeadersSplit(a: seq<DiffLine>, b: seq<DiffLine>, n: nat)
    requires n <= |a + b|
    ensures Headers(a + b, n) == if n <= |a| then Headers(a, n) else Headers(a, |a|) + Headers(b, n - |a|)
  {
    if n > 0 {
      HeadersSplit(a, b, n - 1);
    }
  }

  lemma {:induction false} NoHeaders(ls: seq<DiffLine>, n: nat)
    requires n <= |ls| && forall r :: 0 <= r < n ==> ls[r].kind != HunkHeader
    ensures Headers(ls, n) == 0
  {
    if n > 0 {
      NoHeaders(ls, n - 1);
    }
  }

  // All that holds of the rows of the first k hunks.
  ghost predicate RowsAgree(rows: seq<Row>, hunks: seq<PatchHunk>, k: nat)
    requires k <= |hunks|
  {
    && Faithful(rows, hunks, k) && InOrder(rows) && HunksAgree(rows)
    && (forall h: nat, i: nat :: h < k && i < |hunks[h].lines| && hunks[h].lines[i].IsChange() ==> Has(rows, h, i))
    && Headers(LinesOf(rows), |rows|) == k
  }

  function BlockOf(hunk: PatchHunk, k: nat): seq<Row> {
    [HunkRow(hunk)] + LineRows(hunk.lines, k, |hunk.lines|)
  }

  // The rows of one hunk: its header, and its lines below.
  ghost predicate IsBlock(block: seq<Row>, hunks: seq<PatchHunk>, k: nat)
    requires k < |hunks|
  {
    && block != [] && block[0].line.kind == HunkHeader && block[0].position == None
    && (forall r :: 0 < r < |block| ==> block[r].line.kind != HunkHeader)
    && (forall r :: 0 <= r < |block| && block[r].position.Some? ==>
          block[r].position.value.0 == k && ShowsLine(block[r], hunks, k + 1))
    && InOrder(block)
    && (forall i: nat :: i < |hunks[k].lines| && hunks[k].lines[i].IsChange() ==> Has(block, k, i))
  }

  lemma BlockIs(hunks: seq<PatchHunk>, k: nat)
    requires k < |hunks|
    ensures IsBlock(BlockOf(hunks[k], k), hunks, k)
  {
    var lines := hunks[k].lines;
    var body, block := LineRows(lines, k, |lines|), BlockOf(hunks[k], k);
    LineRowsAre(lines, k, |lines|);
    hide LineRows, LineRow;
    HeaderHasNoPosition(hunks[k]);
    assert forall r :: 0 < r < |block| ==> block[r] == body[r - 1];
    BlockIsInOrder(body, hunks, k);
    forall i: nat | i < |lines| && lines[i].IsChange() ensures Has(block, k, i) {
      HasGrows([HunkRow(hunks[k])], body, k, i);
    }
  }

  lemma BlockHeaders(block: seq<Row>, hunks: seq<PatchHunk>, k: nat, n: nat)
    requires k < |hunks| && IsBlock(block, hunks, k) && 0 < n <= |block|
    ensures Headers(LinesOf(block), n) == 1
  {
    OneHeader(block, n);
  }

  lemma LinesSplit(a: seq<Row>, b: seq<Row>)
    ensures LinesOf(a + b) == LinesOf(a) + LinesOf(b)
  {
  }

  lemma HeadersGrow(rows: seq<Row>, block: seq<Row>, hunks: seq<PatchHunk>, k: nat, n: nat)
    requires k < |hunks| && IsBlock(block, hunks, k) && n <= |rows + block|
    requires Headers(LinesOf(rows), |rows|) == k
    ensures Headers(LinesOf(rows + block), n) == if n <= |rows| then Headers(LinesOf(rows), n) else k + 1
  {
    LinesSplit(rows, block);
    HeadersSplit(LinesOf(rows), LinesOf(block), n);
    if n > |rows| {
      BlockHeaders(block, hunks, k, n - |rows|);
    }
  }

  lemma HunksAgreeGrow(rows: seq<Row>, block: seq<Row>, hunks: seq<PatchHunk>, k: nat)
    requires k < |hunks| && IsBlock(block, hunks, k) && HunksAgree(rows) && Headers(LinesOf(rows), |rows|) == k
    ensures HunksAgree(rows + block) && Headers(LinesOf(rows + block), |rows + block|) == k + 1
  {
    hide Headers, LinesOf, InOrder, Has, ShowsLine;
    var all := rows + block;
    HeadersGrow(rows, block, hunks, k, |all|);
    forall r | 0 <= r < |all| && all[r].position.Some?
      ensures HunkOfRow(LinesOf(all), r) == Some(all[r].position.value.0)
    {
      HeadersGrow(rows, block, hunks, k, r + 1);
      if r < |rows| {
        assert HunkOfRow(LinesOf(rows), r) == Some(rows[r].position.value.0);
      } else {
        assert all[r] == block[r - |rows|];
      }
    }
  }

  lemma FaithfulGrows(rows: seq<Row>, block: seq<Row>, hunks: seq<PatchHunk>, k: nat)
    requires k < |hunks| && IsBlock(block, hunks, k) && Faithful(rows, hunks, k)
    ensures Faithful(rows + block, hunks, k + 1)
  {
    hide LineRow;
    var all := rows + block;
    forall r | 0 <= r < |all| && all[r].position.Some? ensures ShowsLine(all[r], hunks, k + 1) {
      if r < |rows| {
        assert ShowsLine(rows[r], hunks, k);
      } else {
        assert all[r] == block[r - |rows|];
      }
    }
  }

  lemma OneMoreHunk(rows: seq<Row>, block: seq<Row>, hunks: seq<PatchHunk>, k: nat)
    requires k < |hunks| && RowsAgree(rows, hunks, k) && IsBlock(block, hunks, k)
    ensures RowsAgree(rows + block, hunks, k + 1)
  {
    hide InOrder, Headers, LinesOf, HunksAgree, Faithful, ShowsLine;
    FaithfulGrows(rows, block, hunks, k);
    HunksAgreeGrow(rows, block, hunks, k);
    AllInOrder(rows, block, hunks, k);
    forall h: nat, i: nat | h < k + 1 && i < |hunks[h].lines| && hunks[h].lines[i].IsChange()
      ensures Has(rows + block, h, i)
    {
      HasGrows(rows, block, h, i);
    }
  }

  lemma HeaderHasNoPosition(hunk: PatchHunk)
    ensures HunkRow(hunk).position == None
  {
  }

  lemma {:induction false} OneHeader(block: seq<Row>, n: nat)
    requires 0 < n <= |block| && block[0].line.kind == HunkHeader
    requires forall r :: 0 < r < |block| ==> block[r].line.kind != HunkHeader
    ensures Headers(LinesOf(block), n) == 1
  {
    if n > 1 {
      OneHeader(block, n - 1);
    } else {
      assert Headers(LinesOf(block), 0) == 0;
    }
  }

  lemma BlockIsInOrder(body: seq<Row>, hunks: seq<PatchHunk>, k: nat)
    requires k < |hunks| && InOrder(body)
    ensures InOrder([HunkRow(hunks[k])] + body)
  {
    HeaderHasNoPosition(hunks[k]);
  }

  lemma AllInOrder(rows: seq<Row>, block: seq<Row>, hunks: seq<PatchHunk>, k: nat)
    requires k < |hunks| && InOrder(rows) && InOrder(block) && Faithful(rows, hunks, k)
    requires forall r :: 0 <= r < |block| && block[r].position.Some? ==> block[r].position.value.0 == k
    ensures InOrder(rows + block)
  {
    var all := rows + block;
    forall a, b | 0 <= a < b < |all| && all[a].position.Some? && all[b].position.Some?
      ensures Earlier(all[a].position.value, all[b].position.value)
    {
      if a < |rows| <= b {
        assert ShowsLine(rows[a], hunks, k);
        assert all[b] == block[b - |rows|];
      } else if a >= |rows| {
        assert all[a] == block[a - |rows|] && all[b] == block[b - |rows|];
      }
    }
  }

  lemma {:induction false} RowsOfHunks(patch: FilePatch, k: nat)
    requires k <= |patch.hunks|
    ensures RowsAgree([HeaderRow(patch)] + HunkRows(patch.hunks, k), patch.hunks, k)
  {
    hide RowsAgree, BlockOf, IsBlock, HunkRows, HeaderRow;
    if k == 0 {
      HeaderAgrees(patch);
    } else {
      RowsOfHunks(patch, k - 1);
      BlockIs(patch.hunks, k - 1);
      OneMoreHunk([HeaderRow(patch)] + HunkRows(patch.hunks, k - 1), BlockOf(patch.hunks[k - 1], k - 1), patch.hunks, k - 1);
      RowsRegroup(patch, k);
    }
  }

  lemma RowsRegroup(patch: FilePatch, k: nat)
    requires 0 < k <= |patch.hunks|
    ensures [HeaderRow(patch)] + HunkRows(patch.hunks, k - 1) + BlockOf(patch.hunks[k - 1], k - 1)
         == [HeaderRow(patch)] + HunkRows(patch.hunks, k)
  {
    hide LineRows, HunkRow, HeaderRow;
  }

  lemma HeaderAgrees(patch: FilePatch)
    ensures RowsAgree([HeaderRow(patch)] + HunkRows(patch.hunks, 0), patch.hunks, 0)
  {
    var rows := [HeaderRow(patch)] + HunkRows(patch.hunks, 0);
    assert rows == [HeaderRow(patch)];
    NoHeaders(LinesOf(rows), 1);
  }

  // The coordinates of the changes of one hunk.
  function ChangeSet(patch: FilePatch, h: nat): set<(nat, nat)>
    requires h < |patch.hunks|
  {
    set i: nat | i < |patch.hunks[h].lines| && patch.hunks[h].lines[i].IsChange() :: (h, i)
  }

  // Row r of the view shows the line and answers with its coordinate and its hunk.
  ghost predicate Shown(view: DiffView, r: int, line: PatchLine, h: nat, i: nat)
    reads view
  {
    && 0 <= r < |view.lines| && view.lines[r] == LineRow(line, h, i).line
    && view.PositionAt(r) == Some((h, i)) && view.HunkAt(r) == Some(h)
  }

  // Main result on coordinates. Every change line has exactly one row, with its own text and
  // coordinate; the hunk of that row is the coordinate's hunk; and what the view collects for a
  // hunk is the set of its changes.
  method ShownCoordinatesAgree(patch: FilePatch, h: nat) returns (view: DiffView)
    requires !patch.isBinary && h < |patch.hunks|
    ensures forall i: nat :: i < |patch.hunks[h].lines| && patch.hunks[h].lines[i].IsChange() ==>
      exists r :: Shown(view, r, patch.hunks[h].lines[i], h, i)
    ensures forall r, q :: 0 <= r < q < |view.positions| && view.positions[r].Some? ==> view.positions[r] != view.positions[q]
    ensures view.PositionsInHunk(h) == ChangeSet(patch, h)
  {
    view := new DiffView();
    view.Show(patch);
    ghost var rows := DisplayRows(patch);
    RowsOfHunks(patch, |patch.hunks|);
    assert rows == [HeaderRow(patch)] + HunkRows(patch.hunks, |patch.hunks|);
    assert view.lines == LinesOf(rows);
    RowsMean(rows, patch, h);
    hide DisplayRows, RowsAgree, LineRow, LinesOf;
    forall i: nat | i < |patch.hunks[h].lines| && patch.hunks[h].lines[i].IsChange()
      ensures exists r :: Shown(view, r, patch.hunks[h].lines[i], h, i)
    {
      var r :| 0 <= r < |rows| && rows[r].position == Some((h, i));
      assert Shown(view, r, patch.hunks[h].lines[i], h, i);
    }
    forall p | p in ChangeSet(patch, h) ensures p in view.PositionsInHunk(h) {
      var r :| 0 <= r < |rows| && rows[r].position == Some(p);
      assert view.positions[r] == Some(p);
    }
    forall p | p in view.PositionsInHunk(h) ensures p in ChangeSet(patch, h) {
      var r :| 0 <= r < |rows| && view.positions[r] == Some(p);
      assert rows[r].position == Some(p);
    }
  }

  // What the agreement of the rows says about one hunk.
  lemma RowsMean(rows: seq<Row>, patch: FilePatch, h: nat)
    requires h < |patch.hunks| && RowsAgree(rows, patch.hunks, |patch.hunks|)
    ensures forall i: nat :: i < |patch.hunks[h].lines| && patch.hunks[h].lines[i].IsChange() ==>
      exists r :: 0 <= r < |rows| && rows[r].position == Some((h, i))
    ensures forall r, i: nat :: 0 <= r < |rows| && rows[r].position == Some((h, i)) ==>
      && i < |patch.hunks[h].lines| && patch.hunks[h].lines[i].IsChange()
      && rows[r].line == LineRow(patch.hunks[h].lines[i], h, i).line
      && HunkOfRow(LinesOf(rows), r) == Some(h)
    ensures forall r, q :: 0 <= r < q < |rows| && rows[r].position.Some? ==> rows[r].position != rows[q].position
  {
    hide LineRow, LinesOf, HunkOfRow;
    forall i: nat | i < |patch.hunks[h].lines| && patch.hunks[h].lines[i].IsChange()
      ensures exists r :: 0 <= r < |rows| && rows[r].position == Some((h, i))
    {
      assert Has(rows, h, i);
    }
    forall r, i: nat | 0 <= r < |rows| && rows[r].position == Some((h, i))
      ensures i < |patch.hunks[h].lines| && patch.hunks[h].lines[i].IsChange()
        && rows[r].line == LineRow(patch.hunks[h].lines[i], h, i).line && HunkOfRow(LinesOf(rows), r) == Some(h)
    {
      assert ShowsLine(rows[r], patch.hunks, |patch.hunks|);
    }
  }

  // ----- What each row shows -----

  predicate HasRow(origin: char) { origin != '=' && origin != '>' && origin != '<' }

  // The lines among the first n that have a row.
  function RowsBefore(lines: seq<PatchLine>, n: nat): nat
    requires n <= |lines|
  {
    if n == 0 then 0
    else RowsBefore(lines, n - 1) + if HasRow(lines[n - 1].origin) then 1 else 0
  }

  // The row of the header of hunk k; past the last hunk, the number of rows.
  function HeaderAt(hunks: seq<PatchHunk>, k: nat): nat
    requires k <= |hunks|
  {
    if k == 0 then 1 else HeaderAt(hunks, k - 1) + 1 + RowsBefore(hunks[k - 1].lines, |hunks[k - 1].lines|)
  }

  lemma {:induction false} LineRowsAt(lines: seq<PatchLine>, h: nat, n: nat, i: nat)
    requires i < n <= |lines| && !lines[i].IsMarker()
    ensures |LineRows(lines, h, n)| == RowsBefore(lines, n) && RowsBefore(lines, i) < RowsBefore(lines, n)
    ensures LineRows(lines, h, n)[RowsBefore(lines, i)] == LineRow(lines[i], h, i)
  {
    hide LineRow;
    LineRowsCount(lines, h, n);
    LineRowsCount(lines, h, n - 1);
    if i < n - 1 {
      LineRowsAt(lines, h, n - 1, i);
    }
  }

  lemma {:induction false} LineRowsCount(lines: seq<PatchLine>, h: nat, n: nat)
    requires n <= |lines|
    ensures |LineRows(lines, h, n)| == RowsBefore(lines, n)
  {
    hide LineRow;
    if n > 0 {
      LineRowsCount(lines, h, n - 1);
    }
  }

  lemma {:induction false} HunkRowsCount(hunks: seq<PatchHunk>, k: nat)
    requires k <= |hunks|
    ensures 1 + |HunkRows(hunks, k)| == HeaderAt(hunks, k)
  {
    hide HunkRow, LineRows, RowsBefore;
    if k > 0 {
      HunkRowsCount(hunks, k - 1);
      LineRowsCount(hunks[k - 1].lines, k - 1, |hunks[k - 1].lines|);
    }
  }

  // Where the rows of hunk h are.
  lemma {:induction false} HunkRowsAt(hunks: seq<PatchHunk>, k: nat, h: nat, d: nat)
    requires h < k <= |hunks| && d <= RowsBefore(hunks[h].lines, |hunks[h].lines|)
    ensures HeaderAt(hunks, h) + d - 1 < |HunkRows(hunks, k)|
    ensures |LineRows(hunks[h].lines, h, |hunks[h].lines|)| == RowsBefore(hunks[h].lines, |hunks[h].lines|)
    ensures HunkRows(hunks, k)[HeaderAt(hunks, h) + d - 1]
         == if d == 0 then HunkRow(hunks[h]) else LineRows(hunks[h].lines, h, |hunks[h].lines|)[d - 1]
  {
    hide HunkRow, LineRows, RowsBefore;
    HunkRowsCount(hunks, k - 1);
    LineRowsCount(hunks[h].lines, h, |hunks[h].lines|);
    if h < k - 1 {
      HunkRowsAt(hunks, k - 1, h, d);
    }
  }

  // Main result on the rows, one by one: the title of the file, for every hunk its header, and below
  // it a row for every line that is no marker, with the text without line ends, the line numbers, and
  // a coordinate exactly if it is a change; and no other rows.
  lemma RowsAre(patch: FilePatch, h: nat, i: nat)
    requires !patch.isBinary && h < |patch.hunks| && i < |patch.hunks[h].lines|
    requires HasRow(patch.hunks[h].lines[i].origin)
    ensures var rows, line, hunk := DisplayRows(patch), patch.hunks[h].lines[i], patch.hunks[h];
      var top := HeaderAt(patch.hunks, h);
      var at := top + 1 + RowsBefore(hunk.lines, i);
      && |rows| == HeaderAt(patch.hunks, |patch.hunks|) && top < at < |rows|
      && rows[0] == Row(DiffLine(FileHeader, if patch.oldPath == patch.newPath then patch.newPath
                                             else patch.oldPath + " -> " + patch.newPath, None, None), None)
      && rows[top] == Row(
           DiffLine(HunkHeader, FormatHunkHeader(hunk.oldStart, hunk.oldLines, hunk.newStart, hunk.newLines), None, None),
           None)
      && rows[at] == Row(
           DiffLine(if line.origin == '+' then Addition else if line.origin == '-' then Deletion else Context,
                    StripEnd(line.content), line.oldLineno, line.newLineno),
           if line.origin == '+' || line.origin == '-' then Some((h, i)) else None)
  {
    hide DisplayRows, RowsBefore, HeaderAt, FormatHunkHeader, StripEnd;
    RowsLie(patch, h, i);
  }

  lemma RowsLie(patch: FilePatch, h: nat, i: nat)
    requires !patch.isBinary && h < |patch.hunks| && i < |patch.hunks[h].lines|
    requires HasRow(patch.hunks[h].lines[i].origin)
    ensures var rows := DisplayRows(patch);
      var top := HeaderAt(patch.hunks, h);
      var at := top + 1 + RowsBefore(patch.hunks[h].lines, i);
      && |rows| == HeaderAt(patch.hunks, |patch.hunks|) && 0 < top < at < |rows|
      && rows[0] == HeaderRow(patch) && rows[top] == HunkRow(patch.hunks[h])
      && rows[at] == LineRow(patch.hunks[h].lines[i], h, i)
  {
    hide LineRows, HunkRows, RowsBefore, HeaderAt, HunkRow, HeaderRow, LineRow;
    var hunks, lines := patch.hunks, patch.hunks[h].lines;
    HeaderIsBelowTitle(hunks, h);
    LineRowsAt(lines, h, |lines|, i);
    HunkRowsCount(hunks, |hunks|);
    HunkRowsAt(hunks, |hunks|, h, 0);
    HunkRowsAt(hunks, |hunks|, h, 1 + RowsBefore(lines, i));
  }

  lemma {:induction false} HeaderIsBelowTitle(hunks: seq<PatchHunk>, k: nat)
    requires k <= |hunks|
    ensures HeaderAt(hunks, k) > 0
  {
  }

  // A file without lines has its title and one row more.
  lemma BinaryRowsAre(patch: FilePatch)
    requires patch.isBinary
    ensures |DisplayRows(patch)| == 2 && DisplayRows(patch)[0].line.kind == FileHeader
    ensures DisplayRows(patch)[1].line.kind == Context
    ensures forall r :: 0 <= r < 2 ==> DisplayRows(patch)[r].position == None
  {
  }

  // ----- Staging one hunk -----

  // As git writes diffs: the marker of the old file's last line follows the last deletion.
  ghost predicate DeletionsTogether(lines: seq<PatchLine>) {
    forall s: nat, k: nat, j: nat :: StartsBlock(lines, s) && s <= k < j < RunEnd(lines, s) && lines[k].IsMarker()
      ==> lines[j].origin != '-'
  }

  // Staging all changes of one hunk is never refused by the guard.
  lemma HunkIsNeverRejected(patch: FilePatch, h: nat, k: nat)
    requires h < |patch.hunks| && k < |patch.hunks|
    requires DeletionsFirst(patch.hunks[h].lines) && DeletionsTogether(patch.hunks[h].lines)
    ensures !GuardRejects(patch.hunks[k].lines, k, Some(ChangeSet(patch, h)))
  {
    var lines, sel := patch.hunks[k].lines, ChangeSet(patch, h);
    hide Pick, MarkersOnlyBefore;
    GuardRejectsIff(lines, k, sel);
    forall s: nat | StartsBlock(lines, s) ensures !BlockRejected(BlockAt(lines, s), k, sel) {
      if k == h {
        var e := RunEnd(lines, s);
        PickIsBounded(lines, s, e);
        forall i: nat | s <= i < s + PickSize(lines, s, e, '-') ensures (k, i) in sel {
          DeletionsAreFirst(lines, s, i);
        }
      }
    }
  }

  // The first positions of a block, as many as it has deletions, are changes.
  lemma DeletionsAreFirst(lines: seq<PatchLine>, s: nat, i: nat)
    requires StartsBlock(lines, s) && DeletionsFirst(lines) && DeletionsTogether(lines)
    requires s <= i < s + PickSize(lines, s, RunEnd(lines, s), '-')
    ensures i < |lines| && lines[i].IsChange()
  {
    hide Pick, MarkersOnlyBefore;
    var e := RunEnd(lines, s);
    PickIsBounded(lines, s, e);
    if lines[i].IsMarker() {
      NothingMoreToPick(lines, s, i, e, '-');
      PickIsBounded(lines, s, i);
    }
  }

  // What a diff says about the index side of its next hunk.
  lemma NextHunk(hunks: seq<PatchHunk>, k: nat, index: File, i: nat, other: File, o: nat, reverse: bool)
    requires k < |hunks| && IsDiff(hunks, k, index, i, other, o, reverse)
    ensures
      var s, n := Begin(hunks[k], reverse), IndexCount(hunks[k], reverse);
      var t, m := Begin(hunks[k], !reverse), IndexCount(hunks[k], !reverse);
      && i <= s && s + n <= |index| && 0 <= t
      && FullSide(hunks[k], reverse) == index[s..s + n]
      && IsDiff(hunks, k + 1, index, s + n, other, t + m, reverse)
  {
    DiffCons(hunks, k, index, i, other, o, reverse);
    hide IsDiff, FullSide, GoodHunk;
  }

  // One hunk, with what is chosen in it and what comes after it.
  lemma OutcomeStep(
    patch: FilePatch, h: nat, k: nat, index: File, i: nat, reverse: bool, rest: File)
    requires h < |patch.hunks| && k < |patch.hunks| && i <= Begin(patch.hunks[k], reverse)
    requires Begin(patch.hunks[k], reverse) + IndexCount(patch.hunks[k], reverse) <= |index|
    requires rest == Outcome(patch.hunks, k + 1, index, Begin(patch.hunks[k], reverse) + IndexCount(patch.hunks[k], reverse),
                             Some(ChangeSet(patch, h)), reverse)
    ensures Outcome(patch.hunks, k, index, i, Some(ChangeSet(patch, h)), reverse)
         == index[i..Begin(patch.hunks[k], reverse)]
            + FullSide(patch.hunks[k], if k == h then !reverse else reverse) + rest
  {
    OutcomeCons(patch.hunks, k, index, i, Some(ChangeSet(patch, h)), reverse);
    HunkChosen(patch, h, k, reverse);
    hide Outcome, FullSide, FullChosen, ChangeSet, Begin, IndexCount;
  }

  // Only hunk h changes: its range takes the lines of the other side.
  lemma {:induction false} OnlyThatHunkChanges(
    patch: FilePatch, h: nat, k: nat, index: File, i: nat, other: File, o: nat, reverse: bool)
    requires k <= h < |patch.hunks| && IsDiff(patch.hunks, k, index, i, other, o, reverse)
    ensures var s, n := Begin(patch.hunks[h], reverse), IndexCount(patch.hunks[h], reverse);
      && i <= s && s + n <= |index|
      && Outcome(patch.hunks, k, index, i, Some(ChangeSet(patch, h)), reverse)
         == index[i..s] + FullSide(patch.hunks[h], !reverse) + index[s + n..]
    decreases h - k
  {
    hide IsDiff, Outcome, Begin, FullSide, ChangeSet, IndexCount;
    var hunks := patch.hunks;
    NextHunk(hunks, k, index, i, other, o, reverse);
    var s, n := Begin(hunks[k], reverse), IndexCount(hunks[k], reverse);
    var t, m := Begin(hunks[k], !reverse), IndexCount(hunks[k], !reverse);
    var rest := Outcome(hunks, k + 1, index, s + n, Some(ChangeSet(patch, h)), reverse);
    OutcomeStep(patch, h, k, index, i, reverse, rest);
    if k == h {
      RestIsUnchanged(patch, h, k + 1, index, s + n, other, t + m, reverse);
    } else {
      OnlyThatHunkChanges(patch, h, k + 1, index, s + n, other, t + m, reverse);
      var s1, n1 := Begin(hunks[h], reverse), IndexCount(hunks[h], reverse);
      Regroup(index, i, s, s + n, s1, FullSide(hunks[h], !reverse), index[s1 + n1..]);
    }
  }

  lemma {:induction false} RestIsUnchanged(
    patch: FilePatch, h: nat, k: nat, index: File, i: nat, other: File, o: nat, reverse: bool)
    requires h < k <= |patch.hunks| && IsDiff(patch.hunks, k, index, i, other, o, reverse)
    ensures i <= |index| && Outcome(patch.hunks, k, index, i, Some(ChangeSet(patch, h)), reverse) == index[i..]
    decreases |patch.hunks| - k
  {
    hide IsDiff, Outcome, Begin, FullSide, ChangeSet, IndexCount;
    var hunks, sel := patch.hunks, Some(ChangeSet(patch, h));
    if k == |hunks| {
      AtEnd(hunks, index, i, other, o, sel, reverse, 0);
    } else {
      NextHunk(hunks, k, index, i, other, o, reverse);
      var s, n := Begin(hunks[k], reverse), IndexCount(hunks[k], reverse);
      var t, m := Begin(hunks[k], !reverse), IndexCount(hunks[k], !reverse);
      RestIsUnchanged(patch, h, k + 1, index, s + n, other, t + m, reverse);
      OutcomeStep(patch, h, k, index, i, reverse, index[s + n..]);
      Rejoin(index, i, s, s + n);
    }
  }

  lemma Rejoin(index: File, i: nat, s: nat, e: nat)
    requires i <= s <= e <= |index|
    ensures index[i..s] + index[s..e] + index[e..] == index[i..]
  {
  }

  lemma Regroup(index: File, i: nat, s: nat, e: nat, f: nat, middle: File, tail: File)
    requires i <= s <= e <= f <= |index|
    ensures index[i..s] + index[s..e] + (index[e..f] + middle + tail) == index[i..f] + middle + tail
  {
    assert index[i..f] == index[i..s] + index[s..e] + index[e..f];
  }

  lemma HunkChosen(patch: FilePatch, h: nat, k: nat, reverse: bool)
    requires h < |patch.hunks| && k < |patch.hunks|
    ensures FullChosen(patch.hunks[k], k, Some(ChangeSet(patch, h)), reverse)
         == FullSide(patch.hunks[k], if k == h then !reverse else reverse)
  {
    var lines, sel := patch.hunks[k].lines, Some(ChangeSet(patch, h));
    if k == h {
      EverythingSelectedGivesOtherSide(lines, k, |lines|, sel, reverse);
    } else {
      NothingSelectedKeepsSide(lines, k, |lines|, sel, reverse);
    }
  }

  // Main result on hunks. Staging what the view collects for hunk h is accepted, and applying the
  // emitted patch gives the other file inside the hunk and the index everywhere else.
  lemma HunkIsStagedAlone(patch: FilePatch, h: nat, index: File, other: File, reverse: bool)
    requires h < |patch.hunks| && !patch.isBinary && !patch.IsRename()
    requires IsDiff(patch.hunks, 0, index, 0, other, 0, reverse)
    requires DeletionsFirst(patch.hunks[h].lines) && DeletionsTogether(patch.hunks[h].lines)
    ensures var r := Synthesis(patch, Some(ChangeSet(patch, h)), reverse);
      var s, n := Begin(patch.hunks[h], reverse), IndexCount(patch.hunks[h], reverse);
      && r.Success? && 0 <= s && s + n <= |index|
      && StrictApply(r.value, index, 0, 0, false)
         == Some(index[..s] + FullSide(patch.hunks[h], !reverse) + index[s + n..])
  {
    hide Synthesis, IsDiff, StrictApply, Outcome, Begin, FullSide, DeletionsFirst, DeletionsTogether, GuardRejects;
    var sel := Some(ChangeSet(patch, h));
    forall k | 0 <= k < |patch.hunks| ensures !GuardRejects(patch.hunks[k].lines, k, sel) {
      HunkIsNeverRejected(patch, h, k);
    }
    DiffHunksAreGood(patch.hunks, 0, index, 0, other, 0, reverse);
    assert GoodHunk(patch.hunks[h]);
    var i :| 0 <= i < |patch.hunks[h].lines| && patch.hunks[h].lines[i].IsChange();
    assert SelectsChange(patch.hunks[h].lines, h, |patch.hunks[h].lines|, sel) by {
      assert (h, i) in ChangeSet(patch, h) && Keeps(sel, h, i);
    }
    SynthesisSucceedsIff(patch, index, other, sel, reverse);
    EmittedPatchApplies(patch, index, other, sel, reverse);
    OnlyThatHunkChanges(patch, h, 0, index, 0, other, 0, reverse);
  }
}
