// The emitted text, read back (src/gitclient/domain/patch.py).
//
// A reader of the unified format, written independently of the synthesis, recovers from the
// emitted text the hunks that were rendered, and applying that text to the bytes of the index
// file writes the chosen result.
module PatchReading {
  import opened Text
  import opened Wrappers
  import opened Patch
  import opened PatchApply

  const NOTE := "\\ No newline at end of file\n"

  // ----- A reader of patches -----

  function ReadNumber(text: string): Option<(nat, string)> {
    var e := DigitsFrom(text, 0);
    if e == 0 then None else Some((Value(text[..e]), text[e..]))
  }

  // A range "start" or "start,count", and what follows it.
  function ReadRange(text: string): Option<(nat, nat, string)> {
    var start := ReadNumber(text);
    if start.None? then None
    else
      var rest := start.value.1;
      if rest == "" || rest[0] != ',' then Some((start.value.0, 1, rest))
      else
        var count := ReadNumber(rest[1..]);
        if count.None? then None else Some((start.value.0, count.value.0, count.value.1))
  }

  function After(prefix: string, text: string): Option<string> {
    if |prefix| <= |text| && text[..|prefix|] == prefix then Some(text[|prefix|..]) else None
  }

  datatype Header = Header(oldStart: nat, oldCount: nat, newStart: nat, newCount: nat)

  function ReadHeader(line: string): Option<Header> {
    var a := After("@@ -", line);
    if a.None? then None
    else
      var pre := ReadRange(a.value);
      if pre.None? then None
      else
        var b := After(" +", pre.value.2);
        if b.None? then None
        else
          var post := ReadRange(b.value);
          if post.None? || post.value.2 != " @@\n" then None
          else Some(Header(pre.value.0, pre.value.1, post.value.0, post.value.1))
  }

  // The body entries that make up the counts, and the lines after them. A note says that the line
  // before it has no newline.
  function ReadBody(lines: seq<string>, pre: nat, post: nat): (r: Option<(seq<string>, seq<string>)>)
    ensures r.Some? ==> |r.value.1| <= |lines|
  {
    if pre == 0 && post == 0 then Some(([], lines))
    else if lines == [] || lines[0] == "" || !IsTag(lines[0][0]) then None
    else
      var dPre, dPost := Count(lines[0][0] != '+'), Count(lines[0][0] != '-');
      if pre < dPre || post < dPost then None
      else
        var noted := |lines| > 1 && lines[1] == NOTE;
        var entry := if noted then [lines[0][..|lines[0]| - 1], MARKER] else [lines[0]];
        var r := ReadBody(lines[if noted then 2 else 1..], pre - dPre, post - dPost);
        if r.None? then None else Some((entry + r.value.0, r.value.1))
  }

  function ReadHunks(lines: seq<string>): Option<seq<OutHunk>>
    decreases |lines|
  {
    if lines == [] then Some([])
    else
      var h := ReadHeader(lines[0]);
      if h.None? then None
      else
        var b := ReadBody(lines[1..], h.value.oldCount, h.value.newCount);
        if b.None? then None
        else
          var rest := ReadHunks(b.value.1);
          if rest.None? then None
          else
            var v := h.value;
            Some([OutHunk(v.oldStart, v.oldCount, v.newStart, v.newCount, b.value.0)] + rest.value)
  }

  // The lines after the file header.
  function SkipFileHeader(lines: seq<string>): Option<seq<string>> {
    if lines == [] then None
    else if After("+++ ", lines[0]).Some? then Some(lines[1..])
    else SkipFileHeader(lines[1..])
  }

  function ReadPatch(text: string): Option<seq<OutHunk>> {
    var rest := SkipFileHeader(SplitKeep(text));
    if rest.None? then None else ReadHunks(rest.value)
  }

  // Applies a patch text to the text of a file.
  function ApplyText(text: string, index: string): Option<string> {
    var os := ReadPatch(text);
    if os.None? then None
    else
      var f := StrictApply(os.value, SplitKeep(index), 0, 0, false);
      if f.None? then None else Some(Concat(f.value))
  }

  // ----- The header of a hunk -----

  lemma NumberReadsBack(n: nat, rest: string)
    requires rest == "" || !IsDigit(rest[0])
    ensures ReadNumber(Decimal(n) + rest) == Some((n, rest))
  {
    DecimalReadsBack(n);
    DigitsEndOnce(Decimal(n) + rest, DigitsFrom(Decimal(n) + rest, 0), |Decimal(n)|);
  }

  lemma RangeReadsBack(start: nat, count: nat, rest: string)
    requires rest != "" && !IsDigit(rest[0]) && rest[0] != ','
    ensures ReadRange(Range(start, count) + rest) == Some((start, count, rest))
  {
    hide ReadNumber, Decimal;
    if count == 1 {
      NumberReadsBack(start, rest);
    } else {
      var tail := "," + (Decimal(count) + rest);
      assert Range(start, count) + rest == Decimal(start) + tail;
      NumberReadsBack(start, tail);
      NumberReadsBack(count, rest);
    }
  }

  function HeaderLine(o: OutHunk): string {
    FormatHunkHeader(o.oldStart, o.oldCount, o.newStart, o.newCount) + "\n"
  }

  // A hunk header is read back as its four numbers.
  lemma HeaderReadsBack(o: OutHunk)
    requires o.newStart >= 0
    ensures ReadHeader(HeaderLine(o)) == Some(Header(o.oldStart, o.oldCount, o.newStart, o.newCount))
  {
    hide Range, ReadRange;
    var tail := Range(o.newStart, o.newCount) + " @@\n";
    var middle := Range(o.oldStart, o.oldCount) + (" +" + tail);
    assert HeaderLine(o) == "@@ -" + middle;
    AfterIs("@@ -", middle);
    RangeReadsBack(o.oldStart, o.oldCount, " +" + tail);
    AfterIs(" +", tail);
    RangeReadsBack(o.newStart, o.newCount, " @@\n");
  }

  lemma AfterIs(prefix: string, rest: string)
    ensures After(prefix, prefix + rest) == Some(rest)
  {
  }

  // ----- The lines of a body -----

  predicate TagLine(entry: string) { entry != "" && IsTag(entry[0]) && IsLine(entry) }

  // Every entry is one line, and exactly those without a newline are followed by the marker.
  predicate Shaped(body: seq<string>) {
    body == []
    || (TagLine(body[0])
        && if Ends(body[0]) then Shaped(body[1..]) else |body| > 1 && body[1] == MARKER && Shaped(body[2..]))
  }

  function RawOf(entry: string): string {
    if entry == MARKER then NOTE else if Ends(entry) then entry else entry + "\n"
  }

  // The lines a body takes in the text.
  function Raw(body: seq<string>): seq<string> {
    if body == [] then [] else [RawOf(body[0])] + Raw(body[1..])
  }

  predicate Closed(lines: seq<string>) { forall k :: 0 <= k < |lines| ==> IsLine(lines[k]) && Ends(lines[k]) }

  lemma {:induction false} ImagesCons(entry: string, body: seq<string>)
    ensures PreImage([entry] + body) == PreOf(entry) + PreImage(body)
    ensures PostImage([entry] + body) == PostOf(entry) + PostImage(body)
    decreases |body|
  {
    hide PreImage, PostImage, PreOf, PostOf;
    ImagesOfNothing();
    if body == [] {
      assert [entry] + body == [] + [entry];
      ImagesGrow([], entry);
    } else {
      var front, last := body[..|body| - 1], body[|body| - 1];
      ImagesCons(entry, front);
      assert [entry] + body == ([entry] + front) + [last] && body == front + [last];
      ImagesGrow([entry] + front, last);
      ImagesGrow(front, last);
    }
  }

  lemma ImagesOfNothing()
    ensures PreImage([]) == [] == PostImage([])
  {
  }

  // An entry with the marker it needs, and the lines both take.
  function WithMarker(entry: string): seq<string> { if Ends(entry) then [entry] else [entry, MARKER] }

  function RawHead(entry: string): seq<string> { if Ends(entry) then [entry] else [entry + "\n", NOTE] }

  // The first entry of a body, with the marker it may have, and the other entries.
  lemma HeadOf(body: seq<string>) returns (rest: seq<string>)
    requires Shaped(body) && body != []
    ensures |rest| < |body| && Shaped(rest)
    ensures body == WithMarker(body[0]) + rest
    ensures Raw(body) == RawHead(body[0]) + Raw(rest)
    ensures PreImage(body) == PreOf(body[0]) + PreImage(rest) && PostImage(body) == PostOf(body[0]) + PostImage(rest)
  {
    hide PreImage, PostImage;
    if Ends(body[0]) {
      rest := body[1..];
      assert body == [body[0]] + rest;
    } else {
      rest := body[2..];
      assert body[1..] == [MARKER] + rest;
      assert body == [body[0]] + ([MARKER] + rest);
      assert ([MARKER] + rest)[1..] == rest;
      ImagesCons(MARKER, rest);
    }
    ImagesCons(body[0], body[1..]);
  }

  lemma {:induction false} BodyReadsBack(body: seq<string>, after: seq<string>)
    requires Shaped(body) && (after == [] || after[0] != NOTE)
    ensures ReadBody(Raw(body) + after, |PreImage(body)|, |PostImage(body)|) == Some((body, after))
    decreases |body|
  {
    hide Shaped, Raw, PreImage, PostImage, ReadBody, PreOf, PostOf, Ends, TagLine;
    if body == [] {
      NothingToRead(after);
    } else {
      HeadIsTag(body);
      var rest := HeadOf(body);
      BodyReadsBack(rest, after);
      NoNoteFirst(rest, after);
      ReadHead(body[0], Raw(rest) + after, |PreImage(rest)|, |PostImage(rest)|);
      Reassociate(RawHead(body[0]), Raw(rest), after);
    }
  }

  lemma Reassociate(a: seq<string>, b: seq<string>, c: seq<string>)
    ensures a + b + c == a + (b + c)
  {
  }

  lemma NothingToRead(after: seq<string>)
    ensures ReadBody(Raw([]) + after, |PreImage([])|, |PostImage([])|) == Some(([], after))
  {
    assert Raw([]) + after == after;
  }

  lemma HeadIsTag(body: seq<string>)
    requires Shaped(body) && body != []
    ensures TagLine(body[0])
  {
  }

  lemma NoNoteFirst(body: seq<string>, after: seq<string>)
    requires Shaped(body) && (after == [] || after[0] != NOTE)
    ensures var lines := Raw(body) + after; lines == [] || lines[0] != NOTE
  {
    if body != [] {
      assert (Raw(body) + after)[0][0] == body[0][0];
    }
  }

  lemma ReadHead(entry: string, lines: seq<string>, pre: nat, post: nat)
    requires TagLine(entry) && (lines == [] || lines[0] != NOTE)
    ensures var all := RawHead(entry) + lines;
      var r := ReadBody(lines, pre, post);
      ReadBody(all, |PreOf(entry)| + pre, |PostOf(entry)| + post)
      == if r.None? then None
         else Some((WithMarker(entry) + r.value.0, r.value.1))
  {
    var all := RawHead(entry) + lines;
    if Ends(entry) {
      assert all[1..] == lines && all[0] == entry;
    } else {
      assert all[2..] == lines && all[1] == NOTE && all[0][..|all[0]| - 1] == entry && all[0][0] == entry[0];
    }
  }

  lemma {:induction false} BodyIsRaw(body: seq<string>)
    requires Shaped(body)
    ensures Concat(Raw(body)) == Concat(body) && Closed(Raw(body))
    decreases |body|
  {
    hide Shaped, Raw, Concat, RawHead, WithMarker, Closed, TagLine, PreImage, PostImage;
    if body == [] {
      EmptyIsRaw();
    } else {
      HeadIsTag(body);
      var rest := HeadOf(body);
      BodyIsRaw(rest);
      HeadIsRaw(body[0]);
      ConcatJoin(RawHead(body[0]), Raw(rest));
      ConcatJoin(WithMarker(body[0]), rest);
      ClosedJoin(RawHead(body[0]), Raw(rest));
    }
  }

  lemma EmptyIsRaw()
    ensures Concat(Raw([])) == Concat([]) && Closed(Raw([]))
  {
  }

  lemma ClosedJoin(a: seq<string>, b: seq<string>)
    requires Closed(a) && Closed(b)
    ensures Closed(a + b)
  {
  }

  lemma HeadIsRaw(entry: string)
    requires TagLine(entry)
    ensures Concat(RawHead(entry)) == Concat(WithMarker(entry)) && Closed(RawHead(entry))
  {
    hide Concat;
    if !Ends(entry) {
      NoteIsLine();
      MoveBreak(entry, NOTE);
    }
  }

  lemma MoveBreak(a: string, note: string)
    ensures Concat([a + "\n", note]) == Concat([a, "\n" + note])
  {
    hide Concat;
    ConcatPair(a + "\n", note);
    ConcatPair(a, "\n" + note);
  }

  lemma ConcatPair(a: string, b: string)
    ensures Concat([a, b]) == a + b
  {
    ConcatJoin([a], [b]);
    assert [a] + [b] == [a, b] && [a][..0] == [] == [b][..0];
  }

  lemma NoteIsLine()
    ensures IsLine(NOTE) && Ends(NOTE) && MARKER == "\n" + NOTE
  {
  }

  // ----- The lines of the hunks -----

  // What the reader recovers: the counts are those of the body.
  ghost predicate Tidy(o: OutHunk) {
    Shaped(o.body) && o.newStart >= 0 && o.oldCount == |PreImage(o.body)| && o.newCount == |PostImage(o.body)|
  }

  ghost predicate AllTidy(os: seq<OutHunk>) { forall j :: 0 <= j < |os| ==> Tidy(os[j]) }

  function RawHunks(os: seq<OutHunk>): seq<string> {
    if os == [] then [] else [HeaderLine(os[0])] + (Raw(os[0].body) + RawHunks(os[1..]))
  }

  lemma {:induction false} HunksReadBack(os: seq<OutHunk>)
    requires AllTidy(os)
    ensures ReadHunks(RawHunks(os)) == Some(os)
  {
    hide Tidy, ReadHunks, Raw, HeaderLine;
    if os == [] {
      assert ReadHunks([]) == Some([]) by { NoHunks(); }
    } else {
      HunksReadBack(os[1..]);
      assert Tidy(os[0]);
      if os[1..] != [] {
        HeaderIsNoNote(os[1]);
      }
      HunkReadsBack(os[0], RawHunks(os[1..]), os[1..]);
      assert os == [os[0]] + os[1..];
    }
  }

  lemma NoHunks()
    ensures ReadHunks([]) == Some([])
  {
  }

  lemma HunkReadsBack(o: OutHunk, lines: seq<string>, os: seq<OutHunk>)
    requires Tidy(o) && ReadHunks(lines) == Some(os) && (lines == [] || lines[0] != NOTE)
    ensures ReadHunks([HeaderLine(o)] + (Raw(o.body) + lines)) == Some([o] + os)
  {
    hide Shaped, Raw, PreImage, PostImage, ReadHeader, ReadBody, HeaderLine;
    HeaderReadsBack(o);
    BodyReadsBack(o.body, lines);
    var all := [HeaderLine(o)] + (Raw(o.body) + lines);
    assert all[0] == HeaderLine(o) && all[1..] == Raw(o.body) + lines;
  }

  lemma HeaderIsNoNote(o: OutHunk)
    ensures HeaderLine(o) != NOTE
  {
    assert HeaderLine(o)[0] == '@';
  }

  predicate NoBreak(text: string) { forall k :: 0 <= k < |text| ==> text[k] != '\n' }

  lemma HeaderIsLine(o: OutHunk)
    ensures IsLine(HeaderLine(o)) && Ends(HeaderLine(o))
  {
    RangeHasNoBreak(o.oldStart, o.oldCount);
    RangeHasNoBreak(o.newStart, o.newCount);
    hide Range;
  }

  lemma RangeHasNoBreak(start: int, count: nat)
    ensures NoBreak(Range(start, count))
  {
    NumberHasNoBreak(start);
    NumberHasNoBreak(count);
    hide Number, Decimal, NoBreak;
    NoBreakJoin(Number(start), ",");
    NoBreakJoin(Number(start) + ",", Decimal(count));
  }

  lemma NumberHasNoBreak(n: int)
    ensures NoBreak(Number(n)) && NoBreak(",")
    ensures n >= 0 ==> NoBreak(Decimal(n))
  {
    DecimalReadsBack(if n < 0 then -n else n);
    hide Decimal;
  }

  lemma {:induction false} HunksAreRaw(os: seq<OutHunk>)
    requires AllTidy(os)
    ensures Concat(RawHunks(os)) == HunksText(os) && Closed(RawHunks(os))
  {
    if os != [] {
      HunksAreRaw(os[1..]);
      assert Tidy(os[0]);
      HunkIsRaw(os[0], RawHunks(os[1..]));
      hide Concat, HeaderLine, Closed, Raw, HunkText;
    }
  }

  lemma HunkIsRaw(o: OutHunk, rest: seq<string>)
    requires Shaped(o.body) && Closed(rest)
    ensures Closed([HeaderLine(o)] + (Raw(o.body) + rest))
    ensures Concat([HeaderLine(o)] + (Raw(o.body) + rest)) == HunkText(o) + Concat(rest)
  {
    hide Shaped, Raw, Concat, HeaderLine, IsLine, Ends, HunkText;
    BodyIsRaw(o.body);
    HeaderIsLine(o);
    ConcatJoin(Raw(o.body), rest);
    ConcatCons(HeaderLine(o), Raw(o.body) + rest);
    HunkTextIs(o);
  }

  lemma HunkTextIs(o: OutHunk)
    ensures HunkText(o) == HeaderLine(o) + Concat(o.body)
  {
  }

  // ----- The emitted bodies -----

  // Each line of the diff is one line, and a marker follows exactly those without a newline.
  ghost predicate CleanLines(lines: seq<PatchLine>) {
    forall i :: 0 <= i < |lines| ==> CleanAt(lines, i)
  }

  ghost predicate CleanAt(lines: seq<PatchLine>, i: nat)
    requires i < |lines|
  {
    if lines[i].IsMarker() then
      lines[i].content == MARKER && i > 0 && !lines[i - 1].IsMarker() && !Ends(lines[i - 1].content)
    else IsLine(lines[i].content) && (Ends(lines[i].content) || (i + 1 < |lines| && lines[i + 1].IsMarker()))
  }

  // Line n - 1 was emitted and waits for its marker.
  predicate Waits(lines: seq<PatchLine>, h: nat, n: nat, sel: Selection, reverse: bool)
    requires n <= |lines|
  {
    n > 0 && !lines[n - 1].IsMarker() && !Ends(lines[n - 1].content) && Entry(lines, h, n - 1, sel, reverse).Some?
  }

  ghost predicate ShapedSoFar(body: seq<string>, waits: bool) {
    if waits then
      body != [] && Shaped(body[..|body| - 1]) && TagLine(body[|body| - 1]) && !Ends(body[|body| - 1])
    else Shaped(body)
  }

  lemma {:induction false} ShapedJoin(a: seq<string>, b: seq<string>)
    requires Shaped(a) && Shaped(b)
    ensures Shaped(a + b)
    decreases |a|
  {
    hide IsLine, IsTag;
    if a == [] {
      assert a + b == b;
    } else if Ends(a[0]) {
      ShapedJoin(a[1..], b);
      assert (a + b)[1..] == a[1..] + b;
    } else {
      ShapedJoin(a[2..], b);
      assert (a + b)[2..] == a[2..] + b;
    }
  }

  lemma PieceIsLine(line: PatchLine, keep: bool, reverse: bool)
    requires IsLine(line.content) && Piece(line, keep, reverse).Some?
    ensures var e := Piece(line, keep, reverse).value; TagLine(e) && (Ends(e) <==> Ends(line.content))
  {
    var e := Piece(line, keep, reverse).value;
    assert forall k :: 0 < k < |e| ==> e[k] == e[1..][k - 1];
  }

  lemma OneShaped(entry: string)
    requires TagLine(entry)
    ensures if Ends(entry) then Shaped([entry]) else Shaped([entry, MARKER])
  {
    assert Shaped([]);
    assert [entry][1..] == [] && [entry, MARKER][2..] == [];
  }

  // What one more line does to a body.
  lemma ShapeGrows(body: seq<string>, waits: bool, e: Option<string>, waits': bool)
    requires ShapedSoFar(body, waits)
    requires waits ==> e == Some(MARKER)
    requires !waits && e.Some? ==> TagLine(e.value)
    requires waits' <==> !waits && e.Some? && !Ends(e.value)
    ensures ShapedSoFar(if e.Some? then body + [e.value] else body, waits')
  {
    hide TagLine, Ends, Shaped;
    if e.Some? {
      var longer := body + [e.value];
      if waits {
        var front, last := body[..|body| - 1], body[|body| - 1];
        assert longer == front + [last, MARKER];
        OneShaped(last);
        ShapedJoin(front, [last, MARKER]);
      } else if waits' {
        assert longer[..|longer| - 1] == body;
      } else {
        OneShaped(e.value);
        ShapedJoin(body, [e.value]);
      }
    }
  }

  // A marker is emitted right after its line, exactly when that line is.
  lemma EntryWaits(lines: seq<PatchLine>, h: nat, n: nat, sel: Selection, reverse: bool)
    requires n < |lines| && CleanLines(lines)
    ensures var e, waits := Entry(lines, h, n, sel, reverse), Waits(lines, h, n, sel, reverse);
      && (lines[n].IsMarker() ==> e == if waits then Some(MARKER) else None)
      && (waits ==> lines[n].IsMarker())
      && (!waits && e.Some? ==> TagLine(e.value))
      && (Waits(lines, h, n + 1, sel, reverse) <==> !waits && e.Some? && !Ends(e.value))
  {
    assert CleanAt(lines, n);
    if n > 0 {
      assert CleanAt(lines, n - 1);
    }
    hide Piece, IsLine, Ends, TagLine;
    if !lines[n].IsMarker() && Entry(lines, h, n, sel, reverse).Some? {
      PieceIsLine(lines[n], Keeps(sel, h, n), reverse);
    }
  }

  lemma {:induction false} BodyIsShaped(lines: seq<PatchLine>, h: nat, n: nat, sel: Selection, reverse: bool)
    requires n <= |lines| && CleanLines(lines)
    ensures ShapedSoFar(BuildOf(lines, h, n, sel, reverse).body, Waits(lines, h, n, sel, reverse))
  {
    hide ShapedSoFar, Entry, Waits, CleanLines;
    if n == 0 {
      NothingIsShaped(lines, h, sel, reverse);
    } else {
      BodyIsShaped(lines, h, n - 1, sel, reverse);
      EntryWaits(lines, h, n - 1, sel, reverse);
      ShapeGrows(BuildOf(lines, h, n - 1, sel, reverse).body, Waits(lines, h, n - 1, sel, reverse),
                 Entry(lines, h, n - 1, sel, reverse), Waits(lines, h, n, sel, reverse));
    }
  }

  lemma NothingIsShaped(lines: seq<PatchLine>, h: nat, sel: Selection, reverse: bool)
    ensures ShapedSoFar([], Waits(lines, h, 0, sel, reverse))
  {
  }

  lemma FullBodyIsShaped(hunk: PatchHunk, h: nat, sel: Selection, reverse: bool)
    requires CleanLines(hunk.lines)
    ensures Shaped(FullBuild(hunk, h, sel, reverse).body)
  {
    var lines := hunk.lines;
    BodyIsShaped(lines, h, |lines|, sel, reverse);
    if |lines| > 0 {
      assert CleanAt(lines, |lines| - 1);
    }
  }

  // ----- The rendered hunks -----

  ghost predicate Rendered(os: seq<OutHunk>) {
    forall j :: 0 <= j < |os| ==> Shaped(os[j].body) && (os[j].newCount == 0 ==> os[j].newStart == 0)
  }

  lemma RenderedCons(o: OutHunk, os: seq<OutHunk>)
    requires Shaped(o.body) && (o.newCount == 0 ==> o.newStart == 0) && Rendered(os)
    ensures Rendered([o] + os)
  {
    hide Shaped;
  }

  ghost predicate AllClean(hunks: seq<PatchHunk>) {
    forall k :: 0 <= k < |hunks| ==> CleanLines(hunks[k].lines)
  }

  lemma {:induction false} PlacedAreRendered(hunks: seq<PatchHunk>, k: nat, sel: Selection, reverse: bool, offset: int)
    requires k <= |hunks| && AllClean(hunks)
    ensures Rendered(Place(hunks, BuildsFrom(hunks, k, sel, reverse), reverse, offset))
    decreases |hunks| - k
  {
    hide Rendered, Place, BuildsFrom, Shaped, CleanLines, FullBuild, HasChange;
    if k == |hunks| {
      NothingIsRendered(hunks, sel, reverse, offset);
    } else {
      var b := FullBuild(hunks[k], k, sel, reverse);
      var rest := BuildsFrom(hunks, k + 1, sel, reverse);
      BuildsUnfold(hunks, k, sel, reverse);
      if HasChange(b.body) {
        PlacedAreRendered(hunks, k + 1, sel, reverse, offset + b.newCount - b.oldCount);
        PlaceCons(hunks, k, b, rest, reverse, offset);
        FullBodyIsShaped(hunks[k], k, sel, reverse);
        RenderedCons(PlaceOne(hunks[k], b, reverse, offset), Place(hunks, rest, reverse, offset + b.newCount - b.oldCount));
      } else {
        PlacedAreRendered(hunks, k + 1, sel, reverse, offset);
        assert [] + rest == rest;
      }
    }
  }

  lemma NothingIsRendered(hunks: seq<PatchHunk>, sel: Selection, reverse: bool, offset: int)
    ensures Rendered(Place(hunks, BuildsFrom(hunks, |hunks|, sel, reverse), reverse, offset))
  {
  }

  // Hunks that apply have the counts of their bodies, and no negative line number.
  lemma {:induction false} AppliedAreTidy(os: seq<OutHunk>, index: File, i: nat, written: nat)
    requires StrictApply(os, index, i, written, false).Some? && Rendered(os)
    ensures AllTidy(os)
  {
    hide Shaped, PreImage, PostImage;
    if os != [] {
      var s := Before(os[0].oldStart, os[0].oldCount);
      AppliedAreTidy(os[1..], index, s + os[0].oldCount, written + (s - i) + os[0].newCount);
      assert Tidy(os[0]);
      assert forall j :: 1 <= j < |os| ==> os[j] == os[1..][j - 1];
    }
  }

  // ----- The file header -----

  function HeaderLines(patch: FilePatch, os: seq<OutHunk>, reverse: bool): seq<string> {
    var path := if reverse then patch.newPath else patch.oldPath;
    [Titled("diff --git a/" + path + " b/", path)] + ModeLine(patch, os, reverse)
    + [Titled("--- ", if SaysNew(patch, reverse) then "/dev/null" else "a/" + path)]
    + [Titled("+++ ", if SaysDeleted(patch, os, reverse) then "/dev/null" else "b/" + path)]
  }

  function Titled(title: string, name: string): string { title + name + "\n" }

  function ModeLine(patch: FilePatch, os: seq<OutHunk>, reverse: bool): seq<string> {
    if SaysNew(patch, reverse) then [Titled("new file mode ", patch.newMode)]
    else if SaysDeleted(patch, os, reverse) then [Titled("deleted file mode ", if reverse then patch.newMode else patch.oldMode)]
    else []
  }

  ghost predicate PlainNames(patch: FilePatch) {
    NoBreak(patch.oldPath) && NoBreak(patch.newPath) && NoBreak(patch.oldMode) && NoBreak(patch.newMode)
  }

  lemma TitledIsLine(title: string, name: string)
    requires NoBreak(title) && NoBreak(name)
    ensures IsLine(Titled(title, name)) && Ends(Titled(title, name))
  {
  }

  // A line that is not the last one of the file header.
  predicate Early(line: string) { IsLine(line) && Ends(line) && line[0] != '+' }

  lemma TitledIsEarly(title: string, name: string)
    requires NoBreak(title) && NoBreak(name) && title != "" && title[0] != '+'
    ensures Early(Titled(title, name))
  {
  }

  lemma TitlesHaveNoBreak()
    ensures NoBreak("diff --git a/") && NoBreak(" b/") && NoBreak("--- ") && NoBreak("+++ ") && NoBreak("/dev/null")
    ensures NoBreak("a/") && NoBreak("b/") && NoBreak("new file mode ") && NoBreak("deleted file mode ")
  {
  }

  lemma NoBreakJoin(a: string, b: string)
    requires NoBreak(a) && NoBreak(b)
    ensures NoBreak(a + b)
  {
  }

  lemma ModeLineIsEarly(patch: FilePatch, os: seq<OutHunk>, reverse: bool)
    requires PlainNames(patch)
    ensures var m := ModeLine(patch, os, reverse); |m| <= 1 && forall k :: 0 <= k < |m| ==> Early(m[k])
  {
    TitlesHaveNoBreak();
    hide NoBreak, SaysDeleted, Early, Titled;
    TitledIsEarly("new file mode ", patch.newMode);
    TitledIsEarly("deleted file mode ", if reverse then patch.newMode else patch.oldMode);
  }

  // Lines that are skipped, in front of the last header line and the hunks.
  lemma SkipsTo(a: string, m: seq<string>, c: string, name: string, rest: seq<string>)
    requires Early(a) && Early(c) && |m| <= 1 && (forall k :: 0 <= k < |m| ==> Early(m[k]))
    requires NoBreak(name) && Closed(rest)
    ensures var d := Titled("+++ ", name);
      && Closed([a] + m + [c] + [d] + rest)
      && SkipFileHeader([a] + m + [c] + [d] + rest) == Some(rest)
  {
    var d := Titled("+++ ", name);
    TitlesHaveNoBreak();
    TitledIsLine("+++ ", name);
    assert d == "+++ " + (name + "\n");
    AfterIs("+++ ", name + "\n");
    hide Titled, NoBreak, IsLine, Ends;
    SkipsOne(d, rest);
    EarlyIsSkipped(c, [d] + rest);
    assert [c] + ([d] + rest) == [c] + [d] + rest;
    if m == [] {
      EarlyIsSkipped(a, [c] + [d] + rest);
      assert [a] + m + [c] + [d] + rest == [a] + ([c] + [d] + rest);
    } else {
      EarlyIsSkipped(m[0], [c] + [d] + rest);
      EarlyIsSkipped(a, [m[0]] + ([c] + [d] + rest));
      assert m == [m[0]];
      assert [a] + m + [c] + [d] + rest == [a] + ([m[0]] + ([c] + [d] + rest));
    }
  }

  lemma SkipsOne(d: string, rest: seq<string>)
    requires After("+++ ", d).Some?
    ensures SkipFileHeader([d] + rest) == Some(rest)
  {
    assert ([d] + rest)[1..] == rest;
  }

  lemma EarlyIsSkipped(line: string, rest: seq<string>)
    requires Early(line)
    ensures SkipFileHeader([line] + rest) == SkipFileHeader(rest)
  {
    assert ([line] + rest)[1..] == rest;
    assert |line| >= 4 ==> line[..4][0] == line[0];
  }

  lemma HeaderIsSkipped(patch: FilePatch, os: seq<OutHunk>, reverse: bool, rest: seq<string>)
    requires PlainNames(patch) && Closed(rest)
    ensures Closed(HeaderLines(patch, os, reverse) + rest)
    ensures SkipFileHeader(HeaderLines(patch, os, reverse) + rest) == Some(rest)
  {
    var path := if reverse then patch.newPath else patch.oldPath;
    TitlesHaveNoBreak();
    ModeLineIsEarly(patch, os, reverse);
    hide NoBreak, SaysDeleted, SaysNew, Early, Titled, ModeLine, Closed, SkipFileHeader;
    var from := if SaysNew(patch, reverse) then "/dev/null" else "a/" + path;
    var to := if SaysDeleted(patch, os, reverse) then "/dev/null" else "b/" + path;
    NoBreakJoin("diff --git a/", path);
    NoBreakJoin("diff --git a/" + path, " b/");
    NoBreakJoin("a/", path);
    NoBreakJoin("b/", path);
    TitledIsEarly("diff --git a/" + path + " b/", path);
    TitledIsEarly("--- ", from);
    SkipsTo(Titled("diff --git a/" + path + " b/", path), ModeLine(patch, os, reverse), Titled("--- ", from), to, rest);
  }

  lemma HeaderConcat(a: string, m: seq<string>, c: string, d: string)
    ensures Concat([a] + m + [c] + [d]) == a + Concat(m) + c + d
  {
    ConcatCons(a, m);
    ConcatJoin([a] + m, [c]);
    ConcatJoin([a] + m + [c], [d]);
    OneConcat(c);
    OneConcat(d);
  }

  lemma OneConcat(a: string)
    ensures Concat([a]) == a
  {
    assert [a][..0] == [];
  }

  lemma Regroup(a: string, title: string, name: string)
    ensures a + title + name + "\n" == a + Titled(title, name)
  {
  }

  lemma FileHeaderIs(patch: FilePatch, os: seq<OutHunk>, reverse: bool)
    ensures FileHeader(patch, os, reverse) == Concat(HeaderLines(patch, os, reverse))
  {
    hide SaysDeleted, SaysNew, Concat;
    var path := if reverse then patch.newPath else patch.oldPath;
    var from := if SaysNew(patch, reverse) then "/dev/null" else "a/" + path;
    var to := if SaysDeleted(patch, os, reverse) then "/dev/null" else "b/" + path;
    var m := ModeLine(patch, os, reverse);
    var a := Titled("diff --git a/" + path + " b/", path);
    HeaderConcat(a, m, Titled("--- ", from), Titled("+++ ", to));
    ModeText(patch, os, reverse);
    Regroup(a + Concat(m), "--- ", from);
    Regroup(a + Concat(m) + Titled("--- ", from), "+++ ", to);
  }

  lemma ModeText(patch: FilePatch, os: seq<OutHunk>, reverse: bool)
    ensures Concat(ModeLine(patch, os, reverse))
         == if SaysNew(patch, reverse) then "new file mode " + patch.newMode + "\n"
            else if SaysDeleted(patch, os, reverse)
            then "deleted file mode " + (if reverse then patch.newMode else patch.oldMode) + "\n"
            else ""
  {
    hide SaysDeleted, SaysNew;
    OneConcat(Titled("new file mode ", patch.newMode));
    OneConcat(Titled("deleted file mode ", if reverse then patch.newMode else patch.oldMode));
  }

  // ----- The text -----

  lemma ClosedIsFile(lines: seq<string>)
    requires Closed(lines)
    ensures IsFile(lines)
  {
  }

  // ----- Names with line breaks -----

  function Size(os: seq<OutHunk>): nat { if os == [] then 0 else 1 + |os[0].body| + Size(os[1..]) }

  lemma {:induction false} BodyTakesItsLines(lines: seq<string>, pre: nat, post: nat)
    requires ReadBody(lines, pre, post).Some?
    ensures var (body, rest) := ReadBody(lines, pre, post).value; |lines| == |body| + |rest|
    decreases |lines|
  {
    if pre != 0 || post != 0 {
      var noted := |lines| > 1 && lines[1] == NOTE;
      BodyTakesItsLines(lines[if noted then 2 else 1..], pre - Count(lines[0][0] != '+'), post - Count(lines[0][0] != '-'));
    }
  }

  // The hunks that are read tell how many lines there were.
  lemma {:induction false} HunksTakeTheirLines(lines: seq<string>)
    requires ReadHunks(lines).Some?
    ensures |lines| == Size(ReadHunks(lines).value)
    decreases |lines|
  {
    hide ReadBody, ReadHeader;
    if lines != [] {
      var h := ReadHeader(lines[0]).value;
      BodyTakesItsLines(lines[1..], h.oldCount, h.newCount);
      var (body, rest) := ReadBody(lines[1..], h.oldCount, h.newCount).value;
      HunksTakeTheirLines(rest);
      assert ReadHunks(lines).value[1..] == ReadHunks(rest).value;
    }
  }

  lemma {:induction false} SkipJoin(a: seq<string>, b: seq<string>)
    ensures SkipFileHeader(a + b)
         == if SkipFileHeader(a).Some? then Some(SkipFileHeader(a).value + b) else SkipFileHeader(b)
    decreases |a|
  {
    hide After;
    if a == [] {
      assert a + b == b;
    } else {
      assert (a + b)[1..] == a[1..] + b;
      SkipJoin(a[1..], b);
    }
  }

  // The part of the file header in front of its last title, and the name under that title.
  function BeforeTarget(patch: FilePatch, os: seq<OutHunk>, reverse: bool): string {
    var path := if reverse then patch.newPath else patch.oldPath;
    Concat([Titled("diff --git a/" + path + " b/", path)] + ModeLine(patch, os, reverse)
           + [Titled("--- ", if SaysNew(patch, reverse) then "/dev/null" else "a/" + path)])
  }

  function Target(patch: FilePatch, os: seq<OutHunk>, reverse: bool): string {
    if SaysDeleted(patch, os, reverse) then "/dev/null" else "b/" + if reverse then patch.newPath else patch.oldPath
  }

  lemma FileHeaderParts(patch: FilePatch, os: seq<OutHunk>, reverse: bool)
    ensures FileHeader(patch, os, reverse)
         == BeforeTarget(patch, os, reverse) + Titled("+++ ", Target(patch, os, reverse))
    ensures Ends(BeforeTarget(patch, os, reverse))
  {
    FileHeaderIs(patch, os, reverse);
    hide SaysDeleted, SaysNew, Concat, FileHeader, ModeLine;
    var path := if reverse then patch.newPath else patch.oldPath;
    var front := [Titled("diff --git a/" + path + " b/", path)] + ModeLine(patch, os, reverse);
    var source := Titled("--- ", if SaysNew(patch, reverse) then "/dev/null" else "a/" + path);
    var title := Titled("+++ ", Target(patch, os, reverse));
    ConcatSnoc(front, source);
    ConcatSnoc(front + [source], title);
  }

  // The last title is met, and what is left below it is the rest of its name.
  lemma TargetIsMet(name: string)
    ensures SkipFileHeader(SplitKeep(Titled("+++ ", name))) == Some(SplitKeep(Titled("+++ ", name))[1..])
    ensures SplitKeep(Titled("+++ ", name))[1..] == [] <==> NoBreak(name)
  {
    var text := Titled("+++ ", name);
    var n := FirstLine(text);
    assert text == "+++ " + (name + "\n");
    assert forall k :: 0 <= k <= |name| ==> text[4 + k] == (name + "\n")[k];
    assert n > 4;
    assert text[..n][..4] == "+++ ";
    assert SplitKeep(text)[1..] == SplitKeep(text[n..]);
    if NoBreak(name) {
      assert n == |text|;
    }
    if n == |text| {
      assert forall k :: 0 <= k < |name| ==> name[k] == text[4 + k];
    }
  }

  // A file header is read to its end when none of its lines but the last starts as the last does.
  predicate HeaderIsRead(header: string) { SkipFileHeader(SplitKeep(header)) == Some([]) }

  lemma HeaderIsMet(patch: FilePatch, os: seq<OutHunk>, reverse: bool)
    ensures var header := FileHeader(patch, os, reverse);
      && Ends(header) && SkipFileHeader(SplitKeep(header)).Some?
      && (!NoBreak(Target(patch, os, reverse)) ==> !HeaderIsRead(header))
  {
    hide SkipFileHeader, SplitKeep, FileHeader, BeforeTarget, Target, NoBreak;
    var name := Target(patch, os, reverse);
    FileHeaderParts(patch, os, reverse);
    TargetIsMet(name);
    SplitJoin(BeforeTarget(patch, os, reverse), Titled("+++ ", name));
    SkipJoin(SplitKeep(BeforeTarget(patch, os, reverse)), SplitKeep(Titled("+++ ", name)));
    assert SplitKeep(Titled("+++ ", name)) != [] by { TitledIsNotEmpty(name); }
  }

  lemma TitledIsNotEmpty(name: string)
    ensures SplitKeep(Titled("+++ ", name)) != []
  {
  }

  // Whatever the names, the rendered text is read back exactly when its file header is.
  lemma {:induction false} TextReadsBackIff(patch: FilePatch, os: seq<OutHunk>, reverse: bool)
    requires AllTidy(os)
    ensures ReadPatch(PatchText(patch, os, reverse)) == Some(os) <==> HeaderIsRead(FileHeader(patch, os, reverse))
  {
    hide AllTidy, Closed, FileHeader, HunksText, ReadHunks, SkipFileHeader, IsFile, SplitKeep, RawHunks, Size;
    var header, lines := FileHeader(patch, os, reverse), RawHunks(os);
    HeaderIsMet(patch, os, reverse);
    HunksAreRaw(os);
    HunksReadBack(os);
    ClosedIsFile(lines);
    SplitBack(lines);
    SplitJoin(header, HunksText(os));
    SkipJoin(SplitKeep(header), lines);
    var left := SkipFileHeader(SplitKeep(header)).value;
    HunksTakeTheirLines(lines);
    if ReadHunks(left + lines) == Some(os) {
      HunksTakeTheirLines(left + lines);
    }
    assert [] + lines == lines;
  }

  // A path with a line break is written as it is, so the text of a hunk that leaves its file in
  // place is not read back.
  lemma BrokenPathIsNotReadBack(patch: FilePatch, os: seq<OutHunk>, reverse: bool)
    requires AllTidy(os) && !SaysDeleted(patch, os, reverse)
    requires !NoBreak(if reverse then patch.newPath else patch.oldPath)
    ensures ReadPatch(PatchText(patch, os, reverse)) != Some(os)
  {
    hide AllTidy, SaysDeleted, FileHeader, ReadPatch, PatchText, HeaderIsRead;
    var path := if reverse then patch.newPath else patch.oldPath;
    var k :| 0 <= k < |path| && path[k] == '\n';
    assert ("b/" + path)[2 + k] == '\n';
    HeaderIsMet(patch, os, reverse);
    TextReadsBackIff(patch, os, reverse);
  }

  // Names without line breaks are read.
  lemma PlainHeaderIsRead(patch: FilePatch, os: seq<OutHunk>, reverse: bool)
    requires PlainNames(patch)
    ensures HeaderIsRead(FileHeader(patch, os, reverse))
  {
    hide Closed, HeaderLines, FileHeader, SkipFileHeader, IsFile, PlainNames;
    var head := HeaderLines(patch, os, reverse);
    assert Closed([]) by { EmptyIsRaw(); }
    HeaderIsSkipped(patch, os, reverse, []);
    FileHeaderIs(patch, os, reverse);
    assert head + [] == head;
    ClosedIsFile(head);
    SplitBack(head);
  }

  // The emitted text is read back as the hunks that were rendered.
  lemma {:induction false} TextReadsBack(patch: FilePatch, os: seq<OutHunk>, reverse: bool)
    requires PlainNames(patch) && AllTidy(os)
    ensures ReadPatch(PatchText(patch, os, reverse)) == Some(os)
  {
    hide *;
    PlainHeaderIsRead(patch, os, reverse);
    TextReadsBackIff(patch, os, reverse);
  }

  // Main result on the text. Whatever selection was accepted, the text that is emitted for a diff
  // between two files is read back, if and only if its file header is, and then it applies, without
  // fuzz, to the text of the index file, and writes the chosen result. Names without line breaks
  // always are.
  lemma {:induction false} EmittedTextApplies(patch: FilePatch, index: string, other: string, sel: Selection, reverse: bool)
    requires IsDiff(patch.hunks, 0, SplitKeep(index), 0, SplitKeep(other), 0, reverse)
    requires AllClean(patch.hunks)
    requires Synthesis(patch, sel, reverse).Success?
    ensures var os := Synthesis(patch, sel, reverse).value;
      var text := PatchText(patch, os, reverse);
      && (ReadPatch(text) == Some(os) <==> HeaderIsRead(FileHeader(patch, os, reverse)))
      && (HeaderIsRead(FileHeader(patch, os, reverse)) ==>
            ApplyText(text, index) == Some(Concat(Outcome(patch.hunks, 0, SplitKeep(index), 0, sel, reverse))))
      && (PlainNames(patch) ==> HeaderIsRead(FileHeader(patch, os, reverse)))
  {
    hide IsDiff, Synthesis, StrictApply, Outcome, EmptyOnlyAtTop, PatchText, ReadPatch, ApplyText, Concat, SplitKeep,
      Rendered, AllTidy, AllClean, PlainNames, FileHeader, HeaderIsRead;
    var os := Synthesis(patch, sel, reverse).value;
    SynthesisIsRendered(patch, sel, reverse);
    EmittedPatchApplies(patch, SplitKeep(index), SplitKeep(other), sel, reverse);
    AppliedAreTidy(os, SplitKeep(index), 0, 0);
    TextReadsBackIff(patch, os, reverse);
    if PlainNames(patch) {
      PlainHeaderIsRead(patch, os, reverse);
    }
    if HeaderIsRead(FileHeader(patch, os, reverse)) {
      ApplyTextIs(PatchText(patch, os, reverse), index, os);
    }
  }

  lemma SynthesisIsRendered(patch: FilePatch, sel: Selection, reverse: bool)
    requires AllClean(patch.hunks) && Synthesis(patch, sel, reverse).Success?
    ensures Rendered(Synthesis(patch, sel, reverse).value)
  {
    PlacedAreRendered(patch.hunks, 0, sel, reverse, 0);
    hide Rendered, Place, BuildsFrom, FirstError;
  }

  lemma ApplyTextIs(text: string, index: string, os: seq<OutHunk>)
    requires ReadPatch(text) == Some(os) && StrictApply(os, SplitKeep(index), 0, 0, false).Some?
    ensures ApplyText(text, index) == Some(Concat(StrictApply(os, SplitKeep(index), 0, 0, false).value))
  {
    hide ReadPatch, StrictApply, SplitKeep, Concat;
  }

  // Staging everything writes the other file, and unstaging everything then writes the first one
  // back, byte for byte.
  lemma {:induction false} TextRoundTrip(patch: FilePatch, a: string, b: string)
    requires IsDiff(patch.hunks, 0, SplitKeep(a), 0, SplitKeep(b), 0, false)
    requires AllClean(patch.hunks) && PlainNames(patch)
    requires !patch.isBinary && !patch.IsRename() && patch.hunks != []
    ensures Synthesis(patch, None, false).Success? && Synthesis(patch, None, true).Success?
    ensures ApplyText(PatchText(patch, Synthesis(patch, None, false).value, false), a) == Some(b)
    ensures ApplyText(PatchText(patch, Synthesis(patch, None, true).value, true), b) == Some(a)
  {
    hide IsDiff, Synthesis, StrictApply, Outcome, PatchText, ReadPatch, ApplyText, Concat, SplitKeep, AllClean,
      PlainNames, FileHeader, HeaderIsRead;
    StageAllThenUnstageAll(patch, SplitKeep(a), SplitKeep(b));
    DiffMirrors(patch.hunks, 0, SplitKeep(a), 0, SplitKeep(b), 0, false);
    SelectingAllGivesOther(patch.hunks, 0, SplitKeep(a), 0, SplitKeep(b), 0, None, false);
    SelectingAllGivesOther(patch.hunks, 0, SplitKeep(b), 0, SplitKeep(a), 0, None, true);
    EmittedTextApplies(patch, a, b, None, false);
    EmittedTextApplies(patch, b, a, None, true);
    SplitIsFile(a);
    SplitIsFile(b);
  }
}
