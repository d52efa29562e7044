// The byte stream that identifies a patch (src/gitclient/domain/patch.py:121-153): what is fed to
// the hash, not the hash.
module Fingerprint {
  import opened Text
  import opened Wrappers
  import opened Patch

  type Byte = b: int | 0 <= b < 256

  // ----- UTF-8, surrogates included -----

  type Point = c: int | 0 <= c < 0x11_0000

  function EncodePoint(c: Point): (bytes: seq<Byte>)
    ensures 1 <= |bytes| <= 4
  {
    if c < 0x80 then [c]
    else if c < 0x800 then [0xC0 + c / 64, 0x80 + c % 64]
    else if c < 0x1_0000 then [0xE0 + c / 4096, 0x80 + c / 64 % 64, 0x80 + c % 64]
    else [0xF0 + c / 262144, 0x80 + c / 4096 % 64, 0x80 + c / 64 % 64, 0x80 + c % 64]
  }

  // The number of bytes of a character, told by its first byte.
  function Width(first: Byte): nat {
    if first < 0x80 then 1 else if first < 0xE0 then 2 else if first < 0xF0 then 3 else 4
  }

  function DecodePoint(bytes: seq<Byte>): int
    requires 1 <= |bytes| <= 4
  {
    var tail := (k: nat) requires k < |bytes| => bytes[k] as int - 0x80;
    if |bytes| == 1 then bytes[0]
    else if |bytes| == 2 then (bytes[0] as int - 0xC0) * 64 + tail(1)
    else if |bytes| == 3 then (bytes[0] as int - 0xE0) * 4096 + tail(1) * 64 + tail(2)
    else (bytes[0] as int - 0xF0) * 262144 + tail(1) * 4096 + tail(2) * 64 + tail(3)
  }

  lemma PointReadsBack(c: Point)
    ensures var bytes := EncodePoint(c); Width(bytes[0]) == |bytes| && DecodePoint(bytes) == c
  {
    assert c / 64 == c / 4096 * 64 + c / 64 % 64;
    assert c / 4096 == c / 262144 * 64 + c / 4096 % 64;
  }

  function Encode(text: seq<Point>): seq<Byte> {
    if text == [] then [] else EncodePoint(text[0]) + Encode(text[1..])
  }

  lemma {:induction false} EncodeIsInjective(a: seq<Point>, b: seq<Point>)
    requires Encode(a) == Encode(b)
    ensures a == b
  {
    hide EncodePoint, DecodePoint, Width;
    if a != [] && b != [] {
      FirstPoint(a[0], Encode(a[1..]), b[0], Encode(b[1..]));
      EncodeIsInjective(a[1..], b[1..]);
      assert a == [a[0]] + a[1..] && b == [b[0]] + b[1..];
    }
  }

  lemma FirstPoint(c: Point, x: seq<Byte>, d: Point, y: seq<Byte>)
    requires EncodePoint(c) + x == EncodePoint(d) + y
    ensures c == d && x == y
  {
    PointReadsBack(c);
    PointReadsBack(d);
    hide EncodePoint, DecodePoint, Width;
    var u, v := EncodePoint(c), EncodePoint(d);
    assert u[0] == (u + x)[0] && v[0] == (v + y)[0];
    assert u == (u + x)[..|u|] && v == (v + y)[..|v|];
    assert x == (u + x)[|u|..] && y == (v + y)[|v|..];
  }

  function Points(text: string): (ps: seq<Point>)
    ensures |ps| == |text| && forall k :: 0 <= k < |text| ==> ps[k] == text[k] as int
  {
    seq(|text|, k requires 0 <= k < |text| => text[k] as int)
  }

  function Bytes(text: string): seq<Byte> { Encode(Points(text)) }

  lemma BytesAreInjective(a: string, b: string)
    requires Bytes(a) == Bytes(b)
    ensures a == b
  {
    EncodeIsInjective(Points(a), Points(b));
    forall k | 0 <= k < |a| ensures a[k] == b[k] {
      assert Points(a)[k] == Points(b)[k];
    }
  }

  // ----- Frames -----

  const LIMIT := 0x1_0000_0000

  function LittleEndian4(n: nat): (bytes: seq<Byte>)
    requires n < LIMIT
    ensures |bytes| == 4
  {
    [n % 256, n / 256 % 256, n / 65536 % 256, n / 16777216]
  }

  lemma LengthReadsBack(n: nat)
    requires n < LIMIT
    ensures var b := LittleEndian4(n); n == b[0] as int + 256 * b[1] as int + 65536 * b[2] as int + 16777216 * b[3] as int
  {
    assert n / 256 == n / 65536 * 256 + n / 256 % 256;
    assert n / 65536 == n / 16777216 * 256 + n / 65536 % 256;
  }

  predicate Fits(text: string) { |Bytes(text)| < LIMIT }

  function Frame(text: string): seq<Byte>
    requires Fits(text)
  {
    LittleEndian4(|Bytes(text)|) + Bytes(text)
  }

  predicate AllFit(texts: seq<string>) { forall k :: 0 <= k < |texts| ==> Fits(texts[k]) }

  function Frames(texts: seq<string>): seq<Byte>
    requires AllFit(texts)
  {
    if texts == [] then [] else Frames(texts[..|texts| - 1]) + Frame(texts[|texts| - 1])
  }

  lemma FirstFrame(a: string, x: seq<Byte>, b: string, y: seq<Byte>)
    requires Fits(a) && Fits(b) && Frame(a) + x == Frame(b) + y
    ensures a == b && x == y
  {
    var u, v := Bytes(a), Bytes(b);
    LengthReadsBack(|u|);
    LengthReadsBack(|v|);
    hide LittleEndian4, Bytes;
    var p, q := LittleEndian4(|u|), LittleEndian4(|v|);
    assert p == (Frame(a) + x)[..4] && q == (Frame(b) + y)[..4];
    assert u == (Frame(a) + x)[4..4 + |u|] && v == (Frame(b) + y)[4..4 + |v|];
    assert x == (Frame(a) + x)[4 + |u|..] && y == (Frame(b) + y)[4 + |v|..];
    BytesAreInjective(a, b);
  }

  lemma {:induction false} FramesCons(text: string, texts: seq<string>)
    requires Fits(text) && AllFit(texts)
    ensures AllFit([text] + texts) && Frames([text] + texts) == Frame(text) + Frames(texts)
    decreases |texts|
  {
    hide Fits, Frame, Frames;
    var all := [text] + texts;
    if texts == [] {
      assert all == [] + [text];
      LastFrame([], text);
      NothingFramed();
    } else {
      var front, last := texts[..|texts| - 1], texts[|texts| - 1];
      FramesCons(text, front);
      assert all == ([text] + front) + [last] && texts == front + [last];
      LastFrame([text] + front, last);
      LastFrame(front, last);
    }
  }

  lemma NothingFramed()
    ensures AllFit([]) && Frames([]) == []
  {
  }

  lemma LastFrame(texts: seq<string>, last: string)
    requires AllFit(texts) && Fits(last)
    ensures AllFit(texts + [last]) && Frames(texts + [last]) == Frames(texts) + Frame(last)
  {
    hide Fits, Frame;
    assert (texts + [last])[..|texts|] == texts;
  }

  lemma FrameIsLong(text: string)
    requires Fits(text)
    ensures |Frame(text)| >= 4
  {
  }

  // A list of texts is told by the bytes of its frames.
  lemma {:induction false} FramesAreInjective(a: seq<string>, b: seq<string>)
    requires AllFit(a) && AllFit(b) && Frames(a) == Frames(b)
    ensures a == b
    decreases |a|
  {
    hide Fits, Frame;
    if a == [] || b == [] {
      NoFrames(a);
      NoFrames(b);
      assert Frames([]) == [];
    } else {
      FramesCons(a[0], a[1..]);
      FramesCons(b[0], b[1..]);
      assert a == [a[0]] + a[1..] && b == [b[0]] + b[1..];
      FirstFrame(a[0], Frames(a[1..]), b[0], Frames(b[1..]));
      FramesAreInjective(a[1..], b[1..]);
    }
  }

  lemma NoFrames(texts: seq<string>)
    requires AllFit(texts)
    ensures Frames(texts) == [] ==> texts == []
  {
    if texts != [] {
      FrameIsLong(texts[|texts| - 1]);
    }
  }

  // ----- The texts of a patch -----

  function Numbers(hunk: PatchHunk): string {
    Decimal(hunk.oldStart) + "," + (Decimal(hunk.oldLines) + "," + (Decimal(hunk.newStart) + "," + Decimal(hunk.newLines)))
  }

  // The texts of the lines from i on, and of the hunks from k on.
  function LineTexts(lines: seq<PatchLine>, i: nat): seq<string>
    requires i <= |lines|
    decreases |lines| - i
  {
    if i == |lines| then [] else [[lines[i].origin], lines[i].content] + LineTexts(lines, i + 1)
  }

  function HunkTexts(hunks: seq<PatchHunk>, k: nat): seq<string>
    requires k <= |hunks|
    decreases |hunks| - k
  {
    if k == |hunks| then [] else [Numbers(hunks[k])] + (LineTexts(hunks[k].lines, 0) + HunkTexts(hunks, k + 1))
  }

  function Texts(patch: FilePatch): seq<string> {
    [patch.oldPath, patch.newPath] + HunkTexts(patch.hunks, 0)
  }

  // The bytes of a list of texts; none when the length of one does not fit four bytes.
  function StreamOf(texts: seq<string>): Option<seq<Byte>> {
    if AllFit(texts) then Some(Frames(texts)) else None
  }

  function Stream(patch: FilePatch): Option<seq<Byte>> { StreamOf(Texts(patch)) }

  // Feeds one text: its length in four bytes, then its bytes.
  method Feed(stream: seq<Byte>, text: string) returns (r: Option<seq<Byte>>)
    ensures r == if Fits(text) then Some(stream + Frame(text)) else None
  {
    var data := Bytes(text);
    if |data| >= LIMIT {
      return None;
    }
    assert stream + LittleEndian4(|data|) + data == stream + Frame(text);
    return Some(stream + LittleEndian4(|data|) + data);
  }

  // Feeds one more of the texts.
  method FeedNext(r: Option<seq<Byte>>, text: string, ghost done: seq<string>) returns (r': Option<seq<Byte>>)
    requires r == StreamOf(done)
    ensures r' == StreamOf(done + [text])
  {
    FramesSnoc(done, text);
    hide StreamOf, Fits, Frame, Frames;
    if r.None? {
      return None;
    }
    r' := Feed(r.value, text);
  }

  method FeedHunk(r: Option<seq<Byte>>, hunk: PatchHunk, ghost done: seq<string>) returns (r': Option<seq<Byte>>)
    requires r == StreamOf(done)
    ensures r' == StreamOf(done + [Numbers(hunk)] + LineTexts(hunk.lines, 0))
  {
    hide StreamOf, Numbers;
    r' := FeedNext(r, Numbers(hunk), done);
    ghost var fed := done + [Numbers(hunk)];
    for i := 0 to |hunk.lines|
      invariant r' == StreamOf(fed) && fed + LineTexts(hunk.lines, i) == done + [Numbers(hunk)] + LineTexts(hunk.lines, 0)
    {
      var line := hunk.lines[i];
      r' := FeedNext(r', [line.origin], fed);
      r' := FeedNext(r', line.content, fed + [[line.origin]]);
      assert fed + [[line.origin]] + [line.content] == fed + [[line.origin], line.content];
      fed := fed + [[line.origin], line.content];
    }
    assert fed + [] == fed;
  }

  // The stream fed to the hash.
  method FeedPatch(patch: FilePatch) returns (r: Option<seq<Byte>>)
    ensures r == Stream(patch)
  {
    hide StreamOf, Numbers, LineTexts;
    NothingFed();
    r := FeedNext(Some([]), patch.oldPath, []);
    r := FeedNext(r, patch.newPath, [] + [patch.oldPath]);
    ghost var fed := [patch.oldPath, patch.newPath];
    assert [] + [patch.oldPath] + [patch.newPath] == fed;
    for k := 0 to |patch.hunks|
      invariant r == StreamOf(fed) && fed + HunkTexts(patch.hunks, k) == Texts(patch)
    {
      r := FeedHunk(r, patch.hunks[k], fed);
      fed := fed + [Numbers(patch.hunks[k])] + LineTexts(patch.hunks[k].lines, 0);
    }
    assert fed + [] == fed;
  }

  lemma NothingFed()
    ensures StreamOf([]) == Some([])
  {
  }

  lemma FramesSnoc(texts: seq<string>, text: string)
    ensures StreamOf(texts + [text])
         == if StreamOf(texts).Some? && Fits(text) then Some(StreamOf(texts).value + Frame(text)) else None
  {
    hide Fits, Frame;
    var all := texts + [text];
    assert all[..|all| - 1] == texts && all[|all| - 1] == text;
    if AllFit(all) {
      forall k | 0 <= k < |texts| ensures Fits(texts[k]) {
        assert all[k] == texts[k];
      }
      assert Fits(all[|all| - 1]);
    }
  }

  // ----- Equal streams -----

  ghost predicate SameLines(a: seq<PatchLine>, b: seq<PatchLine>, i: nat) {
    |a| == |b| && forall j :: i <= j < |a| ==> a[j].origin == b[j].origin && a[j].content == b[j].content
  }

  ghost predicate SameHunk(a: PatchHunk, b: PatchHunk) {
    && a.oldStart == b.oldStart && a.oldLines == b.oldLines && a.newStart == b.newStart && a.newLines == b.newLines
    && SameLines(a.lines, b.lines, 0)
  }

  ghost predicate SameHunks(a: seq<PatchHunk>, b: seq<PatchHunk>, k: nat) {
    |a| == |b| && forall j :: k <= j < |a| ==> SameHunk(a[j], b[j])
  }

  lemma NumbersReadBack(a: PatchHunk, b: PatchHunk)
    requires Numbers(a) == Numbers(b)
    ensures a.oldStart == b.oldStart && a.oldLines == b.oldLines && a.newStart == b.newStart && a.newLines == b.newLines
  {
    hide Decimal;
    var c, d := Decimal(a.newStart) + "," + Decimal(a.newLines), Decimal(b.newStart) + "," + Decimal(b.newLines);
    var e, f := Decimal(a.oldLines) + "," + c, Decimal(b.oldLines) + "," + d;
    NumberThenRest(a.oldStart, e, b.oldStart, f);
    NumberThenRest(a.oldLines, c, b.oldLines, d);
    NumberThenRest(a.newStart, Decimal(a.newLines), b.newStart, Decimal(b.newLines));
    DecimalReadsBack(a.newLines);
    DecimalReadsBack(b.newLines);
  }

  lemma NumberThenRest(n: nat, x: string, m: nat, y: string)
    requires Decimal(n) + "," + x == Decimal(m) + "," + y
    ensures n == m && x == y
  {
    DecimalReadsBack(n);
    DecimalReadsBack(m);
    hide Decimal;
    assert Decimal(n) + ("," + x) == Decimal(n) + "," + x && Decimal(m) + ("," + y) == Decimal(m) + "," + y;
    DigitsThenRest(Decimal(n), "," + x, Decimal(m), "," + y);
    assert x == ("," + x)[1..] && y == ("," + y)[1..];
  }

  // The numbers of a hunk take more than the one character of an origin.
  lemma NumbersAreLong(hunk: PatchHunk)
    ensures |Numbers(hunk)| > 1
  {
  }

  // No origin stands at the front: a text of several characters, or nothing.
  ghost predicate EndsLines(texts: seq<string>) { texts == [] || |texts[0]| > 1 }

  lemma {:induction false} LinesReadBack(a: seq<PatchLine>, b: seq<PatchLine>, i: nat, x: seq<string>, y: seq<string>)
    requires i <= |a| && i <= |b| && EndsLines(x) && EndsLines(y)
    requires LineTexts(a, i) + x == LineTexts(b, i) + y
    ensures x == y && SameLines(a, b, i)
    decreases |a| - i
  {
    var u, v := LineTexts(a, i) + x, LineTexts(b, i) + y;
    OriginFirst(a, i, x);
    OriginFirst(b, i, y);
    if i < |a| && i < |b| {
      assert u[0] == [a[i].origin] && u[1] == a[i].content && v[0] == [b[i].origin] && v[1] == b[i].content;
      assert u[2..] == LineTexts(a, i + 1) + x && v[2..] == LineTexts(b, i + 1) + y;
      LinesReadBack(a, b, i + 1, x, y);
    }
  }

  lemma OriginFirst(lines: seq<PatchLine>, i: nat, x: seq<string>)
    requires i <= |lines|
    ensures if i < |lines| then !EndsLines(LineTexts(lines, i) + x) else LineTexts(lines, i) + x == x
  {
    assert i < |lines| ==> (LineTexts(lines, i) + x)[0] == [lines[i].origin];
  }

  lemma {:induction false} HunksReadBack(a: seq<PatchHunk>, b: seq<PatchHunk>, k: nat)
    requires k <= |a| && k <= |b| && HunkTexts(a, k) == HunkTexts(b, k)
    ensures SameHunks(a, b, k)
    decreases |a| - k
  {
    hide Numbers, LineTexts, SameLines;
    if k < |a| && k < |b| {
      var u, v := HunkTexts(a, k), HunkTexts(b, k);
      assert u[0] == Numbers(a[k]) && v[0] == Numbers(b[k]);
      assert u[1..] == LineTexts(a[k].lines, 0) + HunkTexts(a, k + 1);
      assert v[1..] == LineTexts(b[k].lines, 0) + HunkTexts(b, k + 1);
      NumbersReadBack(a[k], b[k]);
      HunksEndLines(a, k + 1);
      HunksEndLines(b, k + 1);
      LinesReadBack(a[k].lines, b[k].lines, 0, HunkTexts(a, k + 1), HunkTexts(b, k + 1));
      HunksReadBack(a, b, k + 1);
    }
  }

  lemma HunksEndLines(hunks: seq<PatchHunk>, k: nat)
    requires k <= |hunks|
    ensures EndsLines(HunkTexts(hunks, k))
  {
    if k < |hunks| {
      NumbersAreLong(hunks[k]);
    }
  }

  // Main result. Patches with equal streams have equal paths, hunk numbers, origins and contents.
  lemma StreamIsInjective(p: FilePatch, q: FilePatch)
    requires Stream(p).Some? && Stream(p) == Stream(q)
    ensures p.oldPath == q.oldPath && p.newPath == q.newPath && SameHunks(p.hunks, q.hunks, 0)
  {
    hide HunkTexts, Frames, AllFit, SameHunks;
    var u, v := Texts(p), Texts(q);
    FramesAreInjective(u, v);
    assert u[0] == p.oldPath && u[1] == p.newPath && v[0] == q.oldPath && v[1] == q.newPath;
    assert u[2..] == HunkTexts(p.hunks, 0) && v[2..] == HunkTexts(q.hunks, 0);
    HunksReadBack(p.hunks, q.hunks, 0);
  }

  lemma {:induction false} SameLinesSameTexts(a: seq<PatchLine>, b: seq<PatchLine>, i: nat)
    requires SameLines(a, b, 0) && i <= |a|
    ensures LineTexts(a, i) == LineTexts(b, i)
    decreases |a| - i
  {
    if i < |a| {
      SameLinesSameTexts(a, b, i + 1);
    }
  }

  lemma {:induction false} SameHunksSameTexts(a: seq<PatchHunk>, b: seq<PatchHunk>, k: nat)
    requires SameHunks(a, b, 0) && k <= |a|
    ensures HunkTexts(a, k) == HunkTexts(b, k)
    decreases |a| - k
  {
    hide LineTexts, SameLines, Decimal;
    if k < |a| {
      assert SameHunk(a[k], b[k]);
      SameLinesSameTexts(a[k].lines, b[k].lines, 0);
      SameHunksSameTexts(a, b, k + 1);
    }
  }

  // And the stream says nothing else: it fails, or not, and is the same, exactly for the same paths,
  // hunk numbers, origins and contents.
  lemma StreamIsExact(p: FilePatch, q: FilePatch)
    ensures p.oldPath == q.oldPath && p.newPath == q.newPath && SameHunks(p.hunks, q.hunks, 0) ==> Stream(p) == Stream(q)
    ensures Stream(p).Some? && Stream(p) == Stream(q) ==>
      p.oldPath == q.oldPath && p.newPath == q.newPath && SameHunks(p.hunks, q.hunks, 0)
  {
    hide SameHunks, StreamOf, HunkTexts;
    if p.oldPath == q.oldPath && p.newPath == q.newPath && SameHunks(p.hunks, q.hunks, 0) {
      SameHunksSameTexts(p.hunks, q.hunks, 0);
    }
    if Stream(p).Some? && Stream(p) == Stream(q) {
      StreamIsInjective(p, q);
    }
  }

  predicate TooLong(text: string) { |Bytes(text)| >= 0x1_0000_0000 }

  lemma AllFitJoin(a: seq<string>, b: seq<string>)
    ensures AllFit(a + b) <==> AllFit(a) && AllFit(b)
  {
    hide Fits;
    if AllFit(a + b) {
      assert forall k :: 0 <= k < |a| ==> (a + b)[k] == a[k];
      assert forall k :: 0 <= k < |b| ==> (a + b)[|a| + k] == b[k];
    }
  }

  ghost predicate LinesFit(lines: seq<PatchLine>, i: nat) {
    forall j :: i <= j < |lines| ==> !TooLong([lines[j].origin]) && !TooLong(lines[j].content)
  }

  lemma {:induction false} LineTextsFit(lines: seq<PatchLine>, i: nat)
    requires i <= |lines|
    ensures AllFit(LineTexts(lines, i)) <==> LinesFit(lines, i)
    decreases |lines| - i
  {
    hide Bytes;
    if i < |lines| {
      LineTextsFit(lines, i + 1);
      AllFitJoin([[lines[i].origin], lines[i].content], LineTexts(lines, i + 1));
      PairFits([lines[i].origin], lines[i].content);
    }
  }

  lemma PairFits(a: string, b: string)
    ensures AllFit([a, b]) <==> !TooLong(a) && !TooLong(b)
  {
    hide Bytes;
    if AllFit([a, b]) {
      assert Fits([a, b][0]) && Fits([a, b][1]);
    }
  }

  ghost predicate HunksFit(hunks: seq<PatchHunk>, k: nat) {
    forall h :: k <= h < |hunks| ==> !TooLong(Numbers(hunks[h])) && LinesFit(hunks[h].lines, 0)
  }

  lemma {:induction false} HunkTextsFit(hunks: seq<PatchHunk>, k: nat)
    requires k <= |hunks|
    ensures AllFit(HunkTexts(hunks, k)) <==> HunksFit(hunks, k)
    decreases |hunks| - k
  {
    hide LineTexts, Numbers, LinesFit, TooLong, AllFit;
    if k == |hunks| {
      assert AllFit([]) by { NothingFramed(); }
    } else {
      HunkTextsFit(hunks, k + 1);
      LineTextsFit(hunks[k].lines, 0);
      AllFitJoin(LineTexts(hunks[k].lines, 0), HunkTexts(hunks, k + 1));
      AllFitJoin([Numbers(hunks[k])], LineTexts(hunks[k].lines, 0) + HunkTexts(hunks, k + 1));
      OneFits(Numbers(hunks[k]));
    }
  }

  lemma OneFits(a: string)
    ensures AllFit([a]) <==> !TooLong(a)
  {
    hide Bytes;
    if AllFit([a]) {
      assert Fits([a][0]);
    }
  }

  // There is a stream exactly when every path, line and hunk header fits its length.
  lemma StreamIff(p: FilePatch)
    ensures Stream(p).Some? <==> !TooLong(p.oldPath) && !TooLong(p.newPath) && HunksFit(p.hunks, 0)
  {
    hide HunkTexts, Frames, TooLong, AllFit, HunksFit;
    HunkTextsFit(p.hunks, 0);
    AllFitJoin([p.oldPath, p.newPath], HunkTexts(p.hunks, 0));
    PairFits(p.oldPath, p.newPath);
  }

  // ----- The same selection means the same patch -----

  lemma {:induction false} SameLinesSameBuild(
    a: seq<PatchLine>, b: seq<PatchLine>, h: nat, n: nat, sel: Selection, reverse: bool)
    requires SameLines(a, b, 0) && n <= |a|
    ensures BuildOf(a, h, n, sel, reverse) == BuildOf(b, h, n, sel, reverse)
  {
    hide Keeps, Entry;
    if n > 0 {
      SameLinesSameBuild(a, b, h, n - 1, sel, reverse);
      SameLinesSameEntry(a, b, h, n - 1, sel, reverse);
    }
  }

  lemma SameLinesSameEntry(a: seq<PatchLine>, b: seq<PatchLine>, h: nat, n: nat, sel: Selection, reverse: bool)
    requires SameLines(a, b, 0) && n < |a|
    ensures Entry(a, h, n, sel, reverse) == Entry(b, h, n, sel, reverse)
  {
    hide Keeps;
  }

  lemma {:induction false} SameLinesSameRun(a: seq<PatchLine>, b: seq<PatchLine>, i: nat)
    requires SameLines(a, b, 0) && i <= |a|
    ensures RunEnd(a, i) == RunEnd(b, i)
    decreases |a| - i
  {
    if i < |a| {
      SameLinesSameRun(a, b, i + 1);
    }
  }

  lemma {:induction false} SameLinesSameCount(a: seq<PatchLine>, b: seq<PatchLine>, s: nat, e: nat, origin: char)
    requires SameLines(a, b, 0) && s <= e <= |a|
    ensures |Pick(a, s, e, origin)| == |Pick(b, s, e, origin)|
    decreases e
  {
    if s < e {
      SameLinesSameCount(a, b, s, e - 1, origin);
    }
  }

  ghost predicate SameBlocks(x: seq<Block>, y: seq<Block>) {
    |x| == |y| && forall k :: 0 <= k < |x| ==>
      x[k].start == y[k].start && |x[k].deletions| == |y[k].deletions| && |x[k].additions| == |y[k].additions|
  }

  lemma {:induction false} SameLinesSameBlocks(a: seq<PatchLine>, b: seq<PatchLine>, i: nat)
    requires SameLines(a, b, 0) && i <= |a|
    ensures SameBlocks(BlocksFrom(a, i), BlocksFrom(b, i))
    decreases |a| - i
  {
    hide Pick;
    if i < |a| {
      if !a[i].IsChange() {
        SameLinesSameBlocks(a, b, i + 1);
      } else {
        var e := RunEnd(a, i);
        SameLinesSameRun(a, b, i);
        SameLinesSameBlocks(a, b, e);
        SameLinesSameCount(a, b, i, e, '-');
        SameLinesSameCount(a, b, i, e, '+');
      }
    }
  }

  lemma {:induction false} SameLinesSameUnknown(a: seq<PatchLine>, b: seq<PatchLine>, i: nat)
    requires SameLines(a, b, 0) && i <= |a|
    ensures FirstUnknown(a, i) == FirstUnknown(b, i)
    decreases |a| - i
  {
    if i < |a| {
      SameLinesSameUnknown(a, b, i + 1);
    }
  }

  lemma SameHunkSameError(a: PatchHunk, b: PatchHunk, h: nat, sel: Selection)
    requires SameHunk(a, b)
    ensures HunkError(a, h, sel) == HunkError(b, h, sel)
  {
    SameLinesSameUnknown(a.lines, b.lines, 0);
    SameLinesSameBlocks(a.lines, b.lines, 0);
    hide BlocksFrom, FirstUnknown, SameLines;
    SameBlocksSameGuard(a.lines, b.lines, h, sel);
    SameBlocksSameGuard(b.lines, a.lines, h, sel);
  }

  lemma SameBlocksSameGuard(a: seq<PatchLine>, b: seq<PatchLine>, h: nat, sel: Selection)
    requires SameBlocks(BlocksFrom(a, 0), BlocksFrom(b, 0))
    ensures GuardRejects(a, h, sel) ==> GuardRejects(b, h, sel)
  {
    hide BlocksFrom, SomeUnselected, SomeSelected;
    if GuardRejects(a, h, sel) {
      var k :| 0 <= k < |BlocksFrom(a, 0)| && BlockRejected(BlocksFrom(a, 0)[k], h, sel.value);
      assert BlockRejected(BlocksFrom(b, 0)[k], h, sel.value);
    }
  }

  lemma {:induction false} SameHunksSameErrors(a: seq<PatchHunk>, b: seq<PatchHunk>, k: nat, sel: Selection)
    requires SameHunks(a, b, 0) && k <= |a|
    ensures FirstError(a, k, sel) == FirstError(b, k, sel)
    decreases |a| - k
  {
    hide HunkError, SameHunk;
    if k < |a| {
      SameHunkSameError(a[k], b[k], k, sel);
      SameHunksSameErrors(a, b, k + 1, sel);
    }
  }

  lemma {:induction false} SameHunksSameBuilds(a: seq<PatchHunk>, b: seq<PatchHunk>, k: nat, sel: Selection, reverse: bool)
    requires SameHunks(a, b, 0) && k <= |a|
    ensures BuildsFrom(a, k, sel, reverse) == BuildsFrom(b, k, sel, reverse)
    decreases |a| - k
  {
    hide HasChange, BuildOf, SameLines;
    if k < |a| {
      assert SameHunk(a[k], b[k]);
      SameLinesSameBuild(a[k].lines, b[k].lines, k, |a[k].lines|, sel, reverse);
      SameLength(a[k], b[k]);
      SameHunksSameBuilds(a, b, k + 1, sel, reverse);
    }
  }

  lemma SameLength(a: PatchHunk, b: PatchHunk)
    requires SameHunk(a, b)
    ensures |a.lines| == |b.lines|
  {
  }

  lemma {:induction false} SameHunksSamePlaces(
    a: seq<PatchHunk>, b: seq<PatchHunk>, bs: seq<(nat, Build)>, reverse: bool, offset: int)
    requires SameHunks(a, b, 0) && NumbersHunks(bs, a)
    ensures Place(a, bs, reverse, offset) == Place(b, bs, reverse, offset)
    decreases |bs|
  {
    hide SameLines;
    if bs != [] {
      assert SameHunk(a[bs[0].0], b[bs[0].0]);
      SameHunksSamePlaces(a, b, bs[1..], reverse, offset + bs[0].1.newCount - bs[0].1.oldCount);
    }
  }

  // A selection means the same in both patches: it is refused for the same reason, or gives the
  // same hunks.
  lemma SameStreamSameHunks(p: FilePatch, q: FilePatch, sel: Selection, reverse: bool)
    requires Stream(p).Some? && Stream(p) == Stream(q) && p.isBinary == q.isBinary
    ensures Synthesis(p, sel, reverse) == Synthesis(q, sel, reverse)
  {
    hide Stream, SameHunk, FirstError, BuildsFrom, Place;
    StreamIsInjective(p, q);
    SameHunksSameErrors(p.hunks, q.hunks, 0, sel);
    SameHunksSameBuilds(p.hunks, q.hunks, 0, sel, reverse);
    SameHunksSamePlaces(p.hunks, q.hunks, BuildsFrom(p.hunks, 0, sel, reverse), reverse, 0);
  }
}
