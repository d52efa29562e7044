// Conflict-marker files: parsing into segments and composing the chosen text
// (src/gitclient/domain/conflict_text.py).
//
// A file is its sequence of lines, each with its line ending. The grammar of marker files is
// written as a printer of tagged pieces; the parser is proved to be its inverse.
module ConflictText {
  import opened Text
  import opened Wrappers

  datatype Segment = Common(lines: seq<string>) | Hunk(ours: seq<string>, theirs: seq<string>)

  datatype ParseError = NoSeparator | NoEnd | Unopened | Nested

  const CHOICE_OURS := "ours"
  const CHOICE_THEIRS := "theirs"
  const CHOICE_BOTH := "both"

  datatype ComposeError = WrongCount | UnknownChoice

  const OPEN := "<<<<<<<"
  const BAR := "|||||||"
  const SEP := "======="
  const CLOSE := ">>>>>>>"

  // ----- Markers -----

  predicate IsMarker(line: string, marker: string) {
    var stripped := StripEnd(line);
    stripped == marker || marker + " " <= stripped
  }

  predicate IsAnyMarker(line: string, stops: seq<string>) {
    exists k :: 0 <= k < |stops| && IsMarker(line, stops[k])
  }

  // The marker text, alone or with a space and a label, and a line end of any kind.
  ghost predicate LooksLike(line: string, seven: string) {
    exists tag, ends :: Composes(line, seven, tag, ends)
  }

  predicate Composes(line: string, seven: string, tag: string, ends: string) {
    line == seven + tag + ends && (tag == "" || tag[0] == ' ') && Breaks(ends)
  }

  lemma MarkerLooks(line: string, seven: string)
    requires seven != "" && seven[|seven| - 1] != '\r' && seven[|seven| - 1] != '\n'
    ensures IsMarker(line, seven) <==> LooksLike(line, seven)
  {
    var s := StripEnd(line);
    StripEndIs(line);
    if IsMarker(line, seven) {
      var tag := s[|seven|..];
      assert tag != "" ==> tag[0] == (seven + " ")[|seven|];
      assert Composes(line, seven, tag, line[|s|..]);
    }
    if LooksLike(line, seven) {
      var tag, ends :| Composes(line, seven, tag, ends);
      LabelSurvives(line, seven, tag, ends);
    }
  }

  lemma LabelSurvives(line: string, seven: string, tag: string, ends: string)
    requires seven != "" && seven[|seven| - 1] != '\r' && seven[|seven| - 1] != '\n'
    requires Composes(line, seven, tag, ends)
    ensures IsMarker(line, seven)
  {
    var s := StripEnd(line);
    StripEndIs(line);
    if tag == "" {
      assert line == seven + ends;
      StripEndOf(seven, ends);
    } else {
      var n := |seven| + 1;
      assert line[|seven|] == ' ';
      assert forall k :: |s| <= k < |line| ==> line[k] == line[|s|..][k - |s|];
      assert n <= |s|;
      assert s[..n] == line[..n] == seven + " ";
    }
  }

  // Main result on markers, character by character.
  lemma MarkersLook(line: string)
    ensures IsMarker(line, OPEN) <==> LooksLike(line, "<<<<<<<")
    ensures IsMarker(line, BAR) <==> LooksLike(line, "|||||||")
    ensures IsMarker(line, SEP) <==> LooksLike(line, "=======")
    ensures IsMarker(line, CLOSE) <==> LooksLike(line, ">>>>>>>")
  {
    hide IsMarker, LooksLike;
    MarkerLooks(line, OPEN);
    MarkerLooks(line, BAR);
    MarkerLooks(line, SEP);
    MarkerLooks(line, CLOSE);
  }

  // A line is a marker of at most one kind.
  lemma OneKind(line: string)
    ensures IsMarker(line, OPEN) ==> !IsMarker(line, BAR) && !IsMarker(line, SEP) && !IsMarker(line, CLOSE)
    ensures IsMarker(line, BAR) ==> !IsMarker(line, SEP) && !IsMarker(line, CLOSE)
    ensures IsMarker(line, SEP) ==> !IsMarker(line, CLOSE)
  {
    var s := StripEnd(line);
    FirstOf(s, OPEN);
    FirstOf(s, BAR);
    FirstOf(s, SEP);
    FirstOf(s, CLOSE);
  }

  lemma FirstOf(s: string, marker: string)
    requires marker != ""
    ensures s == marker || marker + " " <= s ==> s != "" && s[0] == marker[0]
  {
  }

  // ----- The parser -----

  // The first line from i on that is a stop, or the end; None when a conflict opens before it.
  function StopFrom(lines: seq<string>, i: nat, stops: seq<string>): (r: Option<nat>)
    requires i <= |lines|
    ensures r.Some? ==> i <= r.value <= |lines|
    ensures r.Some? ==> forall k :: i <= k < r.value ==> !IsAnyMarker(lines[k], stops) && !IsMarker(lines[k], OPEN)
    ensures r.Some? && r.value < |lines| ==> IsAnyMarker(lines[r.value], stops)
    decreases |lines| - i
  {
    if i == |lines| || IsAnyMarker(lines[i], stops) then Some(i)
    else if IsMarker(lines[i], OPEN) then None
    else StopFrom(lines, i + 1, stops)
  }

  // The hunk whose opening marker is line i - 1, and the line after its closing marker.
  function ParseHunk(lines: seq<string>, i: nat): (r: Result<(Segment, nat), ParseError>)
    requires i <= |lines|
    ensures r.Success? ==> i < r.value.1 <= |lines|
  {
    var o := StopFrom(lines, i, [BAR, SEP]);
    if o.None? then Failure(Nested)
    else if o.value == |lines| then Failure(NoSeparator)
    else
      var s := if IsMarker(lines[o.value], BAR) then StopFrom(lines, o.value + 1, [SEP]) else o;
      if s.None? then Failure(Nested)
      else if s.value == |lines| then Failure(NoSeparator)
      else
        var e := StopFrom(lines, s.value + 1, [CLOSE]);
        if e.None? then Failure(Nested)
        else if e.value == |lines| then Failure(NoEnd)
        else Success((Hunk(lines[i..o.value], lines[s.value + 1..e.value]), e.value + 1))
  }

  function Flush(common: seq<string>): seq<Segment> { if common == [] then [] else [Common(common)] }

  function Prepend(front: seq<Segment>, r: Result<seq<Segment>, ParseError>): Result<seq<Segment>, ParseError> {
    if r.Success? then Success(front + r.value) else r
  }

  // The segments of the lines from i on, with the common lines gathered just before.
  function ParseFrom(lines: seq<string>, i: nat, common: seq<string>): Result<seq<Segment>, ParseError>
    requires i <= |lines|
    decreases |lines| - i
  {
    if i == |lines| then Success(Flush(common))
    else if IsMarker(lines[i], OPEN) then
      var h := ParseHunk(lines, i + 1);
      if h.Failure? then Failure(h.error)
      else Prepend(Flush(common) + [h.value.0], ParseFrom(lines, h.value.1, []))
    else if IsMarker(lines[i], SEP) || IsMarker(lines[i], CLOSE) then Failure(Unopened)
    else ParseFrom(lines, i + 1, common + [lines[i]])
  }

  function Parse(lines: seq<string>): Result<seq<Segment>, ParseError> { ParseFrom(lines, 0, []) }

  method CollectUntil(lines: seq<string>, start: nat, stops: seq<string>)
    returns (r: Result<nat, ParseError>, into: seq<string>)
    requires start <= |lines|
    ensures match StopFrom(lines, start, stops)
      case None => r == Failure(Nested)
      case Some(end) => r == Success(end) && into == lines[start..end]
  {
    var index := start;
    into := [];
    while index < |lines| && !(exists k :: 0 <= k < |stops| && IsMarker(lines[index], stops[k]))
      invariant start <= index <= |lines|
      invariant StopFrom(lines, index, stops) == StopFrom(lines, start, stops)
      invariant into == lines[start..index]
    {
      if IsMarker(lines[index], OPEN) {
        return Failure(Nested), into;
      }
      into := into + [lines[index]];
      index := index + 1;
    }
    return Success(index), into;
  }

  // The lines of one conflict, from the one after its opening marker.
  method CollectHunk(lines: seq<string>, start: nat) returns (r: Result<(Segment, nat), ParseError>)
    requires start <= |lines|
    ensures r == ParseHunk(lines, start)
  {
    hide StopFrom, IsMarker;
    var stop, ours := CollectUntil(lines, start, [BAR, SEP]);
    if stop.Failure? {
      return Failure(stop.error);
    }
    if stop.value >= |lines| {
      return Failure(NoSeparator);
    }
    var separator := stop.value;
    if IsMarker(lines[separator], BAR) {
      var base;
      stop, base := CollectUntil(lines, separator + 1, [SEP]);
      if stop.Failure? {
        return Failure(stop.error);
      }
      if stop.value >= |lines| {
        return Failure(NoSeparator);
      }
      separator := stop.value;
    }
    var theirs;
    stop, theirs := CollectUntil(lines, separator + 1, [CLOSE]);
    if stop.Failure? {
      return Failure(stop.error);
    }
    if stop.value >= |lines| {
      return Failure(NoEnd);
    }
    return Success((Hunk(ours, theirs), stop.value + 1));
  }

  lemma PrependTwice(a: seq<Segment>, b: seq<Segment>, r: Result<seq<Segment>, ParseError>)
    ensures Prepend(a, Prepend(b, r)) == Prepend(a + b, r)
    ensures Prepend([], r) == r
  {
    if r.Success? {
      assert a + (b + r.value) == a + b + r.value && [] + r.value == r.value;
    }
  }

  method ParseConflicted(lines: seq<string>) returns (r: Result<seq<Segment>, ParseError>)
    ensures r == Parse(lines)
  {
    hide IsMarker, ParseHunk;
    var segments: seq<Segment> := [];
    var common: seq<string> := [];
    var index := 0;
    PrependTwice([], [], Parse(lines));
    while index < |lines|
      invariant index <= |lines|
      invariant Parse(lines) == Prepend(segments, ParseFrom(lines, index, common))
    {
      var line := lines[index];
      if IsMarker(line, OPEN) {
        var hunk := CollectHunk(lines, index + 1);
        if hunk.Failure? {
          return Failure(hunk.error);
        }
        ghost var before, gathered := segments, common;
        if common != [] {
          segments := segments + [Common(common)];
          common := [];
        }
        segments := segments + [hunk.value.0];
        index := hunk.value.1;
        PrependTwice(before, Flush(gathered) + [hunk.value.0], ParseFrom(lines, index, []));
        assert before + (Flush(gathered) + [hunk.value.0]) == segments;
        continue;
      }
      if IsMarker(line, SEP) || IsMarker(line, CLOSE) {
        return Failure(Unopened);
      }
      common := common + [line];
      index := index + 1;
    }
    assert segments + Flush(common) == if common != [] then segments + [Common(common)] else segments;
    if common != [] {
      segments := segments + [Common(common)];
    }
    return Success(segments);
  }

  // ----- The marker grammar -----

  // A file before its markers are removed. A base section and the labels of the markers are
  // part of the file, but not of what the parser keeps.
  datatype Piece =
    | Plain(lines: seq<string>)
    | Conflict(open: string, ours: seq<string>, base: Option<(string, seq<string>)>, sep: string,
               theirs: seq<string>, close: string)

  function Print(p: Piece): seq<string> {
    match p
    case Plain(lines) => lines
    case Conflict(open, ours, base, sep, theirs, close) =>
      [open] + ours + (if base.Some? then [base.value.0] + base.value.1 else []) + [sep] + theirs + [close]
  }

  function PrintAll(ps: seq<Piece>): seq<string> {
    if ps == [] then [] else Print(ps[0]) + PrintAll(ps[1..])
  }

  function Segments(ps: seq<Piece>): seq<Segment> {
    if ps == [] then []
    else [if ps[0].Plain? then Common(ps[0].lines) else Hunk(ps[0].ours, ps[0].theirs)] + Segments(ps[1..])
  }

  // Text outside conflicts may hold a base marker line.
  predicate CommonLine(line: string) { !IsMarker(line, OPEN) && !IsMarker(line, SEP) && !IsMarker(line, CLOSE) }

  // Our side may hold closing markers.
  predicate OursLine(line: string) { !IsMarker(line, OPEN) && !IsMarker(line, BAR) && !IsMarker(line, SEP) }

  predicate BaseLine(line: string) { !IsMarker(line, OPEN) && !IsMarker(line, SEP) }

  // Their side may hold base markers and separators.
  predicate TheirsLine(line: string) { !IsMarker(line, OPEN) && !IsMarker(line, CLOSE) }

  ghost predicate All(lines: seq<string>, p: string -> bool) { forall k :: 0 <= k < |lines| ==> p(lines[k]) }

  ghost predicate GoodPiece(p: Piece) {
    match p
    case Plain(lines) => lines != [] && All(lines, CommonLine)
    case Conflict(open, ours, base, sep, theirs, close) =>
      && IsMarker(open, OPEN) && All(ours, OursLine)
      && (base.Some? ==> IsMarker(base.value.0, BAR) && All(base.value.1, BaseLine))
      && IsMarker(sep, SEP) && All(theirs, TheirsLine) && IsMarker(close, CLOSE)
  }

  // The grammar: good pieces, and no two texts in a row.
  ghost predicate Grammar(ps: seq<Piece>) {
    && (forall k :: 0 <= k < |ps| ==> GoodPiece(ps[k]))
    && forall k :: 0 <= k < |ps| - 1 ==> ps[k].Plain? ==> !ps[k + 1].Plain?
  }

  // ----- The parser inverts the printer -----

  lemma {:induction false} StopIsFound(lines: seq<string>, i: nat, e: nat, stops: seq<string>)
    requires i <= e < |lines| && IsAnyMarker(lines[e], stops)
    requires forall k :: i <= k < e ==> !IsAnyMarker(lines[k], stops) && !IsMarker(lines[k], OPEN)
    ensures StopFrom(lines, i, stops) == Some(e)
    decreases e - i
  {
    if i < e {
      StopIsFound(lines, i + 1, e, stops);
    }
  }

  lemma AnyOfOne(line: string, a: string)
    ensures IsAnyMarker(line, [a]) <==> IsMarker(line, a)
  {
    assert IsMarker(line, a) ==> IsMarker(line, [a][0]);
  }

  lemma AnyOfTwo(line: string, a: string, b: string)
    ensures IsAnyMarker(line, [a, b]) <==> IsMarker(line, a) || IsMarker(line, b)
  {
    assert IsMarker(line, a) ==> IsMarker(line, [a, b][0]);
    assert IsMarker(line, b) ==> IsMarker(line, [a, b][1]);
  }

  // Lines i to close + 1 are a conflict without its opening marker; its parts end at bar and sep.
  ghost predicate Laid(lines: seq<string>, i: nat, bar: nat, sep: nat, close: nat) {
    && i <= bar <= sep < close < |lines|
    && (bar < sep ==> IsMarker(lines[bar], BAR))
    && IsMarker(lines[sep], SEP) && IsMarker(lines[close], CLOSE)
    && (forall k :: i <= k < bar ==> OursLine(lines[k]))
    && (forall k :: bar < k < sep ==> BaseLine(lines[k]))
    && (forall k :: sep < k < close ==> TheirsLine(lines[k]))
  }

  lemma OursStop(lines: seq<string>, i: nat, bar: nat)
    requires i <= bar < |lines| && (IsMarker(lines[bar], BAR) || IsMarker(lines[bar], SEP))
    requires forall k :: i <= k < bar ==> OursLine(lines[k])
    ensures StopFrom(lines, i, [BAR, SEP]) == Some(bar)
  {
    hide IsMarker, IsAnyMarker;
    forall k | i <= k <= bar
      ensures IsAnyMarker(lines[k], [BAR, SEP]) <==> IsMarker(lines[k], BAR) || IsMarker(lines[k], SEP)
    {
      AnyOfTwo(lines[k], BAR, SEP);
    }
    assert forall k :: i <= k < bar ==> OursLine(lines[k]);
    StopIsFound(lines, i, bar, [BAR, SEP]);
  }

  lemma OneStop(lines: seq<string>, i: nat, e: nat, stop: string)
    requires i <= e < |lines| && IsMarker(lines[e], stop)
    requires forall k :: i <= k < e ==> !IsMarker(lines[k], stop) && !IsMarker(lines[k], OPEN)
    ensures StopFrom(lines, i, [stop]) == Some(e)
  {
    hide IsMarker, IsAnyMarker;
    forall k | i <= k <= e ensures IsAnyMarker(lines[k], [stop]) <==> IsMarker(lines[k], stop) {
      AnyOfOne(lines[k], stop);
    }
    StopIsFound(lines, i, e, [stop]);
  }

  lemma LaidIsParsed(lines: seq<string>, i: nat, bar: nat, sep: nat, close: nat)
    requires Laid(lines, i, bar, sep, close)
    ensures ParseHunk(lines, i) == Success((Hunk(lines[i..bar], lines[sep + 1..close]), close + 1))
  {
    hide StopFrom, IsMarker;
    OursStop(lines, i, bar);
    if bar < sep {
      OneStop(lines, bar + 1, sep, SEP);
    } else {
      OneKind(lines[sep]);
    }
    OneStop(lines, sep + 1, close, CLOSE);
  }

  lemma ParsedIsLaid(lines: seq<string>, i: nat) returns (bar: nat, sep: nat, close: nat)
    requires i <= |lines| && ParseHunk(lines, i).Success?
    ensures Laid(lines, i, bar, sep, close)
    ensures ParseHunk(lines, i) == Success((Hunk(lines[i..bar], lines[sep + 1..close]), close + 1))
  {
    hide StopFrom, IsMarker, IsAnyMarker;
    bar := StopFrom(lines, i, [BAR, SEP]).value;
    sep := if IsMarker(lines[bar], BAR) then StopFrom(lines, bar + 1, [SEP]).value else bar;
    close := StopFrom(lines, sep + 1, [CLOSE]).value;
    AnyOfTwo(lines[bar], BAR, SEP);
    AnyOfOne(lines[sep], SEP);
    AnyOfOne(lines[close], CLOSE);
    forall k | i <= k < bar ensures OursLine(lines[k]) {
      AnyOfTwo(lines[k], BAR, SEP);
    }
    forall k | bar < k < sep ensures BaseLine(lines[k]) {
      AnyOfOne(lines[k], SEP);
    }
    forall k | sep < k < close ensures TheirsLine(lines[k]) {
      AnyOfOne(lines[k], CLOSE);
    }
  }

  function BaseLines(p: Piece): seq<string>
    requires p.Conflict?
  {
    if p.base.Some? then [p.base.value.0] + p.base.value.1 else []
  }

  // Where the parts of a printed conflict lie.
  lemma PrintedParts(p: Piece)
    requires p.Conflict?
    ensures var q := Print(p);
      var bar, sep := 1 + |p.ours|, 1 + |p.ours| + |BaseLines(p)|;
      var close := sep + 1 + |p.theirs|;
      && |q| == close + 1 && q[0] == p.open && q[sep] == p.sep && q[close] == p.close
      && q[1..bar] == p.ours && q[bar..sep] == BaseLines(p) && q[sep + 1..close] == p.theirs
  {
  }

  lemma PrintedIsLaid(p: Piece)
    requires p.Conflict? && GoodPiece(p)
    ensures var sep := 1 + |p.ours| + |BaseLines(p)|;
      Laid(Print(p), 1, 1 + |p.ours|, sep, sep + 1 + |p.theirs|)
  {
    PrintedParts(p);
    hide IsMarker, Print, OursLine, BaseLine, TheirsLine;
    var q := Print(p);
    var bar, sep := 1 + |p.ours|, 1 + |p.ours| + |BaseLines(p)|;
    var close := sep + 1 + |p.theirs|;
    forall k | 1 <= k < bar ensures OursLine(q[k]) {
      assert q[k] == q[1..bar][k - 1] == p.ours[k - 1];
    }
    forall k | bar <= k < sep ensures q[k] == BaseLines(p)[k - bar] {
      assert q[k] == q[bar..sep][k - bar];
    }
    forall k | sep < k < close ensures TheirsLine(q[k]) {
      assert q[k] == q[sep + 1..close][k - sep - 1] == p.theirs[k - sep - 1];
    }
  }

  lemma LaidMoves(q: seq<string>, bar: nat, sep: nat, close: nat, lines: seq<string>, i: nat)
    requires Laid(q, 1, bar, sep, close) && |q| == close + 1
    requires i + |q| <= |lines| && lines[i..i + |q|] == q
    ensures Laid(lines, i + 1, i + bar, i + sep, i + close)
    ensures lines[i + 1..i + bar] == q[1..bar] && lines[i + sep + 1..i + close] == q[sep + 1..close]
  {
    hide IsMarker, OursLine, BaseLine, TheirsLine;
    forall k | i <= k < i + |q| ensures lines[k] == q[k - i] {
      assert lines[i..i + |q|][k - i] == lines[k];
    }
  }

  // A printed conflict at line i is parsed to its two sides.
  lemma HunkIsParsed(lines: seq<string>, i: nat, p: Piece)
    requires p.Conflict? && GoodPiece(p)
    requires i + |Print(p)| <= |lines| && lines[i..i + |Print(p)|] == Print(p)
    ensures ParseHunk(lines, i + 1) == Success((Hunk(p.ours, p.theirs), i + |Print(p)|))
  {
    hide Print, GoodPiece, ParseHunk, Laid, BaseLines;
    PrintedIsLaid(p);
    PrintedSize(p);
    var sep := 1 + |p.ours| + |BaseLines(p)|;
    LaidElsewhere(Print(p), 1 + |p.ours|, sep, sep + 1 + |p.theirs|, lines, i);
  }

  lemma LaidElsewhere(q: seq<string>, bar: nat, sep: nat, close: nat, lines: seq<string>, i: nat)
    requires Laid(q, 1, bar, sep, close) && |q| == close + 1
    requires i + |q| <= |lines| && lines[i..i + |q|] == q
    ensures ParseHunk(lines, i + 1) == Success((Hunk(q[1..bar], q[sep + 1..close]), i + |q|))
  {
    hide ParseHunk, IsMarker;
    LaidMoves(q, bar, sep, close, lines, i);
    LaidIsParsed(lines, i + 1, i + bar, i + sep, i + close);
  }

  lemma PrintedSize(p: Piece)
    requires p.Conflict?
    ensures var bar, sep := 1 + |p.ours|, 1 + |p.ours| + |BaseLines(p)|;
      var close := sep + 1 + |p.theirs|;
      |Print(p)| == close + 1 && Print(p)[1..bar] == p.ours && Print(p)[sep + 1..close] == p.theirs
  {
    PrintedParts(p);
  }

  lemma {:induction false} TextIsGathered(lines: seq<string>, i: nat, e: nat, common: seq<string>)
    requires i <= e <= |lines| && forall k :: i <= k < e ==> CommonLine(lines[k])
    ensures ParseFrom(lines, i, common) == ParseFrom(lines, e, common + lines[i..e])
    decreases e - i
  {
    if i < e {
      TextIsGathered(lines, i + 1, e, common + [lines[i]]);
      assert common + [lines[i]] + lines[i + 1..e] == common + lines[i..e];
    } else {
      assert common + lines[i..e] == common;
    }
  }

  lemma ParseOpening(lines: seq<string>, i: nat, common: seq<string>, h: Segment, next: nat)
    requires i < |lines| && IsMarker(lines[i], OPEN) && ParseHunk(lines, i + 1) == Success((h, next))
    ensures ParseFrom(lines, i, common) == Prepend(Flush(common) + [h], ParseFrom(lines, next, []))
  {
  }

  function SegmentOf(p: Piece): Segment { if p.Plain? then Common(p.lines) else Hunk(p.ours, p.theirs) }

  lemma SegmentsCons(p: Piece, rest: seq<Piece>)
    ensures Segments([p] + rest) == [SegmentOf(p)] + Segments(rest)
    ensures PrintAll([p] + rest) == Print(p) + PrintAll(rest)
  {
    assert ([p] + rest)[1..] == rest;
  }

  // Printing and parsing again gives back the segments, from any line on.
  lemma {:induction false} PiecesAreParsed(lines: seq<string>, i: nat, ps: seq<Piece>, common: seq<string>)
    requires i <= |lines| && lines[i..] == PrintAll(ps) && Grammar(ps)
    requires common != [] && ps != [] ==> ps[0].Conflict?
    ensures ParseFrom(lines, i, common) == Success(Flush(common) + Segments(ps))
    decreases |ps|
  {
    hide ParseFrom, Print, PrintAll, Grammar, GoodPiece, Segments, Flush, SegmentOf, Prepend;
    if ps == [] {
      EndIsParsed(lines, i, common);
    } else {
      var p, rest := ps[0], ps[1..];
      assert ps == [p] + rest;
      SegmentsCons(p, rest);
      RestIsGood(ps);
      PieceSplits(lines, i, Print(p), PrintAll(rest));
      var e := i + |Print(p)|;
      if p.Plain? {
        TextPieceIsParsed(lines, i, p, common);
        PiecesAreParsed(lines, e, rest, p.lines);
        assert [] + ([SegmentOf(p)] + Segments(rest)) == [SegmentOf(p)] + Segments(rest);
      } else {
        ConflictIsParsed(lines, i, p, common);
        PiecesAreParsed(lines, e, rest, []);
        assert Flush([]) == [] by { EndOfCommon(); }
        PrependAll(Flush(common), SegmentOf(p), Segments(rest));
      }
    }
  }

  lemma EndOfCommon()
    ensures Flush([]) == []
  {
  }

  lemma EndIsParsed(lines: seq<string>, i: nat, common: seq<string>)
    requires i <= |lines| && lines[i..] == PrintAll([])
    ensures ParseFrom(lines, i, common) == Success(Flush(common) + Segments([]))
  {
    assert Flush(common) + [] == Flush(common);
  }

  lemma PieceSplits(lines: seq<string>, i: nat, a: seq<string>, b: seq<string>)
    requires i <= |lines| && lines[i..] == a + b
    ensures i + |a| <= |lines| && lines[i..i + |a|] == a && lines[i + |a|..] == b
  {
    assert lines[i..i + |a|] == lines[i..][..|a|] && lines[i + |a|..] == lines[i..][|a|..];
  }

  lemma TextPieceIsParsed(lines: seq<string>, i: nat, p: Piece, common: seq<string>)
    requires p.Plain? && GoodPiece(p) && common == []
    requires i + |Print(p)| <= |lines| && lines[i..i + |Print(p)|] == Print(p)
    ensures p.lines != [] && Print(p) == p.lines && Flush(p.lines) == [SegmentOf(p)] && Flush(common) == []
    ensures ParseFrom(lines, i, common) == ParseFrom(lines, i + |p.lines|, p.lines)
  {
    hide ParseFrom, CommonLine;
    var e := i + |p.lines|;
    forall k | i <= k < e ensures CommonLine(lines[k]) {
      assert lines[k] == lines[i..e][k - i] == p.lines[k - i];
    }
    TextIsGathered(lines, i, e, common);
    assert common + lines[i..e] == p.lines;
  }

  lemma ConflictIsParsed(lines: seq<string>, i: nat, p: Piece, common: seq<string>)
    requires p.Conflict? && GoodPiece(p)
    requires i + |Print(p)| <= |lines| && lines[i..i + |Print(p)|] == Print(p)
    ensures ParseFrom(lines, i, common) == Prepend(Flush(common) + [SegmentOf(p)], ParseFrom(lines, i + |Print(p)|, []))
  {
    HunkIsParsed(lines, i, p);
    PrintedParts(p);
    assert lines[i] == lines[i..i + |Print(p)|][0] == p.open;
    ParseOpening(lines, i, common, SegmentOf(p), i + |Print(p)|);
  }

  lemma PrependAll(front: seq<Segment>, s: Segment, rest: seq<Segment>)
    ensures Prepend(front + [s], Success([] + rest)) == Success(front + ([s] + rest))
  {
    assert front + [s] + ([] + rest) == front + ([s] + rest);
  }

  lemma RestIsGood(ps: seq<Piece>)
    requires ps != [] && Grammar(ps)
    ensures GoodPiece(ps[0]) && Grammar(ps[1..])
    ensures |ps| > 1 && ps[0].Plain? ==> ps[1..][0].Conflict?
  {
    forall k | 0 <= k < |ps[1..]| - 1 && ps[1..][k].Plain? ensures !ps[1..][k + 1].Plain? {
      assert ps[k + 1].Plain?;
    }
  }

  // Main result, completeness: every file of the grammar is accepted, and parsed to its segments.
  lemma {:induction false} GrammarIsAccepted(ps: seq<Piece>)
    requires Grammar(ps)
    ensures Parse(PrintAll(ps)) == Success(Segments(ps))
  {
    PiecesAreParsed(PrintAll(ps), 0, ps, []);
    assert [] + Segments(ps) == Segments(ps);
  }

  // ----- The printer covers the parser -----

  // The pieces the parser read, from line i on.
  lemma {:induction false} ParseIsPrinted(lines: seq<string>, i: nat, common: seq<string>) returns (ps: seq<Piece>)
    requires i <= |lines| && ParseFrom(lines, i, common).Success? && All(common, CommonLine)
    ensures Grammar(ps) && PrintAll(ps) == common + lines[i..] && Segments(ps) == ParseFrom(lines, i, common).value
    ensures common != [] ==> ps != [] && ps[0].Plain?
    ensures common == [] && i < |lines| && IsMarker(lines[i], OPEN) ==> ps != [] && ps[0].Conflict?
    decreases |lines| - i
  {
    hide IsMarker, ParseHunk, Grammar, PrintAll, Segments, CommonLine, All, GoodPiece, Print, Flush;
    if i == |lines| {
      ps := FlushedText(common);
      assert lines[i..] == [] && common + [] == common;
    } else if IsMarker(lines[i], OPEN) {
      var p := HunkIsPrinted(lines, i);
      var (h, next) := ParseHunk(lines, i + 1).value;
      ParseOpening(lines, i, common, h, next);
      var rest := ParseIsPrinted(lines, next, []) by { NothingIsCommon(); }
      var front := FlushedText(common);
      ps := front + ([p] + rest);
      PiecesAppend(front, p, rest);
      LinesSplit(lines, i, next, common);
      PrependAll(Flush(common), h, Segments(rest));
    } else {
      ps := ParseIsPrinted(lines, i + 1, common + [lines[i]]) by { OneMoreIsCommon(common, lines[i]); }
      assert common + [lines[i]] + lines[i + 1..] == common + lines[i..];
    }
  }

  lemma NothingIsCommon()
    ensures All([], CommonLine)
  {
  }

  lemma OneMoreIsCommon(common: seq<string>, line: string)
    requires All(common, CommonLine)
    requires !IsMarker(line, OPEN) && !IsMarker(line, SEP) && !IsMarker(line, CLOSE)
    ensures All(common + [line], CommonLine)
  {
  }

  lemma LinesSplit(lines: seq<string>, i: nat, next: nat, common: seq<string>)
    requires i <= next <= |lines|
    ensures common + lines[i..] == common + (lines[i..next] + ([] + lines[next..]))
  {
    assert lines[i..] == lines[i..next] + lines[next..];
  }

  lemma FlushedText(common: seq<string>) returns (ps: seq<Piece>)
    requires All(common, CommonLine)
    ensures Grammar(ps) && PrintAll(ps) == common && Segments(ps) == Flush(common)
    ensures ps == if common == [] then [] else [Plain(common)]
  {
    ps := if common == [] then [] else [Plain(common)];
    if common != [] {
      assert ps[1..] == [];
      assert PrintAll(ps) == common + [] == common;
      assert Segments(ps) == [Common(common)] + [] == [Common(common)];
    }
  }

  lemma PiecesAppend(front: seq<Piece>, p: Piece, rest: seq<Piece>)
    requires |front| <= 1 && Grammar(front) && Grammar(rest) && GoodPiece(p) && p.Conflict?
    ensures Grammar(front + ([p] + rest))
    ensures PrintAll(front + ([p] + rest)) == PrintAll(front) + (Print(p) + PrintAll(rest))
    ensures Segments(front + ([p] + rest)) == Segments(front) + ([SegmentOf(p)] + Segments(rest))
  {
    hide Grammar, Segments, PrintAll, Print, GoodPiece, SegmentOf;
    var tail := [p] + rest;
    SegmentsCons(p, rest);
    if front == [] {
      assert front + tail == tail;
      NoPieces();
      assert [] + (Print(p) + PrintAll(rest)) == Print(p) + PrintAll(rest);
      assert [] + ([SegmentOf(p)] + Segments(rest)) == [SegmentOf(p)] + Segments(rest);
    } else {
      assert front == [front[0]] + [];
      NoPieces();
      SegmentsCons(front[0], []);
      SegmentsCons(front[0], tail);
      assert Print(front[0]) + [] == Print(front[0]) && [SegmentOf(front[0])] + [] == [SegmentOf(front[0])];
      assert front + tail == [front[0]] + tail;
    }
    AppendIsGood(front, p, rest);
  }

  lemma NoPieces()
    ensures Segments([]) == [] && PrintAll([]) == []
  {
  }

  lemma AppendIsGood(front: seq<Piece>, p: Piece, rest: seq<Piece>)
    requires |front| <= 1 && Grammar(front) && Grammar(rest) && GoodPiece(p) && p.Conflict?
    ensures Grammar(front + ([p] + rest))
  {
    hide GoodPiece;
    var ps := front + ([p] + rest);
    var n := |front|;
    assert ps[n] == p && forall k :: 0 <= k < |rest| ==> ps[n + 1 + k] == rest[k];
    forall k | 0 <= k < |ps| ensures GoodPiece(ps[k]) {
      if k > n { assert ps[k] == rest[k - n - 1]; }
    }
    forall k | 0 <= k < |ps| - 1 && ps[k].Plain? ensures !ps[k + 1].Plain? {
      if k > n { assert ps[k] == rest[k - n - 1] && ps[k + 1] == rest[k - n]; }
    }
  }

  // A parsed hunk was printed as a conflict.
  lemma HunkIsPrinted(lines: seq<string>, i: nat) returns (p: Piece)
    requires i < |lines| && IsMarker(lines[i], OPEN) && ParseHunk(lines, i + 1).Success?
    ensures p.Conflict? && GoodPiece(p)
    ensures var (s, next) := ParseHunk(lines, i + 1).value;
      i + 1 < next <= |lines| && s == Hunk(p.ours, p.theirs) && lines[i..next] == Print(p)
  {
    hide ParseHunk, IsMarker, OursLine, BaseLine, TheirsLine, StopFrom;
    var bar, sep, close := ParsedIsLaid(lines, i + 1);
    var base := if bar < sep then Some((lines[bar], lines[bar + 1..sep])) else None;
    p := Conflict(lines[i], lines[i + 1..bar], base, lines[sep], lines[sep + 1..close], lines[close]);
    SixParts(lines, i, bar, sep, close);
    assert p.base.Some? ==> [lines[bar]] + lines[bar + 1..sep] == lines[bar..sep];
  }

  lemma SixParts(lines: seq<string>, i: nat, bar: nat, sep: nat, close: nat)
    requires i < bar <= sep < close < |lines|
    ensures [lines[i]] + lines[i + 1..bar] + lines[bar..sep] + [lines[sep]] + lines[sep + 1..close] + [lines[close]]
         == lines[i..close + 1]
  {
    assert [lines[i]] + lines[i + 1..bar] == lines[i..bar];
    assert lines[i..bar] + lines[bar..sep] == lines[i..sep];
    assert lines[i..sep] + [lines[sep]] == lines[i..sep + 1];
    assert lines[i..sep + 1] + lines[sep + 1..close] == lines[i..close];
  }

  // Main result, soundness: an accepted file is a file of the grammar, with every line in exactly
  // one role and in order, and the parse is its segments.
  lemma AcceptedIsGrammar(lines: seq<string>) returns (ps: seq<Piece>)
    requires Parse(lines).Success?
    ensures Grammar(ps) && PrintAll(ps) == lines && Segments(ps) == Parse(lines).value
  {
    ps := ParseIsPrinted(lines, 0, []);
    assert [] + lines[0..] == lines;
  }

  // The language of the parser is the grammar.
  lemma ParserAcceptsExactly(lines: seq<string>)
    ensures Parse(lines).Success? <==> exists ps :: Grammar(ps) && PrintAll(ps) == lines
  {
    hide Grammar, PrintAll, Parse;
    if Parse(lines).Success? {
      var ps := AcceptedIsGrammar(lines);
    }
    forall ps | Grammar(ps) && PrintAll(ps) == lines ensures Parse(lines).Success? {
      GrammarIsAccepted(ps);
    }
  }

  // A conflict as git writes it, with any labels, is one hunk with its two sides.
  lemma LabelledConflictIsParsed(here: string, there: string, ours: seq<string>, theirs: seq<string>)
    requires forall k :: 0 <= k < |ours| ==>
      !LooksLike(ours[k], "<<<<<<<") && !LooksLike(ours[k], "|||||||") && !LooksLike(ours[k], "=======")
    requires forall k :: 0 <= k < |theirs| ==> !LooksLike(theirs[k], "<<<<<<<") && !LooksLike(theirs[k], ">>>>>>>")
    ensures Parse(["<<<<<<< " + here + "\n"] + ours + ["=======\n"] + theirs + [">>>>>>> " + there + "\n"])
         == Success([Hunk(ours, theirs)])
  {
    hide IsMarker, LooksLike, Parse;
    var p := Conflict("<<<<<<< " + here + "\n", ours, None, "=======\n", theirs, ">>>>>>> " + there + "\n");
    LabelledMarkers(here, there);
    forall k | 0 <= k < |ours| ensures OursLine(ours[k]) {
      MarkersLook(ours[k]);
    }
    forall k | 0 <= k < |theirs| ensures TheirsLine(theirs[k]) {
      MarkersLook(theirs[k]);
    }
    assert GoodPiece(p);
    GrammarIsAccepted([p]);
    SegmentsCons(p, []);
    NoPieces();
    assert [p] + [] == [p] && PrintAll([p]) == Print(p) && Segments([p]) == [Hunk(ours, theirs)];
    assert Print(p) == ["<<<<<<< " + here + "\n"] + ours + ["=======\n"] + theirs + [">>>>>>> " + there + "\n"];
  }

  lemma LabelledMarkers(here: string, there: string)
    ensures IsMarker("<<<<<<< " + here + "\n", OPEN) && IsMarker("=======\n", SEP) && IsMarker(">>>>>>> " + there + "\n", CLOSE)
  {
    hide IsMarker;
    MarkersLook("<<<<<<< " + here + "\n");
    MarkersLook("=======\n");
    MarkersLook(">>>>>>> " + there + "\n");
    assert Composes("<<<<<<< " + here + "\n", "<<<<<<<", " " + here, "\n");
    assert Composes("=======\n", "=======", "", "\n");
    assert Composes(">>>>>>> " + there + "\n", ">>>>>>>", " " + there, "\n");
  }

  // ----- Printing the parse -----

  // The same file with bare markers and without base sections.
  function Bare(p: Piece): Piece {
    if p.Plain? then p else Conflict(OPEN + "\n", p.ours, None, SEP + "\n", p.theirs, CLOSE + "\n")
  }

  function BareAll(ps: seq<Piece>): seq<Piece> {
    if ps == [] then [] else [Bare(ps[0])] + BareAll(ps[1..])
  }

  function PieceOf(s: Segment): Piece {
    if s.Common? then Plain(s.lines) else Conflict(OPEN + "\n", s.ours, None, SEP + "\n", s.theirs, CLOSE + "\n")
  }

  function PiecesOf(segments: seq<Segment>): seq<Piece> {
    if segments == [] then [] else [PieceOf(segments[0])] + PiecesOf(segments[1..])
  }

  lemma BareMarkers()
    ensures IsMarker(OPEN + "\n", OPEN) && IsMarker(SEP + "\n", SEP) && IsMarker(CLOSE + "\n", CLOSE)
  {
    BareMarker(OPEN, '<');
    BareMarker(SEP, '=');
    BareMarker(CLOSE, '>');
  }

  lemma BareMarker(marker: string, c: char)
    requires marker != "" && marker[|marker| - 1] == c && c != '\r' && c != '\n'
    ensures IsMarker(marker + "\n", marker)
  {
    var line := marker + "\n";
    assert line[..|line| - 1] == marker;
    assert StripEnd(line) == StripEnd(marker) == marker;
  }

  lemma {:induction false} BareIsGrammar(ps: seq<Piece>)
    requires Grammar(ps)
    ensures Grammar(BareAll(ps)) && PiecesOf(Segments(ps)) == BareAll(ps) && Segments(BareAll(ps)) == Segments(ps)
    ensures |BareAll(ps)| == |ps| && forall k :: 0 <= k < |ps| ==> BareAll(ps)[k].Plain? == ps[k].Plain?
  {
    if ps != [] {
      RestIsGood(ps);
      BareIsGrammar(ps[1..]);
      BareMarkers();
      hide IsMarker;
      var tail := BareAll(ps[1..]);
      var all := [Bare(ps[0])] + tail;
      assert all[1..] == tail;
      assert GoodPiece(Bare(ps[0]));
      forall k | 0 <= k < |all| ensures GoodPiece(all[k]) {
        if k > 0 { assert all[k] == tail[k - 1]; }
      }
      forall k | 0 <= k < |all| - 1 && all[k].Plain? ensures !all[k + 1].Plain? {
        assert ps[k].Plain?;
        assert all[k + 1] == tail[k] && tail[k].Plain? == ps[1..][k].Plain?;
      }
      assert Segments(ps)[1..] == Segments(ps[1..]);
      assert [if all[0].Plain? then Common(all[0].lines) else Hunk(all[0].ours, all[0].theirs)] + Segments(tail)
          == [if ps[0].Plain? then Common(ps[0].lines) else Hunk(ps[0].ours, ps[0].theirs)] + Segments(ps[1..]);
    }
  }

  // Printing the parse of an accepted file gives that file with the labels and base sections
  // gone, and parsing that gives the same segments.
  lemma {:induction false} ParsePrintParse(lines: seq<string>) returns (ps: seq<Piece>)
    requires Parse(lines).Success?
    ensures Grammar(ps) && PrintAll(ps) == lines
    ensures PrintAll(PiecesOf(Parse(lines).value)) == PrintAll(BareAll(ps))
    ensures Parse(PrintAll(PiecesOf(Parse(lines).value))) == Parse(lines)
  {
    ps := AcceptedIsGrammar(lines);
    hide Grammar, PrintAll, Parse, BareAll, PiecesOf, Segments;
    BareIsGrammar(ps);
    GrammarIsAccepted(BareAll(ps));
  }

  // ----- Composing -----

  function HunksOf(segments: seq<Segment>): seq<Segment> {
    if segments == [] then []
    else (if segments[0].Hunk? then [segments[0]] else []) + HunksOf(segments[1..])
  }

  predicate IsChoice(c: string) { c == CHOICE_OURS || c == CHOICE_THEIRS || c == CHOICE_BOTH }

  function Taken(h: Segment, choice: string): seq<string>
    requires h.Hunk?
  {
    (if choice == CHOICE_OURS || choice == CHOICE_BOTH then h.ours else [])
    + (if choice == CHOICE_THEIRS || choice == CHOICE_BOTH then h.theirs else [])
  }

  // Common text as it is, each hunk by the next choice.
  function Assemble(segments: seq<Segment>, choices: seq<string>): seq<string>
    requires |choices| == |HunksOf(segments)|
  {
    if segments == [] then []
    else if segments[0].Common? then segments[0].lines + Assemble(segments[1..], choices)
    else Taken(segments[0], choices[0]) + Assemble(segments[1..], choices[1..])
  }

  function Compose(segments: seq<Segment>, choices: seq<string>): Result<seq<string>, ComposeError> {
    if |choices| != |HunksOf(segments)| then Failure(WrongCount)
    else if exists k :: 0 <= k < |choices| && !IsChoice(choices[k]) then Failure(UnknownChoice)
    else Success(Assemble(segments, choices))
  }

  // The text of the composition.
  method ComposeText(segments: seq<Segment>, choices: seq<string>) returns (r: Result<string, ComposeError>)
    ensures r.Success? <==> Compose(segments, choices).Success?
    ensures r.Success? ==> r.value == Concat(Compose(segments, choices).value)
    ensures r.Failure? ==> r.error == Compose(segments, choices).error
  {
    if |choices| != |HunksOf(segments)| {
      return Failure(WrongCount);
    }
    if exists k :: 0 <= k < |choices| && !IsChoice(choices[k]) {
      return Failure(UnknownChoice);
    }
    var out := AssembleText(segments, choices);
    var text := Join(out);
    return Success(text);
  }

  method TakeChoice(h: Segment, choice: string) returns (lines: seq<string>)
    requires h.Hunk?
    ensures lines == Taken(h, choice)
  {
    lines := [];
    if choice == CHOICE_OURS || choice == CHOICE_BOTH {
      lines := lines + h.ours;
    }
    if choice == CHOICE_THEIRS || choice == CHOICE_BOTH {
      lines := lines + h.theirs;
    }
  }

  method AssembleText(segments: seq<Segment>, choices: seq<string>) returns (out: seq<string>)
    requires |choices| == |HunksOf(segments)|
    ensures out == Assemble(segments, choices)
  {
    hide Taken, Assemble, HunksOf;
    out := [];
    var remaining := choices;
    AssembleEnd(segments);
    assert segments[0..] == segments;
    for k := 0 to |segments|
      invariant |remaining| == |HunksOf(segments[k..])|
      invariant out + Assemble(segments[k..], remaining) == Assemble(segments, choices)
    {
      assert segments[k..] == [segments[k]] + segments[k + 1..];
      AssembleCons(segments[k], segments[k + 1..], remaining);
      if segments[k].Common? {
        out := out + segments[k].lines;
      } else {
        var taken := TakeChoice(segments[k], remaining[0]);
        remaining := remaining[1..];
        out := out + taken;
      }
    }
    assert remaining == [];
  }

  lemma AssembleEnd(segments: seq<Segment>)
    ensures segments[|segments|..] == [] && HunksOf([]) == [] && Assemble([], []) == []
  {
  }

  lemma AssembleCons(s: Segment, rest: seq<Segment>, choices: seq<string>)
    requires |choices| == |HunksOf([s] + rest)|
    ensures s.Common? ==> |choices| == |HunksOf(rest)| && Assemble([s] + rest, choices) == s.lines + Assemble(rest, choices)
    ensures s.Hunk? ==> |choices| == 1 + |HunksOf(rest)|
    ensures s.Hunk? ==> Assemble([s] + rest, choices) == Taken(s, choices[0]) + Assemble(rest, choices[1..])
  {
    assert ([s] + rest)[0] == s && ([s] + rest)[1..] == rest;
  }

  lemma {:induction false} HunksSplit(a: seq<Segment>, b: seq<Segment>)
    ensures HunksOf(a + b) == HunksOf(a) + HunksOf(b)
  {
    if a == [] {
      assert a + b == b;
    } else {
      assert (a + b)[0] == a[0] && (a + b)[1..] == a[1..] + b;
      HunksSplit(a[1..], b);
    }
  }

  // Composing is a homomorphism: the parts of a file are composed on their own, each with its
  // own choices.
  lemma {:induction false} AssembleSplits(a: seq<Segment>, b: seq<Segment>, ca: seq<string>, cb: seq<string>)
    requires |ca| == |HunksOf(a)| && |cb| == |HunksOf(b)|
    ensures |ca + cb| == |HunksOf(a + b)| && Assemble(a + b, ca + cb) == Assemble(a, ca) + Assemble(b, cb)
  {
    hide Assemble, HunksOf, Taken;
    HunksSplit(a, b);
    if a == [] {
      AssembleEnd([]);
      assert a + b == b && ca + cb == cb;
    } else {
      var rest := a[1..];
      assert a == [a[0]] + rest && a + b == [a[0]] + (rest + b);
      HunksSplit(rest, b);
      AssembleCons(a[0], rest, ca);
      AssembleCons(a[0], rest + b, ca + cb);
      if a[0].Common? {
        AssembleSplits(rest, b, ca, cb);
      } else {
        assert (ca + cb)[0] == ca[0] && (ca + cb)[1..] == ca[1..] + cb;
        AssembleSplits(rest, b, ca[1..], cb);
      }
    }
  }

  function Repeat(choice: string, n: nat): (cs: seq<string>)
    ensures |cs| == n && forall k :: 0 <= k < n ==> cs[k] == choice
  {
    if n == 0 then [] else [choice] + Repeat(choice, n - 1)
  }

  function CommonLines(segments: seq<Segment>): seq<string> {
    if segments == [] then []
    else (if segments[0].Common? then segments[0].lines else []) + CommonLines(segments[1..])
  }

  // Composing is refused for a wrong number of choices first, then for a choice that is none of
  // the three.
  lemma ComposeRefuses(segments: seq<Segment>, choices: seq<string>)
    ensures var n, r := |HunksOf(segments)|, Compose(segments, choices);
      && (r == Failure(WrongCount) <==> |choices| != n)
      && (r == Failure(UnknownChoice)
          <==> |choices| == n
               && exists k :: 0 <= k < n && choices[k] != "ours" && choices[k] != "theirs" && choices[k] != "both")
  {
  }

  // One hunk: our side, their side, or ours in front of theirs. With AssembleSplits and common text
  // that stays, this is the whole order of a composition.
  lemma OneHunkComposes(ours: seq<string>, theirs: seq<string>)
    ensures Compose([Hunk(ours, theirs)], ["ours"]) == Success(ours)
    ensures Compose([Hunk(ours, theirs)], ["theirs"]) == Success(theirs)
    ensures Compose([Hunk(ours, theirs)], ["both"]) == Success(ours + theirs)
  {
    var h := Hunk(ours, theirs);
    hide Taken;
    TakenSides(h);
    AssembleEnd([]);
    assert HunksOf([h]) == [h] + HunksOf([]) by { assert [h][1..] == []; }
    OneHunkAssembles(h, CHOICE_OURS);
    OneHunkAssembles(h, CHOICE_THEIRS);
    OneHunkAssembles(h, CHOICE_BOTH);
  }

  lemma OneHunkAssembles(h: Segment, choice: string)
    requires h.Hunk? && IsChoice(choice)
    ensures |HunksOf([h])| == 1 && Compose([h], [choice]) == Success(Taken(h, choice))
  {
    hide Taken, IsChoice;
    assert [h][1..] == [] && HunksOf([]) == [];
    assert [choice][1..] == [];
    assert Assemble([h], [choice]) == Taken(h, choice) + Assemble([], []) == Taken(h, choice);
    assert Compose([h], [choice]) == Success(Assemble([h], [choice]));
  }

  lemma TakenSides(h: Segment)
    requires h.Hunk?
    ensures Taken(h, CHOICE_BOTH) == h.ours + h.theirs
    ensures Taken(h, CHOICE_OURS) == h.ours && Taken(h, CHOICE_THEIRS) == h.theirs
  {
    assert CHOICE_OURS[0] == 'o' && CHOICE_THEIRS[0] == 't' && CHOICE_BOTH[0] == 'b';
  }

  lemma CommonComposes(lines: seq<string>)
    ensures Compose([Common(lines)], []) == Success(lines)
  {
    assert [Common(lines)][1..] == [] && HunksOf([]) == [];
    assert Assemble([Common(lines)], []) == lines + Assemble([], []) == lines;
  }

  // Hunk by hunk, our lines unless theirs were chosen, and their lines unless ours were.
  function OursTaken(hunks: seq<Segment>, choices: seq<string>): seq<string>
    requires |choices| == |hunks| && forall k :: 0 <= k < |hunks| ==> hunks[k].Hunk?
  {
    if hunks == [] then []
    else (if choices[0] == CHOICE_THEIRS then [] else hunks[0].ours) + OursTaken(hunks[1..], choices[1..])
  }

  function TheirsTaken(hunks: seq<Segment>, choices: seq<string>): seq<string>
    requires |choices| == |hunks| && forall k :: 0 <= k < |hunks| ==> hunks[k].Hunk?
  {
    if hunks == [] then []
    else (if choices[0] == CHOICE_OURS then [] else hunks[0].theirs) + TheirsTaken(hunks[1..], choices[1..])
  }

  lemma {:induction false} HunksAreHunks(segments: seq<Segment>)
    ensures forall k :: 0 <= k < |HunksOf(segments)| ==> HunksOf(segments)[k].Hunk?
  {
    if segments != [] {
      HunksAreHunks(segments[1..]);
    }
  }

  // The lines a composition has to hold.
  ghost function LinesChosen(segments: seq<Segment>, choices: seq<string>): multiset<string>
    requires |choices| == |HunksOf(segments)|
  {
    HunksAreHunks(segments);
    multiset(CommonLines(segments)) + multiset(OursTaken(HunksOf(segments), choices))
    + multiset(TheirsTaken(HunksOf(segments), choices))
  }

  predicate AllChoices(choices: seq<string>) { forall k :: 0 <= k < |choices| ==> IsChoice(choices[k]) }

  // Main result on composing, for every list of choices: no line is lost or made up. The result
  // holds the common lines and, hunk by hunk, the lines of the chosen side or sides.
  lemma {:induction false} LinesAreConserved(segments: seq<Segment>, choices: seq<string>)
    requires |choices| == |HunksOf(segments)| && AllChoices(choices)
    ensures multiset(Assemble(segments, choices)) == LinesChosen(segments, choices)
  {
    hide Assemble, LinesChosen, Taken, HunksOf, IsChoice;
    if segments == [] {
      NothingChosen(choices);
    } else {
      var s, rest := segments[0], segments[1..];
      assert segments == [s] + rest;
      AssembleCons(s, rest, choices);
      if s.Common? {
        LinesAreConserved(rest, choices);
        CommonIsChosen(s, rest, choices);
      } else {
        LinesAreConserved(rest, choices[1..]);
        HunkIsChosen(s, rest, choices);
      }
    }
  }

  lemma NothingChosen(choices: seq<string>)
    requires |choices| == |HunksOf([])|
    ensures multiset(Assemble([], choices)) == LinesChosen([], choices)
  {
  }

  lemma CommonIsChosen(s: Segment, rest: seq<Segment>, choices: seq<string>)
    requires s.Common? && |choices| == |HunksOf(rest)| == |HunksOf([s] + rest)|
    ensures LinesChosen([s] + rest, choices) == multiset(s.lines) + LinesChosen(rest, choices)
  {
    assert ([s] + rest)[1..] == rest && [] + HunksOf(rest) == HunksOf(rest);
  }

  lemma HunkIsChosen(s: Segment, rest: seq<Segment>, choices: seq<string>)
    requires s.Hunk? && |choices| == 1 + |HunksOf(rest)| == |HunksOf([s] + rest)| && IsChoice(choices[0])
    ensures LinesChosen([s] + rest, choices) == multiset(Taken(s, choices[0])) + LinesChosen(rest, choices[1..])
  {
    assert ([s] + rest)[1..] == rest && HunksOf([s] + rest) == [s] + HunksOf(rest);
    assert ([s] + HunksOf(rest))[1..] == HunksOf(rest);
    assert CHOICE_OURS[0] == 'o' && CHOICE_THEIRS[0] == 't' && CHOICE_BOTH[0] == 'b';
    HunksAreHunks(rest);
  }

  // So taking both sides everywhere gives, with the common text counted once more, exactly the
  // lines of taking ours everywhere and theirs everywhere.
  lemma BothIsOursAndTheirs(segments: seq<Segment>)
    ensures var n := |HunksOf(segments)|;
      multiset(Assemble(segments, Repeat(CHOICE_BOTH, n))) + multiset(CommonLines(segments))
      == multiset(Assemble(segments, Repeat(CHOICE_OURS, n))) + multiset(Assemble(segments, Repeat(CHOICE_THEIRS, n)))
  {
    hide Assemble, HunksOf, CommonLines;
    var hunks, n := HunksOf(segments), |HunksOf(segments)|;
    HunksAreHunks(segments);
    LinesAreConserved(segments, Repeat(CHOICE_BOTH, n));
    LinesAreConserved(segments, Repeat(CHOICE_OURS, n));
    LinesAreConserved(segments, Repeat(CHOICE_THEIRS, n));
    SameSides(hunks);
  }

  lemma {:induction false} SameSides(hunks: seq<Segment>)
    requires forall k :: 0 <= k < |hunks| ==> hunks[k].Hunk?
    ensures OursTaken(hunks, Repeat(CHOICE_BOTH, |hunks|)) == OursTaken(hunks, Repeat(CHOICE_OURS, |hunks|))
    ensures TheirsTaken(hunks, Repeat(CHOICE_BOTH, |hunks|)) == TheirsTaken(hunks, Repeat(CHOICE_THEIRS, |hunks|))
    ensures OursTaken(hunks, Repeat(CHOICE_THEIRS, |hunks|)) == [] == TheirsTaken(hunks, Repeat(CHOICE_OURS, |hunks|))
  {
    if hunks != [] {
      assert CHOICE_OURS[0] == 'o' && CHOICE_THEIRS[0] == 't' && CHOICE_BOTH[0] == 'b';
      RepeatTail(CHOICE_BOTH, |hunks|);
      RepeatTail(CHOICE_OURS, |hunks|);
      RepeatTail(CHOICE_THEIRS, |hunks|);
      SameSides(hunks[1..]);
    }
  }

  lemma RepeatTail(choice: string, n: nat)
    requires n > 0
    ensures Repeat(choice, n)[1..] == Repeat(choice, n - 1) && Repeat(choice, n)[0] == choice
  {
  }

  // ----- Composing a parsed file -----

  ghost predicate NoOpening(lines: seq<string>) {
    forall k :: 0 <= k < |lines| ==> !IsMarker(lines[k], OPEN)
  }

  ghost predicate NoOpeningIn(s: Segment) {
    match s
    case Common(lines) => NoOpening(lines)
    case Hunk(ours, theirs) => NoOpening(ours) && NoOpening(theirs)
  }

  lemma {:induction false} PiecesHaveNoOpening(ps: seq<Piece>)
    requires Grammar(ps)
    ensures forall k :: 0 <= k < |Segments(ps)| ==> NoOpeningIn(Segments(ps)[k])
  {
    hide IsMarker;
    if ps != [] {
      RestIsGood(ps);
      PiecesHaveNoOpening(ps[1..]);
      assert NoOpeningIn(Segments(ps)[0]);
    }
  }

  lemma {:induction false} AssembledHasNoOpening(segments: seq<Segment>, choices: seq<string>)
    requires |choices| == |HunksOf(segments)|
    requires forall k :: 0 <= k < |segments| ==> NoOpeningIn(segments[k])
    ensures NoOpening(Assemble(segments, choices))
  {
    hide IsMarker;
    if segments != [] {
      assert NoOpeningIn(segments[0]);
      if segments[0].Common? {
        AssembledHasNoOpening(segments[1..], choices);
      } else {
        AssembledHasNoOpening(segments[1..], choices[1..]);
      }
    }
  }

  lemma {:induction false} WithoutOpening(lines: seq<string>, i: nat, common: seq<string>)
    requires i <= |lines| && NoOpening(lines)
    ensures ParseFrom(lines, i, common).Success? <==> forall k :: i <= k < |lines| ==> CommonLine(lines[k])
    ensures ParseFrom(lines, i, common).Success? ==> ParseFrom(lines, i, common).value == Flush(common + lines[i..])
    decreases |lines| - i
  {
    hide IsMarker, ParseHunk;
    if i == |lines| {
      assert common + lines[i..] == common;
    } else {
      WithoutOpening(lines, i + 1, common + [lines[i]]);
      assert common + [lines[i]] + lines[i + 1..] == common + lines[i..];
    }
  }

  // A composed file has no opening marker. Parsing it again never yields a hunk, and it is
  // accepted exactly when no separator or closing marker was among the chosen lines.
  lemma ComposedHasNoHunk(lines: seq<string>, choices: seq<string>)
    requires Parse(lines).Success? && Compose(Parse(lines).value, choices).Success?
    ensures var out := Compose(Parse(lines).value, choices).value;
      && NoOpening(out)
      && (Parse(out).Success? ==> HunksOf(Parse(out).value) == [])
      && (Parse(out).Success? <==> All(out, CommonLine))
  {
    var ps := AcceptedIsGrammar(lines);
    PiecesHaveNoOpening(ps);
    hide Grammar, ParseFrom, Segments, NoOpening, NoOpeningIn, CommonLine;
    AssembledHasNoOpening(Parse(lines).value, choices);
    var out := Compose(Parse(lines).value, choices).value;
    WithoutOpening(out, 0, []);
    assert [] + out[0..] == out;
    assert HunksOf(Flush(out)) == [];
  }

  // A file without opening markers that parses is its own composition.
  lemma MarkerFreeIsUnchanged(lines: seq<string>)
    requires Parse(lines).Success? && HunksOf(Parse(lines).value) == []
    ensures Compose(Parse(lines).value, []) == Success(lines)
  {
    var ps := AcceptedIsGrammar(lines);
    hide Grammar, ParseFrom;
    TextOnly(ps);
  }

  lemma {:induction false} TextOnly(ps: seq<Piece>)
    requires HunksOf(Segments(ps)) == []
    ensures Assemble(Segments(ps), []) == PrintAll(ps)
  {
    if ps != [] {
      assert Segments(ps)[1..] == Segments(ps[1..]);
      TextOnly(ps[1..]);
    }
  }

  // ----- The text of a composed file -----

  ghost predicate AllEnd(lines: seq<string>) { forall k :: 0 <= k < |lines| ==> IsLine(lines[k]) && Ends(lines[k]) }

  lemma ThenFile(a: seq<string>, b: seq<string>)
    requires AllEnd(a) && IsFile(b)
    ensures IsFile(a + b)
  {
    hide IsLine, Ends;
  }

  lemma FileSplits(a: seq<string>, b: seq<string>)
    requires IsFile(a + b)
    ensures IsFile(b) && (b != [] ==> AllEnd(a))
  {
    hide IsLine, Ends;
    assert forall k :: 0 <= k < |a| ==> (a + b)[k] == a[k];
    assert forall k :: 0 <= k < |b| ==> (a + b)[|a| + k] == b[k];
  }

  // The lines of a hunk stand before its closing marker.
  lemma HunkLinesEnd(p: Piece)
    requires p.Conflict? && IsFile(Print(p))
    ensures AllEnd(p.ours) && AllEnd(p.theirs)
  {
    hide IsLine, Ends;
    var base := if p.base.Some? then [p.base.value.0] + p.base.value.1 else [];
    var q := Print(p);
    assert q == ([p.open] + p.ours) + (base + [p.sep] + p.theirs + [p.close]);
    FileSplits([p.open] + p.ours, base + [p.sep] + p.theirs + [p.close]);
    assert AllEnd([p.open] + p.ours) && p.ours == ([p.open] + p.ours)[1..];
    assert q == ([p.open] + p.ours + base + [p.sep] + p.theirs) + [p.close];
    FileSplits([p.open] + p.ours + base + [p.sep] + p.theirs, [p.close]);
    var n := |[p.open] + p.ours + base + [p.sep]|;
    assert p.theirs == ([p.open] + p.ours + base + [p.sep] + p.theirs)[n..];
  }

  lemma TakenEnd(h: Segment, choice: string)
    requires h.Hunk? && AllEnd(h.ours) && AllEnd(h.theirs)
    ensures AllEnd(Taken(h, choice))
  {
    hide IsLine, Ends;
  }

  lemma PrintIsFile(p: Piece, rest: seq<Piece>)
    requires IsFile(Print(p) + PrintAll(rest))
    ensures IsFile(PrintAll(rest)) && IsFile(Print(p)) && (PrintAll(rest) != [] ==> AllEnd(Print(p)))
  {
    hide IsLine, Ends, Print, PrintAll;
    FileSplits(Print(p), PrintAll(rest));
    assert forall k :: 0 <= k < |Print(p)| ==> (Print(p) + PrintAll(rest))[k] == Print(p)[k];
  }

  lemma GoodPiecePrints(p: Piece)
    requires GoodPiece(p)
    ensures Print(p) != []
  {
  }

  // Whatever is chosen, the lines of the result are the lines of its text.
  lemma {:induction false} AssembledIsFile(ps: seq<Piece>, choices: seq<string>)
    requires Grammar(ps) && IsFile(PrintAll(ps)) && |choices| == |HunksOf(Segments(ps))|
    ensures IsFile(Assemble(Segments(ps), choices))
    decreases |ps|
  {
    hide IsMarker, Taken, Print, IsFile, AllEnd, Assemble, HunksOf;
    if ps == [] {
      NothingIsFile();
    } else {
      RestIsGood(ps);
      PrintIsFile(ps[0], ps[1..]);
      var rest := Segments(ps[1..]);
      assert Segments(ps) == [SegmentOf(ps[0])] + rest;
      AssembleCons(SegmentOf(ps[0]), rest, choices);
      if ps[0].Plain? {
        AssembledIsFile(ps[1..], choices);
        PlainPrints(ps[0]);
        if ps[1..] == [] {
          assert Assemble([], choices) == [] by { NothingAssembled(choices); }
          assert ps[0].lines + [] == ps[0].lines;
        } else {
          GoodPiecePrints(ps[1]);
          ThenFile(ps[0].lines, Assemble(rest, choices));
        }
      } else {
        AssembledIsFile(ps[1..], choices[1..]);
        HunkLinesEnd(ps[0]);
        TakenEnd(SegmentOf(ps[0]), choices[0]);
        ThenFile(Taken(SegmentOf(ps[0]), choices[0]), Assemble(rest, choices[1..]));
      }
    }
  }

  lemma PlainPrints(p: Piece)
    requires p.Plain?
    ensures Print(p) == p.lines
  {
  }

  lemma NothingAssembled(choices: seq<string>)
    requires |choices| == |HunksOf([])|
    ensures Assemble([], choices) == []
  {
  }

  lemma NothingIsFile()
    ensures |HunksOf(Segments([]))| == 0 && IsFile(Assemble(Segments([]), []))
  {
  }

  // Main result on composing. The text that is written is read back as the chosen lines, and
  // parsing it again never yields a hunk.
  lemma ComposedTextHasNoHunk(text: string, choices: seq<string>)
    requires Parse(SplitKeep(text)).Success? && Compose(Parse(SplitKeep(text)).value, choices).Success?
    ensures var out := Compose(Parse(SplitKeep(text)).value, choices).value;
      && SplitKeep(Concat(out)) == out
      && (Parse(SplitKeep(Concat(out))).Success? ==> HunksOf(Parse(SplitKeep(Concat(out))).value) == [])
  {
    var lines := SplitKeep(text);
    var ps := AcceptedIsGrammar(lines);
    SplitIsFile(text);
    hide Grammar, Parse, Segments, PrintAll, IsFile, SplitKeep, Concat, Assemble, HunksOf;
    AssembledIsFile(ps, choices);
    ComposedHasNoHunk(lines, choices);
    SplitBack(Compose(Parse(lines).value, choices).value);
  }
}
