// Strings as the modules share them: line ends and decimal numbers.
module Text {
  // Without the line ends at its end.
  function StripEnd(line: string): string {
    if line != "" && (line[|line| - 1] == '\r' || line[|line| - 1] == '\n') then StripEnd(line[..|line| - 1]) else line
  }

  predicate Breaks(text: string) { forall k :: 0 <= k < |text| ==> text[k] == '\r' || text[k] == '\n' }

  // What is left ends in something else, and only line ends are gone.
  lemma {:induction false} StripEndIs(line: string)
    ensures var s := StripEnd(line);
      && s <= line && Breaks(line[|s|..])
      && (s == "" || (s[|s| - 1] != '\r' && s[|s| - 1] != '\n'))
  {
    if line != "" && (line[|line| - 1] == '\r' || line[|line| - 1] == '\n') {
      var shorter := line[..|line| - 1];
      StripEndIs(shorter);
      var s := StripEnd(shorter);
      assert line[|s|..] == shorter[|s|..] + [line[|line| - 1]];
    }
  }

  // And that is all there is to it.
  lemma {:induction false} StripEndOf(stem: string, ends: string)
    requires Breaks(ends) && (stem == "" || (stem[|stem| - 1] != '\r' && stem[|stem| - 1] != '\n'))
    ensures StripEnd(stem + ends) == stem
  {
    if ends == "" {
      assert stem + ends == stem;
    } else {
      var front := ends[..|ends| - 1];
      StripEndOf(stem, front);
      assert (stem + ends)[..|stem + ends| - 1] == stem + front;
    }
  }

  // ----- Lines -----

  function Concat(parts: seq<string>): string {
    if parts == [] then "" else Concat(parts[..|parts| - 1]) + parts[|parts| - 1]
  }

  lemma {:induction false} ConcatJoin(a: seq<string>, b: seq<string>)
    ensures Concat(a + b) == Concat(a) + Concat(b)
  {
    hide Concat;
    if b == [] {
      assert a + b == a;
      ConcatNothing();
    } else {
      var front, last := b[..|b| - 1], b[|b| - 1];
      ConcatJoin(a, front);
      assert a + b == (a + front) + [last] && b == front + [last];
      ConcatSnoc(a + front, last);
      ConcatSnoc(front, last);
    }
  }

  lemma ConcatNothing()
    ensures Concat([]) == "" && IsFile([])
  {
  }

  lemma ConcatSnoc(parts: seq<string>, last: string)
    ensures Concat(parts + [last]) == Concat(parts) + last
  {
    assert (parts + [last])[..|parts|] == parts;
  }

  lemma ConcatCons(part: string, rest: seq<string>)
    ensures Concat([part] + rest) == part + Concat(rest)
  {
    ConcatJoin([part], rest);
    assert [part][..0] == [];
  }

  method Join(parts: seq<string>) returns (text: string)
    ensures text == Concat(parts)
  {
    text := "";
    for i := 0 to |parts|
      invariant text == Concat(parts[..i])
    {
      assert parts[..i + 1][..i] == parts[..i];
      text := text + parts[i];
    }
    assert parts[..|parts|] == parts;
  }

  predicate Ends(line: string) { line != "" && line[|line| - 1] == '\n' }

  predicate IsLine(line: string) { line != "" && forall k :: 0 <= k < |line| - 1 ==> line[k] != '\n' }

  // The lines of a file: only the last one may lack its newline.
  ghost predicate IsFile(lines: seq<string>) {
    && (forall k :: 0 <= k < |lines| ==> IsLine(lines[k]))
    && forall k :: 0 <= k < |lines| - 1 ==> Ends(lines[k])
  }

  function FirstLine(text: string): (n: nat)
    requires text != ""
    ensures 0 < n <= |text|
    ensures forall k :: 0 <= k < n - 1 ==> text[k] != '\n'
    ensures n < |text| ==> text[n - 1] == '\n'
  {
    if |text| == 1 || text[0] == '\n' then 1 else 1 + FirstLine(text[1..])
  }

  // The lines of a text, with their newlines.
  function SplitKeep(text: string): seq<string> {
    if text == "" then [] else [text[..FirstLine(text)]] + SplitKeep(text[FirstLine(text)..])
  }

  lemma {:induction false} SplitIsFile(text: string)
    ensures IsFile(SplitKeep(text)) && Concat(SplitKeep(text)) == text
  {
    hide Concat, IsFile;
    if text == "" {
      ConcatNothing();
    } else {
      var n := FirstLine(text);
      SplitIsFile(text[n..]);
      ConcatCons(text[..n], SplitKeep(text[n..]));
      assert text == text[..n] + text[n..];
      LineThenFile(text[..n], SplitKeep(text[n..]));
    }
  }

  lemma LineThenFile(line: string, rest: seq<string>)
    requires IsLine(line) && IsFile(rest) && (rest != [] ==> Ends(line))
    ensures IsFile([line] + rest)
  {
    hide IsLine, Ends;
  }

  lemma {:induction false} SplitBack(lines: seq<string>)
    requires IsFile(lines)
    ensures SplitKeep(Concat(lines)) == lines
  {
    if lines != [] {
      var rest := lines[1..];
      assert lines == [lines[0]] + rest;
      ConcatCons(lines[0], rest);
      SplitBack(rest);
      NothingAfterTheLast(rest);
      assert rest != [] ==> Ends(lines[0]);
      FirstLineIs(lines[0], Concat(rest));
    }
  }

  lemma NothingAfterTheLast(lines: seq<string>)
    ensures lines == [] ==> Concat(lines) == ""
  {
  }

  lemma FirstLineIs(line: string, rest: string)
    requires IsLine(line) && (Ends(line) || rest == "")
    ensures SplitKeep(line + rest) == [line] + SplitKeep(rest)
  {
    var text, n := line + rest, FirstLine(line + rest);
    assert forall k :: 0 <= k < |line| ==> text[k] == line[k];
    assert n == |line|;
    assert text[..n] == line && text[n..] == rest;
  }

  // A text that ends a line is split on its own.
  lemma SplitJoin(a: string, b: string)
    requires Ends(a)
    ensures SplitKeep(a + b) == SplitKeep(a) + SplitKeep(b)
  {
    hide Concat, SplitKeep, IsLine;
    var x, y := SplitKeep(a), SplitKeep(b);
    SplitIsFile(a);
    SplitIsFile(b);
    LastLineEnds(x);
    ConcatJoin(x, y);
    SplitBack(x + y);
  }

  lemma LastLineEnds(lines: seq<string>)
    requires IsFile(lines) && Ends(Concat(lines))
    ensures forall k :: 0 <= k < |lines| ==> Ends(lines[k])
  {
    hide Concat, IsLine;
    if lines != [] {
      var front, last := lines[..|lines| - 1], lines[|lines| - 1];
      assert lines == front + [last] && IsLine(last);
      ConcatSnoc(front, last);
      SameEnd(Concat(front), last);
    }
  }

  lemma SameEnd(text: string, last: string)
    requires IsLine(last) && Ends(text + last)
    ensures Ends(last)
  {
  }

  // A list of lines survives being written and read back exactly when it is a file.
  lemma SplitBackIff(lines: seq<string>)
    ensures SplitKeep(Concat(lines)) == lines <==> IsFile(lines)
  {
    SplitIsFile(Concat(lines));
    if IsFile(lines) {
      SplitBack(lines);
    }
  }

  // ----- Numbers -----

  function Digit(d: nat): char
    requires d < 10
  {
    ('0' as int + d) as char
  }

  predicate IsDigit(c: char) { '0' <= c <= '9' }

  function Decimal(n: nat): string {
    if n < 10 then [Digit(n)] else Decimal(n / 10) + [Digit(n % 10)]
  }

  function Number(n: int): string {
    if n < 0 then "-" + Decimal(-n) else Decimal(n)
  }

  // The number a string of digits stands for.
  function Value(digits: string): nat
    requires forall k :: 0 <= k < |digits| ==> IsDigit(digits[k])
  {
    if digits == "" then 0
    else
      assert IsDigit(digits[|digits| - 1]);
      10 * Value(digits[..|digits| - 1]) + (digits[|digits| - 1] as int - '0' as int)
  }

  lemma {:induction false} DecimalReadsBack(n: nat)
    ensures Decimal(n) != "" && (forall k :: 0 <= k < |Decimal(n)| ==> IsDigit(Decimal(n)[k]))
    ensures Value(Decimal(n)) == n
  {
    if n >= 10 {
      DecimalReadsBack(n / 10);
      assert Decimal(n)[..|Decimal(n)| - 1] == Decimal(n / 10);
    } else {
      assert Decimal(n)[..0] == "";
      assert Value("") == 0;
    }
  }

  // The digits at the front of a text.
  function DigitsFrom(text: string, i: nat): (e: nat)
    requires i <= |text|
    ensures i <= e <= |text|
    ensures forall k :: i <= k < e ==> IsDigit(text[k])
    ensures e < |text| ==> !IsDigit(text[e])
    decreases |text| - i
  {
    if i < |text| && IsDigit(text[i]) then DigitsFrom(text, i + 1) else i
  }

  // The first n characters, and no more, are digits.
  ghost predicate DigitsEndAt(text: string, n: nat) {
    n <= |text| && (forall k :: 0 <= k < n ==> IsDigit(text[k])) && (n < |text| ==> !IsDigit(text[n]))
  }

  lemma DigitsEndOnce(text: string, n: nat, m: nat)
    requires DigitsEndAt(text, n) && DigitsEndAt(text, m)
    ensures n == m
  {
  }

  // A run of digits and what follows it are told apart by the first character that is no digit.
  lemma DigitsThenRest(a: string, x: string, b: string, y: string)
    requires forall k :: 0 <= k < |a| ==> IsDigit(a[k])
    requires forall k :: 0 <= k < |b| ==> IsDigit(b[k])
    requires x == "" || !IsDigit(x[0])
    requires y == "" || !IsDigit(y[0])
    requires a + x == b + y
    ensures a == b && x == y
  {
    DigitsEndOnce(a + x, |a|, |b|);
    assert a == (a + x)[..|a|] && b == (b + y)[..|b|];
    assert x == (a + x)[|a|..] && y == (b + y)[|b|..];
  }
}
