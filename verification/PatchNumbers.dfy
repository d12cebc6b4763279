/** What a hunk header says, and the numbers of the lines behind it. */
module PatchNumbers {
  import opened Text
  import opened PatchLines
  import opened PatchRender
  import opened PatchExtract
  import opened PatchTheorem

  // ----- Headers: `@@ -a,b +c,d @@` of the POSIX.1-2017 `diff -u` format

  predicate IsNumber(s: string) {
    s != "" && AllDigits(s)
  }

  /** A comma and a number, or nothing. */
  predicate IsSize(s: string) {
    s == "" || (s[0] == ',' && IsNumber(s[1..]))
  }

  /** The texts around the two starts. */
  datatype Header = Header(oldStart: string, oldSize: string, newStart: string, newSize: string, rest: string)

  predicate Proper(h: Header) {
    IsNumber(h.oldStart) && IsSize(h.oldSize) && IsNumber(h.newStart) && IsSize(h.newSize)
  }

  function HeaderText(h: Header): string {
    "@@ -" + (h.oldStart + h.oldSize + (" +" + (h.newStart + h.newSize + (" @@" + h.rest))))
  }

  lemma TakeRangeOf(start: string, size: string, rest: string)
    requires IsNumber(start) && IsSize(size) && rest != "" && rest[0] == ' '
    ensures TakeRange(start + size + rest) == Some((ParseNat(start), rest))
  {
    var s, more := start + size + rest, size + rest;
    assert s == start + more;
    DigitAfter(size, rest);
    DigitRunOf(start, more);
    assert s[..|start|] == start && s[|start|..] == more;
    SizeTaken(size, rest);
    hide DigitRun, ParseNat;
  }

  lemma DigitAfter(size: string, rest: string)
    requires IsSize(size) && rest != "" && rest[0] == ' '
    ensures size + rest != "" && !IsDigit((size + rest)[0])
  {
  }

  lemma SizeTaken(size: string, rest: string)
    requires IsSize(size) && rest != "" && rest[0] == ' '
    ensures "," <= size + rest <==> size != ""
    ensures size != "" ==> DigitRun((size + rest)[1..]) == |size| - 1 > 0 && (size + rest)[|size|..] == rest
  {
    hide DigitRun;
    if size == "" {
      assert size + rest == rest && rest[0] != ","[0];
    } else {
      assert (size + rest)[1..] == size[1..] + rest && (size + rest)[0] == ',';
      DigitRunOf(size[1..], rest);
    }
  }

  lemma TakeRangeShape(s: string) returns (start: string, size: string)
    requires TakeRange(s).Some?
    ensures IsNumber(start) && IsSize(size) && s == start + size + TakeRange(s).value.1
    ensures TakeRange(s).value.0 == ParseNat(start)
  {
    hide DigitRun, ParseNat;
    var k := DigitRun(s);
    var rest := s[k..];
    var m := if "," <= rest then DigitRun(rest[1..]) else 0;
    start, size := s[..k], if m == 0 then "" else rest[..1 + m];
    if m > 0 {
      assert size[1..] == rest[1..][..m] && rest == size + rest[1 + m..];
    }
    assert s == start + rest;
  }

  /** The number that a header gives is its second start, the one of the new file. */
  lemma HeaderGivesNewStart(h: Header)
    requires Proper(h)
    ensures ParseHeader(HeaderText(h)) == Some(ParseNat(h.newStart))
  {
    var last := " @@" + h.rest;
    var middle := " +" + (h.newStart + h.newSize + last);
    assert HeaderText(h)[4..] == h.oldStart + h.oldSize + middle;
    assert middle[2..] == h.newStart + h.newSize + last;
    TakeRangeOf(h.oldStart, h.oldSize, middle);
    TakeRangeOf(h.newStart, h.newSize, last);
  }

  lemma HeaderOf(line: string) returns (h: Header)
    requires IsHeader(line)
    ensures Proper(h) && line == HeaderText(h)
  {
    hide TakeRange;
    var afterOld := TakeRange(line[4..]).value.1;
    var oldStart, oldSize := TakeRangeShape(line[4..]);
    var afterNew := TakeRange(afterOld[2..]).value.1;
    var newStart, newSize := TakeRangeShape(afterOld[2..]);
    h := Header(oldStart, oldSize, newStart, newSize, afterNew[3..]);
    assert afterNew == " @@" + h.rest;
    assert afterOld == " +" + (newStart + newSize + afterNew);
    assert line == "@@ -" + line[4..];
  }

  /** The header is the line, and its second start is the number. */
  predicate Gives(h: Header, line: string, n: nat) {
    Proper(h) && line == HeaderText(h) && n == ParseNat(h.newStart)
  }

  /** Exactly the lines of that shape are headers, and they give the new file's start. */
  lemma HeaderIff(line: string, n: nat)
    ensures ParseHeader(line) == Some(n) <==> exists h :: Gives(h, line, n)
  {
    hide ParseHeader, HeaderText, ParseNat;
    if ParseHeader(line) == Some(n) {
      var h := HeaderOf(line);
      HeaderGivesNewStart(h);
      assert Gives(h, line, n);
    }
    if h :| Gives(h, line, n) {
      HeaderGivesNewStart(h);
    }
  }

  /** As diff programs write it: decimal starts, the sizes left out or not. */
  lemma DecimalHeader(a: nat, oldSize: string, c: nat, newSize: string, rest: string)
    requires IsSize(oldSize) && IsSize(newSize)
    ensures ParseHeader(HeaderText(Header(Digits(a), oldSize, Digits(c), newSize, rest))) == Some(c)
  {
    ParseDigits(c);
    HeaderGivesNewStart(Header(Digits(a), oldSize, Digits(c), newSize, rest));
  }

  // ----- The remark

  /** The same letter, the first one possibly as a capital. */
  predicate SameLetter(c: char, small: char) {
    c == small || ('a' <= small <= 'z' && c as int + 32 == small as int)
  }

  /** The remark stands at `i`, in any mixture of capitals. */
  predicate RemarkAt(line: string, i: nat) {
    var remark := "no newline at end of file";
    i + |remark| <= |line| && forall k | 0 <= k < |remark| :: SameLetter(line[i + k], remark[k])
  }

  lemma LowerLetter(c: char, small: char)
    requires 'a' <= small <= 'z' || small == ' '
    ensures (if 'A' <= c <= 'Z' then (c as int + 32) as char else c) == small <==> SameLetter(c, small)
  {
  }

  /** Lines that the renderer skips. */
  lemma RemarkIff(line: string)
    ensures MentionsNoNewline(line) <==> exists i: nat :: RemarkAt(line, i)
  {
    forall i: nat | i <= |line| ensures OccursAt(Lower(line), NO_NEWLINE, i) <==> RemarkAt(line, i) {
      RemarkHere(line, i);
    }
    if i: nat :| RemarkAt(line, i) {
      assert i <= |line|;
    }
  }

  lemma RemarkHere(line: string, i: nat)
    requires i <= |line|
    ensures OccursAt(Lower(line), NO_NEWLINE, i) <==> RemarkAt(line, i)
  {
    var remark := "no newline at end of file";
    RemarkLetters();
    if i + |remark| <= |line| {
      forall k | 0 <= k < |remark| ensures Lower(line)[i..][k] == remark[k] <==> SameLetter(line[i + k], remark[k]) {
        LowerLetter(line[i + k], remark[k]);
      }
      assert OccursAt(Lower(line), NO_NEWLINE, i) <==> Lower(line)[i..][..|remark|] == remark;
    }
  }

  lemma RemarkLetters()
    ensures forall c | c in "no newline at end of file" :: 'a' <= c <= 'z' || c == ' '
  {
  }

  /** What diff programs write behind the last line of a file without a final line feed. */
  lemma RemarkOfDiff()
    ensures MentionsNoNewline("\\ No newline at end of file")
  {
    var line := "\\ No newline at end of file";
    assert RemarkAt(line, 2);
    RemarkIff(line);
  }

  // ----- The text of the lines

  /** Under its number every line of the new side is shown as it is. */
  lemma {:induction false} NumberedLines(start: int, lines: seq<string>, i: nat)
    requires i < |lines| && forall line :: line in lines ==> '\n' !in line
    ensures var shown := Split(NumberLines(start, lines), '\n');
            |shown| == |lines| + 1 && shown[i] == IntText(start + i) + " " + lines[i] && shown[|lines|] == ""
    decreases |lines|
  {
    hide IntText, Split;
    var first, rest := IntText(start) + " " + lines[0], NumberLines(start + 1, lines[1..]);
    assert lines[0] in lines && forall line :: line in lines[1..] ==> line in lines;
    NoLineFeed(start, lines[0]);
    SplitAtSeparator(first, rest, '\n');
    SplitSeparatorFree(first, '\n');
    assert NumberLines(start, lines) == first + ['\n'] + rest;
    if |lines| == 1 {
      SplitSeparatorFree("", '\n');
    } else {
      NumberedLines(start + 1, lines[1..], if i == 0 then 0 else i - 1);
    }
  }

  lemma NoLineFeed(n: int, line: string)
    requires '\n' !in line
    ensures '\n' !in IntText(n) + " " + line
  {
    var digits := Digits(if n < 0 then -n else n);
    assert forall i | 0 <= i < |digits| :: IsDigit(digits[i]);
  }

  /** The lines of the old side are shown as they are. */
  lemma {:induction false} PlainLinesShown(lines: seq<string>)
    requires forall line :: line in lines ==> '\n' !in line
    ensures Split(PlainLines(lines), '\n') == lines + [""]
    decreases |lines|
  {
    hide Split;
    if lines == [] {
      SplitSeparatorFree("", '\n');
    } else {
      var rest := PlainLines(lines[1..]);
      assert lines[0] in lines && forall line :: line in lines[1..] ==> line in lines;
      SplitAtSeparator(lines[0], rest, '\n');
      SplitSeparatorFree(lines[0], '\n');
      assert PlainLines(lines) == lines[0] + ['\n'] + rest;
      PlainLinesShown(lines[1..]);
    }
  }

  // ----- The lines behind a header

  /** How many of the lines are in the new file: all but removals and "\" lines. */
  function NewSide(lines: seq<string>): nat {
    if lines == [] then 0
    else (if lines[0] != "" && (lines[0][0] == '-' || lines[0][0] == '\\') then 0 else 1) + NewSide(lines[1..])
  }

  predicate NoHeader(lines: seq<string>) {
    forall line :: line in lines ==> !IsHeader(line)
  }

  /** Lines without a header move the number on by those of the new file. */
  lemma {:induction false} AddedSplit(a: seq<string>, b: seq<string>, next: nat)
    requires NoHeader(a)
    ensures AddedFrom(a + b, next) == AddedFrom(a, next) + AddedFrom(b, next + NewSide(a))
    decreases |a|
  {
    hide IsHeader, AddedFrom;
    if a == [] {
      assert a + b == b;
      assert AddedFrom([], next) == [] by { NothingAdded([], next); }
    } else {
      var head, tail := a[0], a[1..];
      assert head in a && forall line :: line in tail ==> line in a;
      assert a == [head] + tail && a + b == [head] + (tail + b);
      var after := NumberAfter(head, next);
      AddedHead(head, tail + b, next);
      AddedHead(head, tail, next);
      AddedSplit(tail, b, after);
      var own := if head != "" && head[0] == '+' then [next] else [];
      assert own + (AddedFrom(tail, after) + AddedFrom(b, after + NewSide(tail)))
          == (own + AddedFrom(tail, after)) + AddedFrom(b, after + NewSide(tail));
    }
  }

  lemma AddedHead(line: string, rest: seq<string>, next: nat)
    ensures AddedFrom([line] + rest, next)
         == (if line != "" && line[0] == '+' then [next] else []) + AddedFrom(rest, NumberAfter(line, next))
    ensures !IsHeader(line) ==>
              NumberAfter(line, next) == next + if line != "" && (line[0] == '-' || line[0] == '\\') then 0 else 1
  {
    hide ParseHeader;
    assert ([line] + rest)[1..] == rest;
    assert IsAdded(line) <==> line != "" && line[0] == '+';
    assert IsSkipped(line) <==> line != "" && (line[0] == '-' || line[0] == '\\');
  }

  /** Behind a header that starts at `c`, an added line has the number `c` plus the new-file lines between. */
  lemma AddedBehindHeader(lines: seq<string>, h: nat, i: nat, next: nat)
    requires h < i < |lines| && IsHeader(lines[h]) && NoHeader(lines[h + 1..i]) && IsAdded(lines[i])
    ensures var k := |AddedFrom(lines[..i], next)|;
            && k < |AddedFrom(lines, next)|
            && AddedFrom(lines, next)[k] == ParseHeader(lines[h]).value + NewSide(lines[h + 1..i])
    decreases h
  {
    hide ParseHeader, IsAdded, NumberAfter;
    var head, rest, after := lines[0], lines[1..], NumberAfter(lines[0], next);
    assert lines == [head] + rest && lines[..i] == [head] + rest[..i - 1];
    AddedHead(head, rest, next);
    AddedHead(head, rest[..i - 1], next);
    if h == 0 {
      var body, tail := lines[1..i], lines[i..];
      assert rest == body + tail && rest[..i - 1] == body;
      HeaderStarts(head, next);
      AddedSplit(body, tail, after);
      AddedHead(lines[i], lines[i + 1..], after + NewSide(body));
      assert tail == [lines[i]] + lines[i + 1..];
      AddedSign(lines[i]);
    } else {
      assert rest[h..i - 1] == lines[h + 1..i];
      AddedBehindHeader(rest, h - 1, i - 1, after);
    }
  }

  lemma AddedSign(line: string)
    requires IsAdded(line)
    ensures line != "" && line[0] == '+'
  {
  }

  lemma HeaderStarts(line: string, next: nat)
    requires IsHeader(line)
    ensures NumberAfter(line, next) == ParseHeader(line).value && line != "" && line[0] == '@'
  {
    HeaderShape(line);
  }

  /** End to end: an added line behind a header is found under the header's new-file start plus the new-file
      lines between, at the place of the line among the added ones. */
  lemma FoundNumber(patch: string, filename: string, header: Header, h: nat, i: nat)
    requires var lines := Split(patch, '\n');
             && WellFormed(lines) && AllRegular(lines) && Unquoted(lines, false) && NameNumbers(filename) == []
             && h < i < |lines| && Proper(header) && lines[h] == HeaderText(header)
             && NoHeader(lines[h + 1..i]) && IsAdded(lines[i])
    ensures forall r :: r in ReadBack(patch, filename) ==> r.start <= r.end
    ensures var lines := Split(patch, '\n');
            var found, k := Expand(ReadBack(patch, filename)), |AddedFrom(lines[..i], 0)|;
            k < |found| && found[k] == ParseNat(header.newStart) + NewSide(lines[h + 1..i])
  {
    hide *;
    var lines := Split(patch, '\n');
    RegularToolChain(patch, filename);
    GivenStart(header);
    AddedBehindHeader(lines, h, i, 0);
    LinesOf(patch);
  }

  lemma GivenStart(header: Header)
    requires Proper(header)
    ensures IsHeader(HeaderText(header)) && ParseHeader(HeaderText(header)).value == ParseNat(header.newStart)
  {
    HeaderGivesNewStart(header);
  }

  lemma LinesOf(patch: string)
    ensures AddedLines(patch) == AddedFrom(Split(patch, '\n'), 0)
  {
  }
}
