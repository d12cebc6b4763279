/** The diff tool chain as a whole: prune, render, and read the rendering back. */
module PatchTheorem {
  import opened Text
  import opened PatchLines
  import opened PatchPrune
  import opened PatchPruneLaws
  import opened PatchRender
  import opened PatchExtract

  // ----- NumberedAdditions of a text built from pieces

  lemma {:induction false} NumbersAppend(a: seq<Effect>, b: seq<Effect>)
    ensures Numbers(a + b) == Numbers(a) + Numbers(b)
  {
    if a == [] {
      assert a + b == b;
    } else {
      assert (a + b)[1..] == a[1..] + b;
      NumbersAppend(a[1..], b);
      var head := if a[0].Add? then [a[0].n] else [];
      assert head + (Numbers(a[1..]) + Numbers(b)) == (head + Numbers(a[1..])) + Numbers(b);
    }
  }

  lemma {:induction false} EffectsAppend(a: seq<string>, b: seq<string>)
    ensures Effects(a + b) == Effects(a) + Effects(b)
  {
    hide EffectOf;
    if a == [] {
      assert a + b == b;
    } else {
      assert (a + b)[1..] == a[1..] + b;
      EffectsAppend(a[1..], b);
    }
  }

  /** A line feed separates the numbered additions of the two sides. */
  lemma AdditionsAtNewline(a: string, b: string)
    ensures NumberedAdditions(a + "\n" + b) == NumberedAdditions(a) + NumberedAdditions(b)
  {
    hide EffectOf;
    SplitAtSeparator(a, b, '\n');
    EffectsAppend(Split(a, '\n'), Split(b, '\n'));
    NumbersAppend(Effects(Split(a, '\n')), Effects(Split(b, '\n')));
  }

  /** The numbered additions of a single line: at most one. */
  function LineNumber(line: string): seq<nat> {
    match EffectOf(line)
    case Add(n) => [n]
    case _ => []
  }

  lemma AdditionsOfLine(line: string)
    requires '\n' !in line
    ensures NumberedAdditions(line) == LineNumber(line)
  {
    hide EffectOf, LineNumber;
    SplitSeparatorFree(line, '\n');
    OneEffect(line);
  }

  lemma NothingNumbered(line: string)
    requires "@@" <= line || HasMarker(line) || line == "" || !IsDigit(line[0])
    ensures LineNumber(line) == []
  {
  }

  lemma ContainsPastSpace(line: string, w: char, p: string)
    requires p != "" && p[|p| - 1] != w
    ensures Contains(line + [w], p) == Contains(line, p)
  {
    var s := line + [w];
    if Contains(line, p) {
      var i :| 0 <= i <= |line| && OccursAt(line, p, i);
      assert p <= s[i..] by {
        assert s[i..][..|line| - i] == line[i..];
      }
      assert OccursAt(s, p, i);
    }
    if Contains(s, p) {
      var i :| 0 <= i <= |s| && OccursAt(s, p, i);
      assert s[i + |p| - 1] == p[|p| - 1];
      assert i + |p| <= |line|;
      assert s[i..][..|p|] == line[i..][..|p|];
      assert OccursAt(line, p, i);
    }
  }

  lemma NumberedPastSpace(line: string, w: char)
    requires IsSpace(w)
    ensures NumberedChange(line + [w]) == NumberedChange(line)
  {
    var k, longer := DigitRun(line), line + [w];
    assert longer == line[..k] + (line[k..] + [w]);
    DigitRunOf(line[..k], line[k..] + [w]);
    hide ParseNat, DigitRun;
    assert DigitRun(longer) == k && longer[..k] == line[..k];
    if k + 1 < |line| {
      assert longer[k] == line[k] && longer[k + 1] == line[k + 1];
    } else if k + 1 == |line| {
      assert longer[k + 1] == w && w != '+' && w != '-';
    }
  }

  /** Trailing white space does not matter to a line. */
  lemma LinePastSpace(line: string, w: char)
    requires IsSpace(w)
    ensures LineNumber(line + [w]) == LineNumber(line)
  {
    hide NumberedChange, MentionsHeader, Contains;
    ContainsPastSpace(line, w, NEW_HUNK);
    ContainsPastSpace(line, w, OLD_HUNK);
    NumberedPastSpace(line, w);
    if |line| == 1 {
      assert (line + [w])[1] == w && w != '@';
    }
    assert "@@" <= line + [w] <==> "@@" <= line;
  }

  lemma AdditionsPastSpace(s: string, w: char)
    requires IsSpace(w)
    ensures NumberedAdditions(s + [w]) == NumberedAdditions(s)
  {
    hide IsSpace, EffectOf;
    if w == '\n' {
      AdditionsAtNewline(s, "");
      AdditionsOfLine("");
      assert LineNumber("") == [] by { NothingNumbered(""); }
      assert s + "\n" + "" == s + [w];
    } else {
      var parts := Split(s, '\n');
      var init, last := parts[..|parts| - 1], parts[|parts| - 1];
      SplitSnoc(s, w, '\n');
      assert parts == init + [last];
      LinePastSpace(last, w);
      EffectsAppend(init, [last]);
      EffectsAppend(init, [last + [w]]);
      NumbersAppend(Effects(init), Effects([last]));
      NumbersAppend(Effects(init), Effects([last + [w]]));
      OneEffect(last);
      OneEffect(last + [w]);
    }
  }

  lemma OneEffect(line: string)
    ensures Numbers(Effects([line])) == LineNumber(line)
  {
    hide EffectOf;
    assert [line][1..] == [];
    assert Effects([line]) == [EffectOf(line)];
  }

  lemma {:induction false} AdditionsTrimEnd(s: string)
    ensures NumberedAdditions(TrimEnd(s)) == NumberedAdditions(s)
  {
    hide NumberedAdditions, IsSpace;
    if s != "" && IsSpace(s[|s| - 1]) {
      var init := s[..|s| - 1];
      AdditionsTrimEnd(init);
      AdditionsPastSpace(init, s[|s| - 1]);
      assert init + [s[|s| - 1]] == s;
    }
  }

  /** A text, a line and a line feed. */
  lemma AdditionsAddLine(text: string, line: string)
    requires '\n' !in line
    ensures NumberedAdditions(text + "\n" + line + "\n") == NumberedAdditions(text) + LineNumber(line)
  {
    hide NumberedAdditions, LineNumber;
    AdditionsAtNewline(text, line);
    AdditionsOfLine(line);
    AdditionsPastSpace(text + "\n" + line, '\n');
    assert text + "\n" + line + ['\n'] == text + "\n" + line + "\n";
  }

  // ----- The rendering, piece by piece

  /** An added line the reader can see: a line that quotes a hunk marker is skipped. */
  predicate Shown(line: string) {
    IsAdded(line) && !HasMarker(line)
  }

  /** An added line that gets through both stages: the renderer skips lines that quote the "no newline"
      remark. */
  predicate Seen(line: string) {
    Shown(line) && !MentionsNoNewline(line)
  }

  /** The renderer's count after a line: it passes over a remark wherever it stands, and counts every other
      line but headers and removals. */
  function CountAfter(line: string, count: nat): nat {
    if MentionsNoNewline(line) then count
    else
      match ParseHeader(line)
      case Some(start) => start
      case None => if "-" <= line then count else count + 1
  }

  /** The numbers that the reader finds for the lines of a patch, `count` being the renderer's count. */
  function ShownFrom(lines: seq<string>, count: nat): seq<nat> {
    if lines == [] then []
    else (if Seen(lines[0]) then [count] else []) + ShownFrom(lines[1..], CountAfter(lines[0], count))
  }

  /** How far a line moves the renderer's count past the new file's: a remark on an added or context line
      holds it back, a "\\" line without the remark pushes it on, and a header sets it right unless it quotes
      the remark. */
  function SlipAfter(line: string, next: nat, slip: int): int {
    if IsHeader(line) then (if MentionsNoNewline(line) then next + slip - ParseHeader(line).value else 0)
    else if "\\" <= line then (if MentionsNoNewline(line) then slip else slip + 1)
    else if MentionsNoNewline(line) && !("-" <= line) then slip - 1
    else slip
  }

  /** Every added line is free of hunk markers and remarks and stands where the renderer's count has not
      slipped. */
  predicate InStep(lines: seq<string>, next: nat, slip: int) {
    lines == []
    || ((IsAdded(lines[0]) ==> Seen(lines[0]) && slip == 0)
        && InStep(lines[1..], NumberAfter(lines[0], next), SlipAfter(lines[0], next, slip)))
  }

  /** Numbers of the shown lines when `lines` are numbered from `start`. */
  function PlusNumbers(start: nat, lines: seq<string>): seq<nat>
    decreases |lines|
  {
    if lines == [] then []
    else (if Shown(lines[0]) then [start] else []) + PlusNumbers(start + 1, lines[1..])
  }

  lemma {:induction false} PlusNumbersSnoc(start: nat, lines: seq<string>, line: string)
    ensures PlusNumbers(start, lines + [line])
         == PlusNumbers(start, lines) + (if Shown(line) then [start + |lines|] else [])
    decreases |lines|
  {
    hide Shown;
    if lines == [] {
      assert (lines + [line])[1..] == [];
    } else {
      assert (lines + [line])[1..] == lines[1..] + [line] && (lines + [line])[0] == lines[0];
      PlusNumbersSnoc(start + 1, lines[1..], line);
      var first := if Shown(lines[0]) then [start] else [];
      assert PlusNumbers(start, lines) == first + PlusNumbers(start + 1, lines[1..]);
      assert PlusNumbers(start, lines + [line]) == first + PlusNumbers(start + 1, lines[1..] + [line]);
    }
  }

  lemma {:induction false} NoPlusNumbers(start: nat, lines: seq<string>)
    requires !AnyStartsWith(lines, "+")
    ensures PlusNumbers(start, lines) == []
    decreases |lines|
  {
    if lines != [] {
      assert lines[0] in lines;
      assert forall line | line in lines[1..] :: line in lines;
      NoPlusNumbers(start + 1, lines[1..]);
    }
  }

  /** A line the new-hunk part can show. */
  predicate NewLine(line: string) {
    '\n' !in line
  }

  /** A line the old-hunk part can show. */
  predicate OldLine(line: string) {
    '\n' !in line && (line == "" || !IsDigit(line[0]))
  }

  lemma {:induction false} ContainsBehind(prefix: string, body: string, p: string)
    requires p != "" && p[0] !in prefix
    ensures Contains(prefix + body, p) == Contains(body, p)
  {
    var s, k := prefix + body, |prefix|;
    if Contains(body, p) {
      var i :| 0 <= i <= |body| && OccursAt(body, p, i);
      assert s[k + i..] == body[i..];
      assert OccursAt(s, p, k + i);
    }
    if Contains(s, p) {
      var i :| 0 <= i <= |s| && OccursAt(s, p, i);
      assert s[i] == p[0];
      assert forall j | 0 <= j < k :: s[j] == prefix[j] && s[j] in prefix;
      assert s[i..] == body[i - k..];
      assert OccursAt(body, p, i - k);
    }
  }

  /** What the reader finds in the line that the writer printed for number `n`. */
  lemma NumberedLine(n: nat, line: string)
    requires NewLine(line)
    ensures '\n' !in IntText(n) + " " + line
    ensures LineNumber(IntText(n) + " " + line) == if Shown(line) then [n] else []
  {
    hide Contains, Digits, MentionsHeader, DigitRun, ParseNat;
    var d := Digits(n);
    var printed := d + " " + line;
    assert AllDigits(d) && forall c | c in d :: IsDigit(c);
    assert IntText(n) == d;
    ContainsBehind(d + " ", line, NEW_HUNK);
    ContainsBehind(d + " ", line, OLD_HUNK);
    DigitRunOf(d, " " + line);
    assert d + (" " + line) == printed;
    assert printed[..|d|] == d && printed[|d|] == ' ' && IsDigit(printed[0]);
    assert |d| + 1 < |printed| ==> printed[|d| + 1] == line[0];
    ParseDigits(n);
  }

  lemma {:induction false} AdditionsNumbered(text: string, start: nat, lines: seq<string>)
    requires forall line :: line in lines ==> NewLine(line)
    ensures NumberedAdditions(text + "\n" + NumberLines(start, lines))
         == NumberedAdditions(text) + PlusNumbers(start, lines)
    decreases |lines|
  {
    hide NumberedAdditions, LineNumber, IntText, NewLine, Shown;
    if lines == [] {
      AdditionsPastSpace(text, '\n');
      assert text + "\n" + "" == text + ['\n'];
    } else {
      var printed := IntText(start) + " " + lines[0];
      var rest := NumberLines(start + 1, lines[1..]);
      NumberedLine(start, lines[0]);
      AdditionsAtNewline(text, printed);
      AdditionsOfLine(printed);
      assert lines[0] in lines && forall l :: l in lines[1..] ==> l in lines;
      AdditionsNumbered(text + "\n" + printed, start + 1, lines[1..]);
      var own := if Shown(lines[0]) then [start] else [];
      assert (NumberedAdditions(text) + own) + PlusNumbers(start + 1, lines[1..])
          == NumberedAdditions(text) + (own + PlusNumbers(start + 1, lines[1..]));
      assert text + "\n" + ((printed + "\n") + rest) == (text + "\n" + printed) + "\n" + rest;
    }
  }

  lemma {:induction false} AdditionsPlain(text: string, lines: seq<string>)
    requires forall line :: line in lines ==> OldLine(line)
    ensures NumberedAdditions(text + "\n" + PlainLines(lines)) == NumberedAdditions(text)
    decreases |lines|
  {
    hide NumberedAdditions, LineNumber;
    if lines == [] {
      AdditionsPastSpace(text, '\n');
      assert text + "\n" + "" == text + ['\n'];
    } else {
      var line, rest := lines[0], PlainLines(lines[1..]);
      assert line in lines && forall l :: l in lines[1..] ==> l in lines;
      NothingNumbered(line);
      AdditionsAtNewline(text, line);
      AdditionsOfLine(line);
      AdditionsPlain(text + "\n" + line, lines[1..]);
      assert text + "\n" + ((line + "\n") + rest) == (text + "\n" + line) + "\n" + rest;
    }
  }

  lemma AdditionsMarker(text: string, marker: string)
    requires marker == NEW_HUNK || marker == OLD_HUNK
    ensures NumberedAdditions(TrimEnd(text) + "\n" + marker) == NumberedAdditions(text)
  {
    hide NumberedAdditions, LineNumber, TrimEnd;
    AdditionsTrimEnd(text);
    AdditionsAtNewline(TrimEnd(text), marker);
    assert '\n' !in NEW_HUNK && '\n' !in OLD_HUNK;
    AdditionsOfLine(marker);
    NothingNumbered(marker);
  }

  lemma AdditionsNewHunk(text: string, start: nat, lines: seq<string>)
    requires forall line :: line in lines ==> NewLine(line)
    ensures NumberedAdditions(WithNewHunk(text, start, lines))
         == NumberedAdditions(text) + PlusNumbers(start, lines)
  {
    hide NumberedAdditions, TrimEnd, NumberLines, PlusNumbers, NewLine;
    if AnyStartsWith(lines, "+") {
      AdditionsMarker(text, NEW_HUNK);
      AdditionsNumbered(TrimEnd(text) + "\n" + NEW_HUNK, start, lines);
      assert TrimEnd(text) + "\n" + NEW_HUNK + "\n" == TrimEnd(text) + "\n__new hunk__\n";
    } else {
      NoPlusNumbers(start, lines);
    }
  }

  lemma AdditionsOldHunk(text: string, lines: seq<string>)
    requires forall line :: line in lines ==> OldLine(line)
    ensures NumberedAdditions(WithOldHunk(text, lines)) == NumberedAdditions(text)
  {
    hide NumberedAdditions, TrimEnd, PlainLines, OldLine;
    if AnyStartsWith(lines, "-") {
      AdditionsMarker(text, OLD_HUNK);
      AdditionsPlain(TrimEnd(text) + "\n" + OLD_HUNK, lines);
      assert TrimEnd(text) + "\n" + OLD_HUNK + "\n" == TrimEnd(text) + "\n__old hunk__\n";
    }
  }

  // ----- The rendering loop

  const HEAD := "\n\n#"

  /** The loop state once a valid header has been read. */
  predicate Reading(r: Render) {
    && HEAD <= r.text
    && r.matched && r.start >= 0
    && r.prevHeader == r.header && "@@" <= r.header && '\n' !in r.header
    && (forall line :: line in r.news ==> NewLine(line))
    && (forall line :: line in r.olds ==> OldLine(line))
  }

  function HunkText(r: Render): string {
    WithOldHunk(WithNewHunk(r.text + "\n" + r.header + "\n", r.start, r.news), r.olds)
  }

  lemma KeepsHead(text: string, start: int, news: seq<string>, olds: seq<string>)
    requires HEAD <= text
    ensures HEAD <= WithNewHunk(text, start, news)
    ensures HEAD <= WithOldHunk(text, olds)
  {
    hide NumberLines, PlainLines, AnyStartsWith;
    TrimEndKeepsPrefix(text, HEAD);
  }

  lemma HunkAdditions(r: Render)
    requires Reading(r)
    ensures NumberedAdditions(HunkText(r)) == NumberedAdditions(r.text) + PlusNumbers(r.start, r.news)
    ensures HEAD <= HunkText(r)
  {
    hide NumberedAdditions, LineNumber, WithNewHunk, WithOldHunk, NewLine, OldLine, PlusNumbers;
    var front := r.text + "\n" + r.header + "\n";
    AdditionsAddLine(r.text, r.header);
    NothingNumbered(r.header);
    AdditionsNewHunk(front, r.start, r.news);
    AdditionsOldHunk(WithNewHunk(front, r.start, r.news), r.olds);
    KeepsHead(front, r.start, r.news, r.olds);
    KeepsHead(WithNewHunk(front, r.start, r.news), r.start, r.news, r.olds);
  }

  lemma EmptyRemark()
    ensures !MentionsNoNewline("")
  {
  }

  /** What the renderer has written and still holds back, as the reader will number it. */
  function Accounted(r: Render): seq<nat>
    requires r.start >= 0
  {
    NumberedAdditions(r.text) + PlusNumbers(r.start, r.news)
  }

  /** A line leads from `r` to `r'`: the state stays readable, and the line's own number is accounted for. */
  predicate Advances(r: Render, line: string, r': Render) {
    && Reading(r) && Reading(r')
    && r'.start + |r'.news| == CountAfter(line, r.start + |r.news|)
    && Accounted(r') == Accounted(r) + (if Seen(line) then [r.start + |r.news|] else [])
  }

  lemma RenderDiffLine(r: Render, line: string)
    requires Reading(r) && DiffLine(line) && '\n' !in line
    ensures Advances(r, line, RenderLine(r, line))
  {
    hide *;
    if MentionsNoNewline(line) {
      RenderRemark(r, line);
    } else if "@@" <= line {
      RenderHeader(r, line);
    } else {
      RenderBody(r, line);
    }
  }

  lemma RenderRemark(r: Render, line: string)
    requires Reading(r) && MentionsNoNewline(line)
    ensures Advances(r, line, RenderLine(r, line))
  {
    hide MentionsNoNewline, Reading, Accounted;
    assert Reading(r) ==> r.start >= 0 by { ReadingStart(r); }
  }

  lemma ReadingStart(r: Render)
    requires Reading(r)
    ensures r.start >= 0
  {
  }

  lemma RenderHeader(r: Render, line: string)
    requires Reading(r) && "@@" <= line && DiffLine(line) && !MentionsNoNewline(line) && '\n' !in line
    ensures Advances(r, line, RenderLine(r, line))
  {
    ClosesHunk(r, line);
    var text := if r.news != [] || r.olds != [] then HunkText(r) else r.text;
    TextOfHunk(r);
    hide *;
    HeaderAdvances(r, line, text);
  }

  lemma TextOfHunk(r: Render)
    requires Reading(r)
    ensures var text := if r.news != [] || r.olds != [] then HunkText(r) else r.text;
            HEAD <= text && NumberedAdditions(text) == Accounted(r)
  {
    hide NumberedAdditions, HunkText;
    HunkAdditions(r);
    EmptyNumbers(r.start, r.news);
  }

  lemma HeaderAdvances(r: Render, line: string, text: string)
    requires Reading(r) && "@@" <= line && DiffLine(line) && !MentionsNoNewline(line) && '\n' !in line
    requires HEAD <= text && NumberedAdditions(text) == Accounted(r)
    ensures IsHeader(line) && Advances(r, line, Render(text, [], [], ParseHeader(line).value, line, line, true))
  {
    hide NumberedAdditions, MentionsNoNewline, HasMarker, Accounted, ParseHeader, IsAdded, IsSkipped, NewLine, OldLine;
    HeaderShape(line);
    AccountedFresh(text, ParseHeader(line).value, line);
  }

  lemma AccountedFresh(text: string, start: nat, line: string)
    ensures Accounted(Render(text, [], [], start, line, line, true)) == NumberedAdditions(text)
  {
    hide NumberedAdditions;
  }

  /** A header closes the hunk that is held back, if there is one, and starts an empty one. */
  lemma ClosesHunk(r: Render, line: string)
    requires Reading(r) && IsHeader(line) && !MentionsNoNewline(line)
    ensures var text := if r.news != [] || r.olds != [] then HunkText(r) else r.text;
            RenderLine(r, line) == Render(text, [], [], ParseHeader(line).value, line, line, true)
  {
    hide WithNewHunk, WithOldHunk, MentionsNoNewline, NewLine, OldLine;
    HeaderShape(line);
  }

  lemma RenderBody(r: Render, line: string)
    requires Reading(r) && !("@@" <= line) && DiffLine(line) && !MentionsNoNewline(line) && '\n' !in line
    ensures Advances(r, line, RenderLine(r, line))
  {
    assert ParseHeader(line).None?;
    hide NumberedAdditions, MentionsNoNewline, HasMarker, PlusNumbers, ParseHeader;
    PlusNumbersSnoc(r.start, r.news, line);
    var before, own := NumberedAdditions(r.text), if Shown(line) then [r.start + |r.news|] else [];
    assert before + (PlusNumbers(r.start, r.news) + own) == (before + PlusNumbers(r.start, r.news)) + own;
  }

  lemma EmptyNumbers(start: nat, lines: seq<string>)
    ensures lines == [] ==> PlusNumbers(start, lines) == []
  {
  }

  lemma AllRead(r: Render)
    requires Reading(r)
    ensures HEAD <= Finished(r) && NumberedAdditions(Finished(r)) == Accounted(r) + ShownFrom([], r.start + |r.news|)
  {
    hide NumberedAdditions, PlusNumbers;
    HunkAdditions(r);
    EmptyNumbers(r.start, r.news);
    assert Finished(r) == if r.news == [] then r.text else HunkText(r);
  }

  lemma {:induction false} RenderedAdditions(r: Render, lines: seq<string>)
    requires Reading(r)
    requires forall line :: line in lines ==> DiffLine(line) && '\n' !in line
    ensures HEAD <= Finished(RenderLines(r, lines))
    ensures NumberedAdditions(Finished(RenderLines(r, lines)))
         == Accounted(r) + ShownFrom(lines, r.start + |r.news|)
    decreases |lines|
  {
    hide *;
    if lines == [] {
      AllRead(r);
      NoLinesRendered(r);
    } else {
      var line, rest := lines[0], lines[1..];
      assert line in lines && forall l :: l in rest ==> l in lines;
      RenderDiffLine(r, line);
      RenderedFirst(r, lines);
      RenderedAdditions(RenderLine(r, line), rest);
    }
  }

  lemma NoLinesRendered(r: Render)
    ensures RenderLines(r, []) == r
  {
  }

  lemma RenderedFirst(r: Render, lines: seq<string>)
    requires lines != [] && Advances(r, lines[0], RenderLine(r, lines[0]))
    ensures var r' := RenderLine(r, lines[0]);
            && Reading(r') && RenderLines(r, lines) == RenderLines(r', lines[1..])
            && Accounted(r) + ShownFrom(lines, r.start + |r.news|)
               == Accounted(r') + ShownFrom(lines[1..], r'.start + |r'.news|)
  {
    hide CountAfter, Seen, RenderLine, Accounted;
    var r' := RenderLine(r, lines[0]);
    var own := if Seen(lines[0]) then [r.start + |r.news|] else [];
    var after := ShownFrom(lines[1..], r'.start + |r'.news|);
    assert (Accounted(r) + own) + after == Accounted(r) + (own + after);
  }

  lemma AdditionsTrim(s: string)
    requires HEAD <= s
    ensures NumberedAdditions(Trim(s)) == NumberedAdditions(s)
  {
    hide NumberedAdditions, TrimEnd;
    TrimEndKeepsPrefix(s, HEAD);
    AdditionsTrimEnd(s);
    var t := TrimEnd(s);
    var body := t[2..];
    assert TrimStart(t) == body by {
      assert t[1..][1..] == body;
      assert TrimStart(body) == body;
    }
    assert t == "" + "\n" + ("" + "\n" + body);
    AdditionsAtNewline("", "" + "\n" + body);
    AdditionsAtNewline("", body);
    AdditionsOfLine("");
    NothingNumbered("");
  }

  /** What the reader takes for numbered additions in the file heading. */
  function NameNumbers(filename: string): seq<nat> {
    NumberedAdditions(FileHeading(filename))
  }

  /** Nothing, if the name is a single line. */
  lemma OneLineName(filename: string)
    requires '\n' !in Trim(filename)
    ensures NameNumbers(filename) == []
  {
    hide NumberedAdditions, LineNumber, Trim;
    var line := "## file: '" + Trim(filename) + "'";
    assert FileHeading(filename) == "\n" + "\n" + line + "\n";
    AdditionsAddLine("\n", line);
    NothingNumbered(line);
    AdditionsPastSpace("", '\n');
    AdditionsOfLine("");
    NothingNumbered("");
    assert "" + ['\n'] == "\n";
  }

  /** In the rendering of a well-formed patch the reader finds the added lines without marker and remark,
      under the renderer's count. */
  lemma RenderingNumbers(patch: string, filename: string)
    requires WellFormed(Split(patch, '\n'))
    ensures NumberedAdditions(Rendered(patch, filename)) == NameNumbers(filename) + ShownFrom(Split(patch, '\n'), 0)
  {
    hide *;
    var lines := Split(patch, '\n');
    SplitPartsFree(patch, '\n');
    WellFormedLines(lines);
    FirstHeader(filename, lines[0]);
    HeaderReads(filename, lines[0]);
    HeaderAccounted(filename, lines[0]);
    var r := AfterHeader(filename, lines[0]);
    RenderedFrom(patch, filename);
    RenderedAdditions(r, lines[1..]);
    AdditionsTrim(Finished(RenderLines(r, lines[1..])));
    FirstShown(lines);
  }

  lemma WellFormedLines(lines: seq<string>)
    requires WellFormed(lines)
    ensures lines != [] && IsHeader(lines[0]) && !MentionsNoNewline(lines[0])
    ensures forall line :: line in lines ==> DiffLine(line)
  {
    hide IsHeader, MentionsNoNewline, DiffLine;
  }

  lemma RenderedFrom(patch: string, filename: string)
    ensures var lines := Split(patch, '\n');
            Rendered(patch, filename) == Trim(Finished(RenderLines(RenderLine(Begin(filename), lines[0]), lines[1..])))
  {
    hide Trim, Finished, RenderLine, Begin;
  }

  lemma FirstShown(lines: seq<string>)
    requires lines != [] && IsHeader(lines[0]) && !MentionsNoNewline(lines[0])
    ensures ShownFrom(lines, 0) == ShownFrom(lines[1..], ParseHeader(lines[0]).value)
  {
    hide MentionsNoNewline;
    HeaderShape(lines[0]);
    assert ShownFrom(lines, 0) == [] + ShownFrom(lines[1..], ParseHeader(lines[0]).value);
  }

  lemma HeadingStarts(filename: string)
    ensures HEAD <= FileHeading(filename)
  {
    hide Trim;
  }

  /** The state after a leading header. */
  function AfterHeader(filename: string, line: string): Render
    requires IsHeader(line)
  {
    Render(FileHeading(filename), [], [], ParseHeader(line).value, line, line, true)
  }

  lemma FirstHeader(filename: string, line: string)
    requires IsHeader(line) && !MentionsNoNewline(line)
    ensures RenderLine(Begin(filename), line) == AfterHeader(filename, line)
  {
    HeaderShape(line);
    hide Trim, FileHeading, MentionsNoNewline, ParseHeader, Flushed;
  }

  lemma HeaderReads(filename: string, line: string)
    requires IsHeader(line) && '\n' !in line
    ensures Reading(AfterHeader(filename, line))
  {
    hide FileHeading, ParseHeader, IsAdded, IsSkipped, HEAD, NewLine, OldLine;
    HeaderShape(line);
    HeadingStarts(filename);
  }

  lemma HeaderAccounted(filename: string, line: string)
    requires IsHeader(line)
    ensures var r := AfterHeader(filename, line);
            Accounted(r) == NameNumbers(filename) && r.start + |r.news| == ParseHeader(line).value
  {
    hide FileHeading, ParseHeader, NumberedAdditions, PlusNumbers;
    EmptyNumbers(ParseHeader(line).value, []);
    assert NameNumbers(filename) + [] == NameNumbers(filename);
  }

  /** The slip is the difference of the two counts. */
  lemma SlipIsDifference(line: string, next: nat, count: nat)
    ensures CountAfter(line, count) as int == NumberAfter(line, next) + SlipAfter(line, next, count - next)
  {
    hide MentionsNoNewline, ParseHeader;
    assert "-" <= line ==> line[0] == '-';
    assert "\\" <= line ==> line[0] == '\\';
  }

  /** The numbers found are those of all added lines exactly if every added line can be seen and stands in
      step. */
  lemma {:induction false} ShownIsAdded(lines: seq<string>, next: nat, count: nat)
    ensures |ShownFrom(lines, count)| <= |AddedFrom(lines, next)|
    ensures ShownFrom(lines, count) == AddedFrom(lines, next) <==> InStep(lines, next, count - next)
  {
    hide NumberAfter, CountAfter, SlipAfter, HasMarker, MentionsNoNewline, IsAdded;
    if lines != [] {
      var line, rest := lines[0], lines[1..];
      SlipIsDifference(line, next, count);
      ShownIsAdded(rest, NumberAfter(line, next), CountAfter(line, count));
      var shown, added := ShownFrom(rest, CountAfter(line, count)), AddedFrom(rest, NumberAfter(line, next));
      SameHead(count, shown, next, added);
      assert [] + shown == shown && [] + added == added;
    }
  }

  lemma SameHead(a: nat, s: seq<nat>, b: nat, t: seq<nat>)
    ensures [a] + s == [b] + t <==> a == b && s == t
    ensures |s| <= |t| ==> s != [b] + t
  {
    assert ([a] + s)[0] == a && ([a] + s)[1..] == s && ([b] + t)[0] == b && ([b] + t)[1..] == t;
  }

  // ----- The condition without counting

  /** A line as diff programs write it: a "\\" line is the remark, and a header does not quote it. */
  predicate Regular(line: string) {
    && ("\\" <= line ==> MentionsNoNewline(line))
    && (IsHeader(line) ==> !MentionsNoNewline(line))
  }

  predicate AllRegular(lines: seq<string>) {
    forall line :: line in lines ==> Regular(line)
  }

  /** An added or context line that the renderer takes for the remark. */
  predicate QuotesRemark(line: string) {
    MentionsNoNewline(line) && !IsSkipped(line)
  }

  /** Every added line quotes neither a marker nor the remark, and no added or context line before it in its
      hunk quotes the remark; `quoted` tells whether one did so far. */
  predicate Unquoted(lines: seq<string>, quoted: bool) {
    lines == []
    || ((IsAdded(lines[0]) ==> Seen(lines[0]) && !quoted)
        && Unquoted(lines[1..], !IsHeader(lines[0]) && (quoted || QuotesRemark(lines[0]))))
  }

  /** On regular lines the renderer's count can only fall behind, and it does where the remark is quoted. */
  lemma {:induction false} InStepIffUnquoted(lines: seq<string>, next: nat, slip: int)
    requires slip <= 0 && AllRegular(lines)
    ensures InStep(lines, next, slip) <==> Unquoted(lines, slip < 0)
  {
    hide NumberAfter, Seen, IsAdded, MentionsNoNewline, ParseHeader;
    if lines != [] {
      var line := lines[0];
      assert line in lines && forall l :: l in lines[1..] ==> l in lines;
      RegularSlip(line, next, slip);
      hide Regular, QuotesRemark, SlipAfter, IsHeader;
      InStepIffUnquoted(lines[1..], NumberAfter(line, next), SlipAfter(line, next, slip));
    }
  }

  lemma RegularSlip(line: string, next: nat, slip: int)
    requires slip <= 0 && Regular(line)
    ensures SlipAfter(line, next, slip) <= 0
    ensures SlipAfter(line, next, slip) < 0 <==> !IsHeader(line) && (slip < 0 || QuotesRemark(line))
  {
    hide MentionsNoNewline, ParseHeader;
  }

  /** Nothing that is added quotes a marker, and nothing in the new file quotes the remark. */
  predicate Quiet(lines: seq<string>) {
    forall line :: line in lines ==> !QuotesRemark(line) && (IsAdded(line) ==> !HasMarker(line))
  }

  lemma {:induction false} QuietIsUnquoted(lines: seq<string>)
    requires Quiet(lines) && AllRegular(lines)
    ensures Unquoted(lines, false)
  {
    hide HasMarker, MentionsNoNewline, IsHeader;
    if lines != [] {
      assert lines[0] in lines && forall l :: l in lines[1..] ==> l in lines;
      assert IsAdded(lines[0]) ==> !IsSkipped(lines[0]) by { assert "+" <= lines[0] ==> lines[0][0] == '+'; }
      QuietIsUnquoted(lines[1..]);
    }
  }

  // ----- The three stages together

  /** What the reader finds in the rendering of the pruned patch. */
  function ReadBack(patch: string, filename: string): seq<Range> {
    var pruned := Join(PrunedLines(Split(patch, '\n')), '\n');
    Ranges(Effects(Split(Rendered(pruned, filename), '\n')), None)
  }

  /** The print/parse theorem. For a well-formed patch, pruning, rendering and reading back give ranges that
      expand to the seen lines only; they expand to exactly the new-file line numbers of all added lines, in
      order, if and only if every added line quotes neither a hunk marker nor the "no newline" remark and
      stands where the renderer's count has not slipped. */
  lemma ToolChain(patch: string, filename: string)
    requires WellFormed(Split(patch, '\n'))
    ensures forall r :: r in ReadBack(patch, filename) ==> r.start <= r.end
    ensures Expand(ReadBack(patch, filename)) == NameNumbers(filename) + ShownFrom(Split(patch, '\n'), 0)
    ensures NameNumbers(filename) == [] ==>
              (Expand(ReadBack(patch, filename)) == AddedLines(patch) <==> InStep(Split(patch, '\n'), 0, 0))
  {
    hide Rendered, PrunedLines, WellFormed, InStep, Ranges, ShownFrom, AddedFrom, Effects, Split, Join, NameNumbers;
    var pruned := Join(PrunedLines(Split(patch, '\n')), '\n');
    RangesExpand(Effects(Split(Rendered(pruned, filename), '\n')), None);
    ReadBackNumbers(patch, filename);
    ShownIsAdded(Split(patch, '\n'), 0, 0);
    assert [] + ShownFrom(Split(patch, '\n'), 0) == ShownFrom(Split(patch, '\n'), 0);
  }

  /** For a patch as diff programs write it the condition needs no count. If it quotes neither marker nor
      remark, the numbers of all added lines come back. */
  lemma RegularToolChain(patch: string, filename: string)
    requires WellFormed(Split(patch, '\n')) && AllRegular(Split(patch, '\n')) && NameNumbers(filename) == []
    ensures forall r :: r in ReadBack(patch, filename) ==> r.start <= r.end
    ensures Expand(ReadBack(patch, filename)) == AddedLines(patch) <==> Unquoted(Split(patch, '\n'), false)
    ensures Quiet(Split(patch, '\n')) ==> Expand(ReadBack(patch, filename)) == AddedLines(patch)
  {
    hide *;
    var lines := Split(patch, '\n');
    ToolChain(patch, filename);
    InStepIffUnquoted(lines, 0, 0);
    if Quiet(lines) {
      QuietIsUnquoted(lines);
    }
  }

  lemma ReadBackNumbers(patch: string, filename: string)
    requires WellFormed(Split(patch, '\n'))
    ensures NumberedAdditions(Rendered(Join(PrunedLines(Split(patch, '\n')), '\n'), filename))
         == NameNumbers(filename) + ShownFrom(Split(patch, '\n'), 0)
  {
    hide *;
    var lines := Split(patch, '\n');
    var kept := PrunedLines(lines);
    var pruned := Join(kept, '\n');
    WellFormedHunks(lines);
    PrunedShows(lines);
    if kept == [] {
      NothingRendered(filename);
      NothingShown();
      assert pruned == "" by { JoinedNothing(); }
    } else {
      SplitPartsFree(patch, '\n');
      PrunedWellFormed(lines);
      SplitJoin(kept, '\n');
      RenderingNumbers(pruned, filename);
    }
  }

  lemma JoinedNothing()
    ensures Join([], '\n') == ""
  {
  }

  lemma NothingShown()
    ensures ShownFrom([], 0) == []
  {
  }

  lemma PrunedWellFormed(lines: seq<string>)
    requires WellFormed(lines) && PrunedLines(lines) != []
    ensures WellFormed(PrunedLines(lines))
    ensures forall line :: line in PrunedLines(lines) ==> line in lines
  {
    hide PrunedLines, IsHeader, MentionsNoNewline, DiffLine;
    WellFormedHunks(lines);
    PruneIsPrefix(lines);
    var kept := PrunedLines(lines);
    assert lines[..|kept|] == kept;
  }

  lemma WellFormedHunks(lines: seq<string>)
    requires WellFormed(lines)
    ensures HunksOnly(lines)
  {
    hide IsHeader, MentionsNoNewline;
  }

  lemma PrunedShows(lines: seq<string>)
    requires HunksOnly(lines)
    ensures ShownFrom(PrunedLines(lines), 0) == ShownFrom(lines, 0)
  {
    hide PrunedLines, HunksOnly;
    PruneIsPrefix(lines);
    var kept := PrunedLines(lines);
    var tail := lines[|kept|..];
    assert lines == kept + tail;
    ShownAppend(kept, tail, 0);
  }

  lemma {:induction false} ShownAppend(a: seq<string>, b: seq<string>, count: nat)
    requires forall line :: line in b ==> !IsAdded(line)
    ensures ShownFrom(a + b, count) == ShownFrom(a, count)
    decreases |a| + |b|
  {
    hide CountAfter, IsAdded, HasMarker, MentionsNoNewline;
    if a != [] {
      assert (a + b)[1..] == a[1..] + b;
      ShownAppend(a[1..], b, CountAfter(a[0], count));
    } else if b != [] {
      assert a + b == b && [] + b[1..] == b[1..];
      ShownAppend([], b[1..], CountAfter(b[0], count));
    }
  }

  /** A patch pruned to nothing renders to the bare file heading. */
  lemma NothingRendered(filename: string)
    ensures NumberedAdditions(Rendered("", filename)) == NameNumbers(filename)
  {
    hide NumberedAdditions, Trim, FileHeading;
    HeadingStarts(filename);
    EmptyRemark();
    var r := Begin(filename);
    assert Split("", '\n') == [""] && [""][1..] == [];
    assert RenderLines(r, [""]) == RenderLine(r, "");
    AdditionsTrim(FileHeading(filename));
  }

  /** The three calls as the review pipeline makes them: a file whose pruned patch is `null` or empty is not
      rendered, and then none of its lines is added. */
  method ModifiedRanges(patch: string, filename: string, editType: string) returns (ranges: seq<Range>)
    requires WellFormed(Split(patch, '\n'))
    ensures forall r :: r in ranges ==> r.start <= r.end
    ensures var heading := if PrunedLines(Split(patch, '\n')) == [] then [] else NameNumbers(filename);
            Expand(ranges) == heading + ShownFrom(Split(patch, '\n'), 0)
    ensures NameNumbers(filename) == [] ==> (Expand(ranges) == AddedLines(patch) <==> InStep(Split(patch, '\n'), 0, 0))
    ensures NameNumbers(filename) == [] && AllRegular(Split(patch, '\n')) ==>
              (Expand(ranges) == AddedLines(patch) <==> Unquoted(Split(patch, '\n'), false))
  {
    hide Rendered, PrunedLines, WellFormed, Ranges, ShownFrom, AddedFrom, InStep, NameNumbers, AllRegular, Unquoted;
    if AllRegular(Split(patch, '\n')) {
      InStepIffUnquoted(Split(patch, '\n'), 0, 0);
    }
    ToolChain(patch, filename);
    NotEmpty(patch);
    PrunedText(Split(patch, '\n'));
    var pruned := HandlePatchDeletions(Some(patch), editType);
    if pruned.Patch? && pruned.text != "" {
      var rendered := ConvertToHunksWithLinesNumbers(pruned.text, filename);
      ranges := ExtractLinesFromDiffHunk(rendered);
    } else {
      ShownIsAdded(Split(patch, '\n'), 0, 0);
      ranges := [];
    }
  }

  /** The pruned text is empty exactly if no line is kept, and then no line is shown. */
  lemma PrunedText(lines: seq<string>)
    requires WellFormed(lines)
    ensures Join(PrunedLines(lines), '\n') == "" <==> PrunedLines(lines) == []
    ensures PrunedLines(lines) == [] ==> ShownFrom(lines, 0) == []
  {
    WellFormedHunks(lines);
    PrunedShows(lines);
    NothingShown();
    JoinedNothing();
    if PrunedLines(lines) != [] {
      PrunedWellFormed(lines);
      JoinedHeader(PrunedLines(lines));
    }
  }

  lemma JoinedHeader(lines: seq<string>)
    requires lines != [] && IsHeader(lines[0])
    ensures Join(lines, '\n') != ""
  {
  }

  lemma NotEmpty(patch: string)
    requires WellFormed(Split(patch, '\n'))
    ensures patch != ""
  {
  }
}
