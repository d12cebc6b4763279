/** `convertToHunksWithLinesNumbers`: hunks rendered with new-file line numbers. */
module PatchRender {
  import opened Text
  import opened PatchLines

  /** `${start + i} ${line}\n` for every line. */
  function NumberLines(start: int, lines: seq<string>): string
    decreases |lines|
  {
    if lines == [] then ""
    else (IntText(start) + " " + lines[0] + "\n") + NumberLines(start + 1, lines[1..])
  }

  function PlainLines(lines: seq<string>): string {
    if lines == [] then "" else (lines[0] + "\n") + PlainLines(lines[1..])
  }

  predicate AnyStartsWith(lines: seq<string>, sign: string) {
    exists line | line in lines :: sign <= line
  }

  /** The text after the "new hunk" part is appended, if the hunk adds anything. */
  function WithNewHunk(text: string, start: int, lines: seq<string>): string {
    if AnyStartsWith(lines, "+")
    then TrimEnd(text) + "\n__new hunk__\n" + NumberLines(start, lines)
    else text
  }

  /** The text after the "old hunk" part is appended, if the hunk removes anything. */
  function WithOldHunk(text: string, lines: seq<string>): string {
    if AnyStartsWith(lines, "-")
    then TrimEnd(text) + "\n__old hunk__\n" + PlainLines(lines)
    else text
  }

  method AppendNewHunk(text: string, start2: int, newContentLines: seq<string>) returns (r: string)
    ensures r == WithNewHunk(text, start2, newContentLines)
  {
    hide IntText, TrimEnd, AnyStartsWith;
    var isPlusLines := AnyStartsWith(newContentLines, "+");
    if !isPlusLines {
      return text;
    }
    r := TrimEnd(text) + "\n__new hunk__\n";
    ghost var whole := r + NumberLines(start2, newContentLines);
    for i := 0 to |newContentLines|
      invariant r + NumberLines(start2 + i, newContentLines[i..]) == whole
    {
      assert newContentLines[i..][1..] == newContentLines[i + 1..];
      ghost var rest := NumberLines(start2 + i + 1, newContentLines[i + 1..]);
      var piece := IntText(start2 + i) + " " + newContentLines[i] + "\n";
      assert r + (piece + rest) == (r + piece) + rest;
      r := r + piece;
    }
  }

  method AppendOldHunk(text: string, oldContentLines: seq<string>) returns (r: string)
    ensures r == WithOldHunk(text, oldContentLines)
  {
    hide TrimEnd, AnyStartsWith;
    var isMinusLines := AnyStartsWith(oldContentLines, "-");
    if !isMinusLines {
      return text;
    }
    r := TrimEnd(text) + "\n__old hunk__\n";
    ghost var whole := r + PlainLines(oldContentLines);
    for i := 0 to |oldContentLines|
      invariant r + PlainLines(oldContentLines[i..]) == whole
    {
      assert oldContentLines[i..][1..] == oldContentLines[i + 1..];
      ghost var rest := PlainLines(oldContentLines[i + 1..]);
      var piece := oldContentLines[i] + "\n";
      assert r + (piece + rest) == (r + piece) + rest;
      r := r + piece;
    }
  }

  /** The variables of the rendering loop; `matched` says whether the last "@@" line was a valid
      header. */
  datatype Render = Render(
    text: string,
    news: seq<string>,
    olds: seq<string>,
    start: int,
    prevHeader: string,
    header: string,
    matched: bool)

  function FileHeading(filename: string): string {
    "\n\n## file: '" + Trim(filename) + "'\n"
  }

  function Begin(filename: string): Render {
    Render(FileHeading(filename), [], [], -1, "", "", false)
  }

  /** The hunk read so far, written out under the last valid header. */
  function Flushed(r: Render): string {
    WithOldHunk(
      WithNewHunk(if r.prevHeader == "" then r.text else r.text + "\n" + r.prevHeader + "\n",
                  r.start, r.news),
      r.olds)
  }

  function AtHeader(r: Render, line: string): Render {
    match ParseHeader(line)
    case None => r.(header := line, matched := false)
    case Some(start) =>
      var text := if r.news != [] || r.olds != [] then Flushed(r) else r.text;
      Render(text, [], [], start, line, line, true)
  }

  function RenderLine(r: Render, line: string): Render {
    if MentionsNoNewline(line) then r
    else if "@@" <= line then AtHeader(r, line)
    else if "+" <= line then r.(news := r.news + [line])
    else if "-" <= line then r.(olds := r.olds + [line])
    else r.(news := r.news + [line], olds := r.olds + [line])
  }

  function RenderLines(r: Render, lines: seq<string>): Render
    decreases |lines|
  {
    if lines == [] then r else RenderLines(RenderLine(r, lines[0]), lines[1..])
  }

  /** The last hunk is written only if the last "@@" line was valid and a line is left to number. */
  function Finished(r: Render): string {
    if r.matched && r.news != []
    then WithOldHunk(WithNewHunk(r.text + "\n" + r.header + "\n", r.start, r.news), r.olds)
    else r.text
  }

  function Rendered(patch: string, filename: string): string {
    Trim(Finished(RenderLines(Begin(filename), Split(patch, '\n'))))
  }

  method ConvertToHunksWithLinesNumbers(patch: string, filename: string) returns (r: string)
    ensures r == Rendered(patch, filename)
  {
    hide MentionsNoNewline, ParseHeader, WithNewHunk, WithOldHunk, Trim;
    var patchWithLinesStr := "\n\n## file: '" + Trim(filename) + "'\n";
    var patchLines := Split(patch, '\n');
    var newContentLines: seq<string> := [];
    var oldContentLines: seq<string> := [];
    var start2: int := -1;
    var prevHeaderLine, headerLine, matched := "", "", false;
    assert patchLines[0..] == patchLines;
    for i := 0 to |patchLines|
      invariant RenderLines(Render(patchWithLinesStr, newContentLines, oldContentLines, start2,
                                   prevHeaderLine, headerLine, matched), patchLines[i..])
             == RenderLines(Begin(filename), patchLines)
    {
      var line := patchLines[i];
      assert patchLines[i..][1..] == patchLines[i + 1..];
      if MentionsNoNewline(line) {
        continue;
      }
      if "@@" <= line {
        headerLine := line;
        var match_ := ParseHeader(line);
        matched := match_.Some?;
        if matched && (|newContentLines| > 0 || |oldContentLines| > 0) {
          if prevHeaderLine != "" {
            patchWithLinesStr := patchWithLinesStr + "\n" + prevHeaderLine + "\n";
          }
          patchWithLinesStr := AppendNewHunk(patchWithLinesStr, start2, newContentLines);
          patchWithLinesStr := AppendOldHunk(patchWithLinesStr, oldContentLines);
          newContentLines := [];
          oldContentLines := [];
        }
        if matched {
          prevHeaderLine := headerLine;
          start2 := match_.value;
        }
      } else if "+" <= line {
        newContentLines := newContentLines + [line];
      } else if "-" <= line {
        oldContentLines := oldContentLines + [line];
      } else {
        newContentLines := newContentLines + [line];
        oldContentLines := oldContentLines + [line];
      }
    }
    if matched && |newContentLines| > 0 {
      patchWithLinesStr := patchWithLinesStr + "\n" + headerLine + "\n";
      patchWithLinesStr := AppendNewHunk(patchWithLinesStr, start2, newContentLines);
      patchWithLinesStr := AppendOldHunk(patchWithLinesStr, oldContentLines);
    }
    r := Trim(patchWithLinesStr);
  }
}
