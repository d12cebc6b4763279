/** Lines of a unified diff: hunk headers, body lines, and the new-file line numbers that the
    POSIX.1-2017 `diff -u` format gives to added lines. */
module PatchLines {
  import opened Text

  const NEW_HUNK := "__new hunk__"
  const OLD_HUNK := "__old hunk__"
  const NO_NEWLINE := "no newline at end of file"

  /** What `(\d+)(?:,(\d+))?` takes from the front of `s`: the first number and the rest. */
  function TakeRange(s: string): Option<(nat, string)> {
    var k := DigitRun(s);
    if k == 0 then None
    else
      var rest := s[k..];
      var m := if "," <= rest then DigitRun(rest[1..]) else 0;
      Some((ParseNat(s[..k]), if m == 0 then rest else rest[1 + m..]))
  }

  /** The header expression `^@@ -a(,b)? \+c(,d)? @@`: the new-file start `c`. */
  function ParseHeader(line: string): Option<nat> {
    if !("@@ -" <= line) then None
    else
      match TakeRange(line[4..])
      case None => None
      case Some((_, afterOld)) =>
        if !(" +" <= afterOld) then None
        else
          match TakeRange(afterOld[2..])
          case None => None
          case Some((start, afterNew)) => if " @@" <= afterNew then Some(start) else None
  }

  predicate IsHeader(line: string) {
    ParseHeader(line).Some?
  }

  predicate MentionsNoNewline(line: string) {
    Contains(Lower(line), NO_NEWLINE)
  }

  predicate HasMarker(line: string) {
    Contains(line, NEW_HUNK) || Contains(line, OLD_HUNK)
  }

  predicate IsAdded(line: string) {
    "+" <= line
  }

  lemma HeaderShape(line: string)
    requires IsHeader(line)
    ensures "@@" <= line && !IsAdded(line) && !IsSkipped(line)
  {
    assert line[0] == '@' && line[1] == '@';
  }

  /** A body line that is in neither file: a removal, or the "\ No newline" remark. */
  predicate IsSkipped(line: string) {
    "-" <= line || "\\" <= line
  }

  /** The number of the new-file line that follows `line`: a header restarts the count, added and
      context lines advance it. */
  function NumberAfter(line: string, next: nat): nat {
    match ParseHeader(line)
    case Some(start) => start
    case None => if IsSkipped(line) then next else next + 1
  }

  /** New-file numbers of the added lines, `next` being the number of the next new-file line. */
  function AddedFrom(lines: seq<string>, next: nat): seq<nat> {
    if lines == [] then []
    else (if IsAdded(lines[0]) then [next] else []) + AddedFrom(lines[1..], NumberAfter(lines[0], next))
  }

  function AddedLines(patch: string): seq<nat> {
    AddedFrom(Split(patch, '\n'), 0)
  }

  /** A line of a unified diff: one that starts with "@@" is a valid header, and no other starts with a
      digit. */
  predicate DiffLine(line: string) {
    if "@@" <= line then IsHeader(line) else line == "" || !IsDigit(line[0])
  }

  /** A patch the tool chain is meant for. It starts with a hunk header, one that the renderer does not
      take for a "no newline" remark. */
  predicate WellFormed(lines: seq<string>) {
    && lines != [] && IsHeader(lines[0]) && !MentionsNoNewline(lines[0])
    && forall line :: line in lines ==> DiffLine(line)
  }

  lemma {:induction false} NothingAdded(lines: seq<string>, next: nat)
    requires forall line :: line in lines ==> !IsAdded(line)
    ensures AddedFrom(lines, next) == []
  {
    hide NumberAfter, IsAdded;
    if lines != [] {
      NothingAdded(lines[1..], NumberAfter(lines[0], next));
    }
  }

  /** Lines after the last addition number nothing. */
  lemma {:induction false} AddedFromAppend(a: seq<string>, b: seq<string>, next: nat)
    requires forall line :: line in b ==> !IsAdded(line)
    ensures AddedFrom(a + b, next) == AddedFrom(a, next)
  {
    hide NumberAfter, IsAdded;
    if a == [] {
      assert a + b == b;
      NothingAdded(b, next);
    } else {
      assert (a + b)[1..] == a[1..] + b;
      AddedFromAppend(a[1..], b, NumberAfter(a[0], next));
    }
  }
}
