/** `handlePatchDeletions` and `omitDeletionHunks`: drop the deletion-only end of a patch. */
module PatchPrune {
  import opened Text
  import opened PatchLines

  /** What the pruning looks at in a line. */
  datatype Kind = Header | Added | Other

  function KindOf(line: string): Kind {
    if IsHeader(line) then Header else if IsAdded(line) then Added else Other
  }

  function Kinds(lines: seq<string>): (kinds: seq<Kind>)
    ensures |kinds| == |lines|
  {
    if lines == [] then []
    else Kinds(lines[..|lines| - 1]) + [KindOf(lines[|lines| - 1])]
  }

  lemma KindsSnoc(lines: seq<string>, line: string)
    ensures Kinds(lines + [line]) == Kinds(lines) + [KindOf(line)]
  {
    assert (lines + [line])[..|lines|] == lines;
  }

  /** Some line of the range `lo..hi` is an addition. */
  predicate AddedIn(kinds: seq<Kind>, lo: nat, hi: nat)
    requires hi <= |kinds|
  {
    exists j | lo <= j < hi :: kinds[j] == Added
  }

  /** Some line of the range `lo..hi` is a hunk header. */
  predicate HeaderIn(kinds: seq<Kind>, lo: nat, hi: nat)
    requires hi <= |kinds|
  {
    exists j | lo <= j < hi :: kinds[j] == Header
  }

  predicate IsKept(line: string) {
    "@@" <= line ==> IsHeader(line)
  }

  /** The lines without those that start with "@@" but are no valid header. */
  function Kept(lines: seq<string>): seq<string> {
    if lines == [] then []
    else
      var init, last := lines[..|lines| - 1], lines[|lines| - 1];
      Kept(init) + (if IsKept(last) then [last] else [])
  }

  /** A second or later hunk of `lines` starts at `i`. */
  predicate LaterHunk(kinds: seq<Kind>, i: nat)
    requires i < |kinds|
  {
    kinds[i] == Header && HeaderIn(kinds, 0, i)
  }

  /** The last hunk of `lines[..k]` contains an addition (the first hunk counts whatever stands
      before its header). */
  predicate EndsInAddingHunk(kinds: seq<Kind>, k: nat)
    requires k <= |kinds|
  {
    && HeaderIn(kinds, 0, k) && AddedIn(kinds, 0, k)
    && forall i | 0 <= i < k && LaterHunk(kinds, i) :: AddedIn(kinds, i, k)
  }

  /** `lines[..k]` is the prefix through the last hunk that contains an addition. */
  predicate IsCut(kinds: seq<Kind>, k: nat)
    requires k <= |kinds|
  {
    if k == 0 then
      !HeaderIn(kinds, 0, |kinds|) || !AddedIn(kinds, 0, |kinds|)
    else
      && EndsInAddingHunk(kinds, k)
      && !AddedIn(kinds, k, |kinds|)
      && (k < |kinds| ==> kinds[k] == Header)
  }

  lemma CutNotLonger(kinds: seq<Kind>, k: nat, m: nat)
    requires k < m <= |kinds| && IsCut(kinds, k)
    ensures !IsCut(kinds, m)
  {
    if k > 0 {
      assert LaterHunk(kinds, k);
      assert !AddedIn(kinds, k, m);
    }
  }

  /** There is only one such prefix. */
  lemma CutUnique(kinds: seq<Kind>, k: nat, m: nat)
    requires k <= |kinds| && m <= |kinds|
    requires IsCut(kinds, k) && IsCut(kinds, m)
    ensures k == m
  {
    if k < m {
      CutNotLonger(kinds, k, m);
    } else if m < k {
      CutNotLonger(kinds, m, k);
    }
  }

  /** First header after position `i`, or the end. */
  function NextHeader(kinds: seq<Kind>, i: nat): (k: nat)
    requires i <= |kinds|
    ensures i <= k <= |kinds| && !HeaderIn(kinds, i, k)
    ensures k < |kinds| ==> kinds[k] == Header
    decreases |kinds| - i
  {
    if i == |kinds| || kinds[i] == Header then i else NextHeader(kinds, i + 1)
  }

  /** One past the last addition, or 0. */
  function AfterLastAdded(kinds: seq<Kind>, n: nat): (k: nat)
    requires n <= |kinds|
    ensures k <= n && !AddedIn(kinds, k, n)
    ensures k > 0 ==> kinds[k - 1] == Added
  {
    if n == 0 || kinds[n - 1] == Added then n else AfterLastAdded(kinds, n - 1)
  }

  /** Length of the prefix that survives. */
  function CutLength(kinds: seq<Kind>): (k: nat)
    ensures k <= |kinds|
  {
    var first := NextHeader(kinds, 0);
    var last := AfterLastAdded(kinds, |kinds|);
    if first == |kinds| || last == 0 then 0
    else NextHeader(kinds, if last <= first then first + 1 else last)
  }

  lemma CutLengthCuts(kinds: seq<Kind>)
    ensures IsCut(kinds, CutLength(kinds))
  {
    var first := NextHeader(kinds, 0);
    var last := AfterLastAdded(kinds, |kinds|);
    if first < |kinds| && last > 0 {
      var from := if last <= first then first + 1 else last;
      var k := NextHeader(kinds, from);
      assert first < k && kinds[first] == Header;
      assert last - 1 < k && kinds[last - 1] == Added;
      forall i | 0 <= i < k && LaterHunk(kinds, i) ensures AddedIn(kinds, i, k) {
        assert first < i < last;
      }
    }
  }

  function PrunedLines(lines: seq<string>): seq<string> {
    var kept := Kept(lines);
    kept[..CutLength(Kinds(kept))]
  }

  /** How far the scan has got: `kept` is cut at `a`, and the open part `kept[a..]` holds no
      addition before a later header. */
  ghost predicate Scanning(kept: seq<Kind>, a: nat) {
    && a <= |kept|
    && (a > 0 ==> a < |kept| && kept[a] == Header && EndsInAddingHunk(kept, a))
    && forall i | a < i < |kept| && LaterHunk(kept, i) :: !AddedIn(kept, a, i)
  }

  /** Scanning one more line that does not close an adding hunk. */
  lemma ScanLine(kept: seq<Kind>, a: nat, line: Kind)
    requires Scanning(kept, a)
    requires line == Header ==> !(HeaderIn(kept, 0, |kept|) && AddedIn(kept, a, |kept|))
    ensures Scanning(kept + [line], a)
  {
    var k' := kept + [line];
    forall i | 0 <= i < |kept| && LaterHunk(k', i) ensures LaterHunk(kept, i) {
      var j :| 0 <= j < i && k'[j] == Header;
      assert kept[j] == Header;
    }
    forall lo: nat, hi: nat | lo <= hi <= |kept| ensures AddedIn(k', lo, hi) == AddedIn(kept, lo, hi) {
      SameAdded(kept, k', lo, hi);
    }
    if a > 0 {
      var h :| 0 <= h < a && kept[h] == Header;
      assert k'[h] == Header;
    }
    if LaterHunk(k', |kept|) {
      var j :| 0 <= j < |kept| && k'[j] == Header;
      assert kept[j] == Header;
      assert !AddedIn(kept, a, |kept|);
    }
  }

  lemma SameAdded(kept: seq<Kind>, longer: seq<Kind>, lo: nat, hi: nat)
    requires kept <= longer && hi <= |kept|
    ensures AddedIn(longer, lo, hi) == AddedIn(kept, lo, hi)
    ensures HeaderIn(longer, lo, hi) == HeaderIn(kept, lo, hi)
  {
    assert forall j | lo <= j < hi :: longer[j] == kept[j];
  }

  /** A scanned text whose open part holds an addition ends in an adding hunk. */
  lemma ScannedAdds(kept: seq<Kind>, a: nat)
    requires Scanning(kept, a)
    requires HeaderIn(kept, 0, |kept|) && AddedIn(kept, a, |kept|)
    ensures EndsInAddingHunk(kept, |kept|)
  {
    var j :| a <= j < |kept| && kept[j] == Added;
    forall i | 0 <= i < |kept| && LaterHunk(kept, i) ensures AddedIn(kept, i, |kept|) {
      if i > a {
        assert !AddedIn(kept, a, i);
      }
    }
  }

  /** Reaching a header with an addition in the open part closes that part. */
  lemma ScanClose(kept: seq<Kind>, a: nat, line: Kind)
    requires Scanning(kept, a) && line == Header
    requires HeaderIn(kept, 0, |kept|) && AddedIn(kept, a, |kept|)
    ensures Scanning(kept + [line], |kept|)
  {
    ScannedAdds(kept, a);
    var k' := kept + [line];
    SameAdded(kept, k', 0, |kept|);
    forall i | 0 <= i < |kept| && LaterHunk(k', i) ensures AddedIn(k', i, |kept|) {
      SameAdded(kept, k', 0, i);
      SameAdded(kept, k', i, |kept|);
      assert LaterHunk(kept, i);
    }
  }

  /** The scan's whole loop state: `kept` is what it has kept, `a` where the open part starts. */
  ghost predicate ScanState(kept: seq<Kind>, a: nat, addHunk: bool, insideHunk: bool) {
    && Scanning(kept, a)
    && insideHunk == HeaderIn(kept, 0, |kept|)
    && addHunk == AddedIn(kept, a, |kept|)
  }

  lemma StepBody(kept: seq<Kind>, a: nat, addHunk: bool, insideHunk: bool, line: Kind)
    requires ScanState(kept, a, addHunk, insideHunk) && line != Header
    ensures ScanState(kept + [line], a, addHunk || line == Added, insideHunk)
  {
    ScanLine(kept, a, line);
    SameAdded(kept, kept + [line], a, |kept|);
    SameAdded(kept, kept + [line], 0, |kept|);
    assert (kept + [line])[|kept|] == line;
  }

  lemma StepHeader(kept: seq<Kind>, a: nat, addHunk: bool, insideHunk: bool, line: Kind)
    requires ScanState(kept, a, addHunk, insideHunk) && line == Header
    ensures ScanState(kept + [line], if insideHunk && addHunk then |kept| else a,
                      addHunk && !insideHunk, true)
  {
    if insideHunk && addHunk {
      ScanClose(kept, a, line);
    } else {
      ScanLine(kept, a, line);
    }
    SameAdded(kept, kept + [line], a, |kept|);
    assert (kept + [line])[|kept|] == line;
  }

  lemma ScanDone(kept: seq<Kind>, a: nat, addHunk: bool, insideHunk: bool)
    requires ScanState(kept, a, addHunk, insideHunk)
    ensures CutLength(kept) == if insideHunk && addHunk then |kept| else a
  {
    var k := if insideHunk && addHunk then |kept| else a;
    if insideHunk && addHunk {
      ScannedAdds(kept, a);
    }
    assert IsCut(kept, k);
    CutLengthCuts(kept);
    CutUnique(kept, k, CutLength(kept));
  }

  /** The variables of the scan. */
  datatype Scan = Scan(added: seq<string>, temp: seq<string>, addHunk: bool, insideHunk: bool)

  function ScanStep(s: Scan, line: string): Scan {
    if "@@" <= line then
      if !IsHeader(line) then s
      else if s.insideHunk && s.addHunk then Scan(s.added + s.temp, [line], false, true)
      else Scan(s.added, s.temp + [line], s.addHunk, true)
    else
      Scan(s.added, s.temp + [line], s.addHunk || IsAdded(line), s.insideHunk)
  }

  ghost predicate ScanAt(lines: seq<string>, n: nat, s: Scan)
    requires n <= |lines|
  {
    && Kept(lines[..n]) == s.added + s.temp
    && ScanState(Kinds(s.added + s.temp), |s.added|, s.addHunk, s.insideHunk)
  }

  lemma ScanStepKeeps(lines: seq<string>, n: nat, s: Scan)
    requires n < |lines| && ScanAt(lines, n, s)
    ensures ScanAt(lines, n + 1, ScanStep(s, lines[n]))
  {
    var line := lines[n];
    KeptSnoc(lines, n);
    hide Kept, Kinds, ScanState, ParseHeader;
    if IsKept(line) {
      if IsHeader(line) {
        HeaderKeeps(s, line);
      } else {
        BodyKeeps(s, line);
      }
    }
  }

  lemma KeptSnoc(lines: seq<string>, n: nat)
    requires n < |lines|
    ensures Kept(lines[..n + 1]) == Kept(lines[..n]) + if IsKept(lines[n]) then [lines[n]] else []
  {
    hide IsKept;
    assert lines[..n + 1][..n] == lines[..n];
  }

  lemma HeaderKeeps(s: Scan, line: string)
    requires ScanState(Kinds(s.added + s.temp), |s.added|, s.addHunk, s.insideHunk) && IsHeader(line)
    ensures var r := ScanStep(s, line);
            r.added + r.temp == s.added + s.temp + [line]
            && ScanState(Kinds(r.added + r.temp), |r.added|, r.addHunk, r.insideHunk)
  {
    hide ScanState, ParseHeader;
    var kept := s.added + s.temp;
    HeaderShape(line);
    KindsSnoc(kept, line);
    StepHeader(Kinds(kept), |s.added|, s.addHunk, s.insideHunk, Header);
    assert s.added + (s.temp + [line]) == kept + [line];
  }

  lemma BodyKeeps(s: Scan, line: string)
    requires ScanState(Kinds(s.added + s.temp), |s.added|, s.addHunk, s.insideHunk)
    requires IsKept(line) && !IsHeader(line)
    ensures var r := ScanStep(s, line);
            r.added + r.temp == s.added + s.temp + [line]
            && ScanState(Kinds(r.added + r.temp), |r.added|, r.addHunk, r.insideHunk)
  {
    hide ScanState, ParseHeader;
    var kept := s.added + s.temp;
    KindsSnoc(kept, line);
    StepBody(Kinds(kept), |s.added|, s.addHunk, s.insideHunk, KindOf(line));
    assert s.added + (s.temp + [line]) == kept + [line];
  }

  lemma ScanStart(lines: seq<string>)
    ensures ScanAt(lines, 0, Scan([], [], false, false))
  {
  }

  lemma PrunedByScan(lines: seq<string>, s: Scan)
    requires ScanAt(lines, |lines|, s)
    ensures PrunedLines(lines) == if s.insideHunk && s.addHunk then s.added + s.temp else s.added
  {
    assert lines[..|lines|] == lines;
    ScanDone(Kinds(s.added + s.temp), |s.added|, s.addHunk, s.insideHunk);
  }

  method OmitDeletionHunks(patchLines: seq<string>) returns (r: string)
    ensures r == Join(PrunedLines(patchLines), '\n')
  {
    var tempHunk: seq<string> := [];
    var addedPatched: seq<string> := [];
    var addHunk, insideHunk := false, false;
    ScanStart(patchLines);
    hide ScanAt, ParseHeader, PrunedLines;
    for n := 0 to |patchLines|
      invariant ScanAt(patchLines, n, Scan(addedPatched, tempHunk, addHunk, insideHunk))
    {
      var line := patchLines[n];
      ghost var before := Scan(addedPatched, tempHunk, addHunk, insideHunk);
      ScanStepKeeps(patchLines, n, before);
      if "@@" <= line {
        if IsHeader(line) {
          if insideHunk && addHunk {
            addedPatched := addedPatched + tempHunk;
            tempHunk := [];
            addHunk := false;
          }
          tempHunk := tempHunk + [line];
          insideHunk := true;
        }
      } else {
        tempHunk := tempHunk + [line];
        if IsAdded(line) {
          addHunk := true;
        }
      }
      assert Scan(addedPatched, tempHunk, addHunk, insideHunk) == ScanStep(before, line);
    }
    PrunedByScan(patchLines, Scan(addedPatched, tempHunk, addHunk, insideHunk));
    if insideHunk && addHunk {
      addedPatched := addedPatched + tempHunk;
    }
    r := Join(addedPatched, '\n');
  }

  /** What the call gives back: `null`, a patch, or the TypeError of iterating `undefined`. */
  datatype Pruned = Null | Patch(text: string) | TypeError

  function PruneResult(patch: Option<string>, editType: string): Pruned {
    if (patch.None? || patch.value == "") && editType != "modified" && editType != "added" then Null
    else if patch.None? then TypeError
    else Patch(Join(PrunedLines(Split(patch.value, '\n')), '\n'))
  }

  method HandlePatchDeletions(patch: Option<string>, editType: string) returns (r: Pruned)
    ensures r == PruneResult(patch, editType)
  {
    if (patch.None? || patch.value == "") && editType != "modified" && editType != "added" {
      return Null;
    }
    if patch.None? {
      return TypeError;
    }
    var patchNew := OmitDeletionHunks(Split(patch.value, '\n'));
    if patch.value != patchNew {
      return Patch(patchNew);
    }
    return Patch(patch.value);
  }
}
