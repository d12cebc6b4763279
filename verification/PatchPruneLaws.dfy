/** What pruning promises: no addition is lost or renumbered, it is idempotent, and it removes the
    hunks its documentation names exactly when those hunks all trail. */
module PatchPruneLaws {
  import opened PatchLines
  import opened PatchPrune

  lemma {:induction false} KeptAll(lines: seq<string>)
    requires forall line :: line in lines ==> IsKept(line)
    ensures Kept(lines) == lines
  {
    hide IsKept;
    if lines != [] {
      var init, last := lines[..|lines| - 1], lines[|lines| - 1];
      KeptAll(init);
      assert IsKept(last) && lines == init + [last];
    }
  }

  lemma {:induction false} KeptIsKept(lines: seq<string>)
    ensures forall line :: line in Kept(lines) ==> IsKept(line)
  {
    hide IsKept;
    if lines != [] {
      KeptIsKept(lines[..|lines| - 1]);
    }
  }

  lemma {:induction false} KindsAt(lines: seq<string>, i: nat)
    requires i < |lines|
    ensures Kinds(lines)[i] == KindOf(lines[i])
  {
    if i < |lines| - 1 {
      KindsAt(lines[..|lines| - 1], i);
    }
  }

  lemma {:induction false} KindsAppend(a: seq<string>, b: seq<string>)
    ensures Kinds(a + b) == Kinds(a) + Kinds(b)
  {
    if b == [] {
      assert a + b == a;
    } else {
      assert (a + b)[..|a + b| - 1] == a + b[..|b| - 1];
      KindsAppend(a, b[..|b| - 1]);
    }
  }

  lemma KindsSplit(lines: seq<string>, n: nat)
    requires n <= |lines|
    ensures Kinds(lines[..n]) == Kinds(lines)[..n]
    ensures Kinds(lines[n..]) == Kinds(lines)[n..]
  {
    KindsAppend(lines[..n], lines[n..]);
    assert lines == lines[..n] + lines[n..];
  }

  /** A second pruning changes nothing, for every text. */
  lemma PruneIdempotent(lines: seq<string>)
    ensures PrunedLines(PrunedLines(lines)) == PrunedLines(lines)
  {
    var kept := Kept(lines);
    var kinds := Kinds(kept);
    var k := CutLength(kinds);
    KeptIsKept(lines);
    KeptAll(kept[..k]);
    KindsSplit(kept, k);
    CutLengthCuts(kinds);
    CutOfCut(kinds, k);
    CutLengthCuts(kinds[..k]);
    CutUnique(kinds[..k], k, CutLength(kinds[..k]));
  }

  lemma CutOfCut(kinds: seq<Kind>, k: nat)
    requires k <= |kinds| && IsCut(kinds, k)
    ensures IsCut(kinds[..k], k)
  {
    forall lo: nat, hi: nat | lo <= hi <= k
      ensures AddedIn(kinds[..k], lo, hi) == AddedIn(kinds, lo, hi)
      ensures HeaderIn(kinds[..k], lo, hi) == HeaderIn(kinds, lo, hi)
    {
      SameAdded(kinds[..k], kinds, lo, hi);
    }
    forall i | 0 <= i < k && LaterHunk(kinds[..k], i) ensures LaterHunk(kinds, i) {
    }
  }

  /** Every "@@" line is a valid hunk header, and the first line is one. */
  predicate HunksOnly(lines: seq<string>) {
    && (lines != [] ==> IsHeader(lines[0]))
    && forall line :: line in lines ==> IsKept(line)
  }

  /** On hunks the result is a prefix of the patch, nothing behind it is an addition, and it is empty or
      ends in an adding hunk. */
  lemma PruneIsPrefix(lines: seq<string>)
    requires HunksOnly(lines)
    ensures var k := |PrunedLines(lines)|;
            && PrunedLines(lines) <= lines
            && (forall line :: line in lines[k..] ==> !IsAdded(line))
            && HunksOnly(lines[..k])
            && (k > 0 ==> EndsInAddingHunk(Kinds(lines), k))
  {
    KeptAll(lines);
    var kinds := Kinds(lines);
    var k := CutLength(kinds);
    CutLengthCuts(kinds);
    if lines != [] {
      KindsAt(lines, 0);
      assert kinds[0] == Header && HeaderIn(kinds, 0, |kinds|);
    }
    forall i | k <= i < |lines| ensures !IsAdded(lines[i]) {
      KindsAt(lines, i);
      if IsHeader(lines[i]) {
        HeaderShape(lines[i]);
      }
      assert !AddedIn(kinds, k, |kinds|);
    }
  }

  /** No added line is lost or renumbered. */
  lemma PruneKeepsNumbers(lines: seq<string>, next: nat)
    requires HunksOnly(lines)
    ensures AddedFrom(PrunedLines(lines), next) == AddedFrom(lines, next)
  {
    hide *;
    PruneSplits(lines);
    var pruned := PrunedLines(lines);
    AddedFromAppend(pruned, lines[|pruned|..], next);
  }

  lemma PruneSplits(lines: seq<string>)
    requires HunksOnly(lines)
    ensures |PrunedLines(lines)| <= |lines|
    ensures lines == PrunedLines(lines) + lines[|PrunedLines(lines)|..]
    ensures forall line :: line in lines[|PrunedLines(lines)|..] ==> !IsAdded(line)
  {
    hide PrunedLines, HunksOnly, EndsInAddingHunk, IsAdded, Kinds;
    PruneIsPrefix(lines);
  }

  /** End of the hunk that starts at the front. */
  function HunkEnd(lines: seq<string>): (k: nat)
    requires lines != []
    ensures 1 <= k <= |lines|
  {
    NextHeader(Kinds(lines), 1)
  }

  predicate AnyAdded(lines: seq<string>) {
    AddedIn(Kinds(lines), 0, |lines|)
  }

  /** What the documentation describes: every hunk without an addition is left out. */
  function AddingHunks(lines: seq<string>): seq<string> {
    if lines == [] then []
    else
      var k := HunkEnd(lines);
      (if AnyAdded(lines[..k]) then lines[..k] else []) + AddingHunks(lines[k..])
  }

  /** Every hunk without an addition stands behind the last addition. */
  predicate DeletionsTrail(lines: seq<string>) {
    if lines == [] then true
    else
      var k := HunkEnd(lines);
      (AnyAdded(lines[..k]) || !AnyAdded(lines[k..])) && DeletionsTrail(lines[k..])
  }

  lemma ShiftIn(kinds: seq<Kind>, k: nat, lo: nat, hi: nat)
    requires k <= |kinds| && lo <= hi <= |kinds| - k
    ensures AddedIn(kinds[k..], lo, hi) == AddedIn(kinds, k + lo, k + hi)
    ensures HeaderIn(kinds[k..], lo, hi) == HeaderIn(kinds, k + lo, k + hi)
  {
    assert forall j | lo <= j < hi :: kinds[k..][j] == kinds[k + j];
    assert forall j | k + lo <= j < k + hi :: kinds[j] == kinds[k..][j - k];
  }

  /** Pruning, hunk by hunk: with an addition anywhere, the first hunk stays. */
  lemma CutByHunk(kinds: seq<Kind>, k: nat)
    requires kinds != [] && kinds[0] == Header && k == NextHeader(kinds, 1)
    requires AddedIn(kinds, 0, |kinds|)
    ensures IsCut(kinds, k + CutLength(kinds[k..]))
  {
    var rest := kinds[k..];
    CutLengthCuts(rest);
    hide CutLength;
    if CutLength(rest) == 0 {
      CutAfterFirst(kinds, k);
    } else {
      CutAfterRest(kinds, k, CutLength(rest));
    }
  }

  /** No addition behind the first hunk. */
  lemma CutAfterFirst(kinds: seq<Kind>, k: nat)
    requires kinds != [] && kinds[0] == Header && k == NextHeader(kinds, 1)
    requires AddedIn(kinds, 0, |kinds|) && IsCut(kinds[k..], 0)
    ensures IsCut(kinds, k)
  {
    var rest := kinds[k..];
    ShiftIn(kinds, k, 0, |rest|);
    assert !AddedIn(kinds, k, |kinds|) by {
      if rest != [] { assert rest[0] == Header && HeaderIn(rest, 0, |rest|); }
    }
    assert forall i | 0 < i < k :: kinds[i] != Header;
  }

  /** The cut lies behind the first hunk. */
  lemma CutAfterRest(kinds: seq<Kind>, k: nat, c: nat)
    requires kinds != [] && kinds[0] == Header && k == NextHeader(kinds, 1)
    requires 0 < c <= |kinds| - k && IsCut(kinds[k..], c)
    ensures IsCut(kinds, k + c)
  {
    var rest := kinds[k..];
    ShiftIn(kinds, k, 0, c);
    ShiftIn(kinds, k, c, |rest|);
    assert forall i | 0 < i < k :: kinds[i] != Header;
    forall i | 0 <= i < k + c && LaterHunk(kinds, i) ensures AddedIn(kinds, i, k + c) {
      assert i >= k;
      ShiftIn(kinds, k, i - k, c);
      if i > k {
        assert rest[0] == Header && LaterHunk(rest, i - k);
      }
    }
  }

  lemma AddedByHunk(lines: seq<string>)
    requires lines != []
    ensures var k := HunkEnd(lines);
            AnyAdded(lines) == (AnyAdded(lines[..k]) || AnyAdded(lines[k..]))
  {
    hide IsHeader, KindOf;
    var k, kinds := HunkEnd(lines), Kinds(lines);
    KindsSplit(lines, k);
    SameAdded(kinds[..k], kinds, 0, k);
    ShiftIn(kinds, k, 0, |lines| - k);
  }

  lemma HunksAfter(lines: seq<string>)
    requires lines != [] && HunksOnly(lines)
    ensures HunksOnly(lines[HunkEnd(lines)..])
  {
    var k := HunkEnd(lines);
    if k < |lines| {
      KindsAt(lines, k);
    }
  }

  lemma PrunedOfHunks(lines: seq<string>)
    requires HunksOnly(lines)
    ensures PrunedLines(lines) == lines[..CutLength(Kinds(lines))]
  {
    KeptAll(lines);
  }

  lemma PrunedByHunk(lines: seq<string>)
    requires lines != [] && HunksOnly(lines)
    ensures var k := HunkEnd(lines);
            PrunedLines(lines) == if AnyAdded(lines) then lines[..k] + PrunedLines(lines[k..]) else []
  {
    hide *;
    var k := HunkEnd(lines);
    var rest := lines[k..];
    HunksAfter(lines);
    PrunedOfHunks(lines);
    PrunedOfHunks(rest);
    CutOfHunks(lines);
    KindsSplit(lines, k);
    var c := CutLength(Kinds(rest));
    assert c <= |rest|;
    assert lines[..k + c] == lines[..k] + rest[..c];
  }

  lemma CutOfHunks(lines: seq<string>)
    requires lines != [] && HunksOnly(lines)
    ensures var k, kinds := HunkEnd(lines), Kinds(lines);
            CutLength(kinds) == if AnyAdded(lines) then k + CutLength(kinds[k..]) else 0
  {
    hide IsHeader, CutLength;
    var k, kinds := HunkEnd(lines), Kinds(lines);
    CutLengthCuts(kinds);
    if AnyAdded(lines) {
      KindsAt(lines, 0);
      CutByHunk(kinds, k);
      CutUnique(kinds, CutLength(kinds), k + CutLength(kinds[k..]));
    } else {
      CutUnique(kinds, CutLength(kinds), 0);
    }
  }

  /** The documentation ("removing hunks that only contain deletions") is met exactly when no
      deletion-only hunk stands before an addition; otherwise the result is strictly longer. */
  lemma {:induction false} PruneMeetsDocumentation(lines: seq<string>)
    requires HunksOnly(lines)
    ensures |AddingHunks(lines)| <= |PrunedLines(lines)|
    ensures PrunedLines(lines) == AddingHunks(lines) <==> DeletionsTrail(lines)
    ensures DeletionsTrail(lines) <==> |AddingHunks(lines)| == |PrunedLines(lines)|
    ensures !AnyAdded(lines) ==> PrunedLines(lines) == []
    decreases |lines|
  {
    hide IsHeader, PrunedLines, AnyAdded, HunkEnd, HunksOnly;
    if lines == [] {
      PrunedOfHunks(lines);
    } else {
      var k := HunkEnd(lines);
      PrunedByHunk(lines);
      AddedByHunk(lines);
      HunksAfter(lines);
      PruneMeetsDocumentation(lines[k..]);
    }
  }
}
