/** `extractLinesFromDiffHunk`: from rendered hunks back to the ranges of modified lines. */
module PatchExtract {
  import opened Text
  import opened PatchLines

  datatype Range = Range(start: nat, end: nat)

  /** What one line does to the range under construction. */
  datatype Effect = Skip | Close | Add(n: nat)

  /** `^(\d+) ([+-])`: the number and the sign. */
  function NumberedChange(line: string): Option<(nat, char)> {
    var k := DigitRun(line);
    if k > 0 && k + 1 < |line| && line[k] == ' ' && (line[k + 1] == '+' || line[k + 1] == '-')
    then Some((ParseNat(line[..k]), line[k + 1]))
    else None
  }

  /** The header expression, not anchored to the start of the line. */
  predicate MentionsHeader(line: string) {
    exists p | 0 <= p <= |line| :: IsHeader(line[p..])
  }

  function EffectOf(line: string): Effect {
    if "@@" <= line then (if MentionsHeader(line) then Close else Skip)
    else if HasMarker(line) then Skip
    else
      match NumberedChange(line)
      case None => Close
      case Some((n, sign)) => if sign == '+' then Add(n) else Skip
  }

  function Effects(lines: seq<string>): seq<Effect> {
    if lines == [] then [] else [EffectOf(lines[0])] + Effects(lines[1..])
  }

  /** The numbers that `Add` carries, in order. */
  function Numbers(effects: seq<Effect>): seq<nat> {
    if effects == [] then []
    else (if effects[0].Add? then [effects[0].n] else []) + Numbers(effects[1..])
  }

  /** The numbered '+' lines of a text, in order, leaving out "@@" and marker lines. */
  function NumberedAdditions(text: string): seq<nat> {
    Numbers(Effects(Split(text, '\n')))
  }

  function Opened(current: Option<Range>): seq<Range> {
    match current
    case None => []
    case Some(r) => [r]
  }

  /** The ranges one line completes, and the range left open. */
  function Step(effect: Effect, current: Option<Range>): (seq<Range>, Option<Range>) {
    match effect
    case Skip => ([], current)
    case Close => (Opened(current), None)
    case Add(n) =>
      if current.Some? && n == current.value.end + 1
      then ([], Some(Range(current.value.start, n)))
      else (Opened(current), Some(Range(n, n)))
  }

  /** The ranges still to come, `current` being the open one. */
  function Ranges(effects: seq<Effect>, current: Option<Range>): seq<Range> {
    if effects == [] then Opened(current)
    else
      var (done, open) := Step(effects[0], current);
      done + Ranges(effects[1..], open)
  }

  lemma RangesStep(lines: seq<string>, i: nat, before: seq<Range>, current: Option<Range>)
    requires i < |lines|
    ensures var (done, open) := Step(EffectOf(lines[i]), current);
            before + Ranges(Effects(lines[i..]), current)
            == (before + done) + Ranges(Effects(lines[i + 1..]), open)
  {
    hide EffectOf, Step;
    assert lines[i..][1..] == lines[i + 1..];
    var effects, rest := Effects(lines[i..]), Effects(lines[i + 1..]);
    assert effects[1..] == rest;
    var (done, open) := Step(effects[0], current);
    assert before + (done + Ranges(rest, open)) == (before + done) + Ranges(rest, open);
  }

  method ExtractLinesFromDiffHunk(diffHunk: string) returns (modifiedRanges: seq<Range>)
    ensures modifiedRanges == Ranges(Effects(Split(diffHunk, '\n')), None)
  {
    hide IsHeader, HasMarker, NumberedChange, MentionsHeader, Ranges, Effects;
    var lines := Split(diffHunk, '\n');
    modifiedRanges := [];
    var currentRange: Option<Range> := None;
    assert lines[0..] == lines;
    for i := 0 to |lines|
      invariant modifiedRanges + Ranges(Effects(lines[i..]), currentRange) == Ranges(Effects(lines), None)
    {
      var line := lines[i];
      RangesStep(lines, i, modifiedRanges, currentRange);
      if "@@" <= line {
        if MentionsHeader(line) {
          if currentRange.Some? {
            modifiedRanges := modifiedRanges + [currentRange.value];
            currentRange := None;
          }
        }
        continue;
      }
      if HasMarker(line) {
        continue;
      }
      var lineMatch := NumberedChange(line);
      if lineMatch.Some? {
        var (lineNumber, changeType) := lineMatch.value;
        if changeType == '+' {
          if currentRange.None? {
            currentRange := Some(Range(lineNumber, lineNumber));
          } else if lineNumber == currentRange.value.end + 1 {
            currentRange := Some(Range(currentRange.value.start, lineNumber));
          } else {
            modifiedRanges := modifiedRanges + [currentRange.value];
            currentRange := Some(Range(lineNumber, lineNumber));
          }
        }
      } else {
        if currentRange.Some? {
          modifiedRanges := modifiedRanges + [currentRange.value];
          currentRange := None;
        }
      }
    }
    RangesEnd(lines, currentRange);
    if currentRange.Some? {
      modifiedRanges := modifiedRanges + [currentRange.value];
    }
  }

  lemma RangesEnd(lines: seq<string>, current: Option<Range>)
    ensures Ranges(Effects(lines[|lines|..]), current) == Opened(current)
  {
  }

  /** start, start + 1, ..., end */
  function Interval(r: Range): (s: seq<nat>)
    requires r.start <= r.end
    decreases r.end - r.start
  {
    if r.start == r.end then [r.start] else Interval(Range(r.start, r.end - 1)) + [r.end]
  }

  function Expand(ranges: seq<Range>): seq<nat>
    requires forall r :: r in ranges ==> r.start <= r.end
  {
    if ranges == [] then [] else Interval(ranges[0]) + Expand(ranges[1..])
  }

  lemma {:induction false} ExpandAppend(a: seq<Range>, b: seq<Range>)
    requires forall r :: r in a + b ==> r.start <= r.end
    ensures (forall r :: r in a ==> r.start <= r.end) && (forall r :: r in b ==> r.start <= r.end)
    ensures Expand(a + b) == Expand(a) + Expand(b)
  {
    assert forall r :: r in a || r in b ==> r in a + b;
    if a == [] {
      assert a + b == b;
    } else {
      assert (a + b)[1..] == a[1..] + b;
      ExpandAppend(a[1..], b);
    }
  }

  predicate Ordered(current: Option<Range>) {
    current.Some? ==> current.value.start <= current.value.end
  }

  lemma {:induction false} RangesOrdered(effects: seq<Effect>, current: Option<Range>)
    requires Ordered(current)
    ensures forall r :: r in Ranges(effects, current) ==> r.start <= r.end
  {
    if effects != [] {
      RangesOrdered(effects[1..], Step(effects[0], current).1);
    }
  }

  lemma StepExpand(effect: Effect, current: Option<Range>)
    requires Ordered(current)
    ensures var (done, open) := Step(effect, current);
            && Ordered(open)
            && Expand(done) + Expand(Opened(open))
               == Expand(Opened(current)) + (if effect.Add? then [effect.n] else [])
  {
    if effect.Add? && current.Some? && effect.n == current.value.end + 1 {
      var r := Range(current.value.start, effect.n);
      assert Interval(r) == Interval(current.value) + [effect.n];
    }
  }

  /** Expanding the ranges of any text gives back, in order, exactly its numbered additions. */
  lemma {:induction false} RangesExpand(effects: seq<Effect>, current: Option<Range>)
    requires Ordered(current)
    ensures forall r :: r in Ranges(effects, current) ==> r.start <= r.end
    ensures Expand(Ranges(effects, current)) == Expand(Opened(current)) + Numbers(effects)
  {
    RangesOrdered(effects, current);
    if effects == [] {
      assert Numbers(effects) == [];
    } else {
      hide Step, Interval, Expand, Opened;
      var rest := effects[1..];
      var (done, open) := Step(effects[0], current);
      StepExpand(effects[0], current);
      RangesExpand(rest, open);
      ExpandAppend(done, Ranges(rest, open));
      var add := if effects[0].Add? then [effects[0].n] else [];
      Regroup(Expand(done), Expand(Opened(open)), Expand(Opened(current)), add, Numbers(rest));
    }
  }

  lemma Regroup(a: seq<nat>, b: seq<nat>, c: seq<nat>, d: seq<nat>, e: seq<nat>)
    requires a + b == c + d
    ensures a + (b + e) == c + (d + e)
  {
    assert a + (b + e) == (a + b) + e;
    assert c + (d + e) == (c + d) + e;
  }

  /** Neighbouring ranges that leave a gap or overlap. */
  predicate Unjoinable(ranges: seq<Range>) {
    forall i | 0 <= i < |ranges| - 1 :: ranges[i].end + 1 != ranges[i + 1].start
  }

  lemma ConsUnjoinable(r: Range, ranges: seq<Range>)
    requires Unjoinable(ranges) && (ranges != [] ==> r.end + 1 != ranges[0].start)
    ensures Unjoinable([r] + ranges)
  {
    var all := [r] + ranges;
    forall i | 0 <= i < |all| - 1 ensures all[i].end + 1 != all[i + 1].start {
      if i > 0 { assert all[i] == ranges[i - 1] && all[i + 1] == ranges[i]; }
    }
  }

  /** Where no line closes a range, no two neighbouring ranges could be joined: each range is a
      maximal run. */
  lemma {:induction false} RangesMaximal(effects: seq<Effect>, current: Option<Range>)
    requires Close !in effects
    ensures var ranges := Ranges(effects, current);
            && (current.Some? ==> ranges != [] && ranges[0].start == current.value.start)
            && Unjoinable(ranges)
  {
    if effects != [] {
      var (done, open) := Step(effects[0], current);
      var rest := Ranges(effects[1..], open);
      RangesMaximal(effects[1..], open);
      hide Unjoinable;
      if done == [] {
        assert [] + rest == rest;
      } else {
        assert done == [current.value] && open == Some(Range(effects[0].n, effects[0].n));
        ConsUnjoinable(current.value, rest);
      }
    }
  }
}
