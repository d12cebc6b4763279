/** From violated rules to review comments: deduplication, suggestions, and grouping by rule. */
module PrLevelGrouping {
  import opened Text

  datatype Violation = Violation(content: string, summary: string, violated: seq<string>, related: seq<string>)

  /** A violated rule as the analyzer reports it; absent violations are the empty list. */
  datatype Rule = Rule(uuid: string, violations: seq<Violation>)

  /** A comment on the pull request. */
  datatype Suggestion = Suggestion(ruleIds: seq<string>, violation: Violation)

  // ----- Deduplication

  /** Merging a rule into the Map of rules, which keeps insertion order. */
  function Merge(rules: seq<Rule>, r: Rule): seq<Rule> {
    if rules == [] then [r]
    else if rules[0].uuid == r.uuid then [Rule(r.uuid, rules[0].violations + r.violations)] + rules[1..]
    else [rules[0]] + Merge(rules[1..], r)
  }

  function Dedupe(rules: seq<Rule>): seq<Rule> {
    if rules == [] then []
    else
      var before, r := Dedupe(rules[..|rules| - 1]), rules[|rules| - 1];
      if r.uuid == "" then before else Merge(before, r)
  }

  method DeduplicateViolatedRules(violatedRules: seq<Rule>) returns (unique: seq<Rule>)
    ensures unique == Dedupe(violatedRules)
  {
    unique := [];
    for i := 0 to |violatedRules|
      invariant unique == Dedupe(violatedRules[..i])
    {
      assert violatedRules[..i + 1][..i] == violatedRules[..i];
      if violatedRules[i].uuid == "" {
        continue;
      }
      unique := Merge(unique, violatedRules[i]);
    }
    assert violatedRules[..|violatedRules|] == violatedRules;
  }

  /** All violations of a rule, in report order. */
  function ViolationsOf(rules: seq<Rule>, uuid: string): seq<Violation> {
    if rules == [] then []
    else (if rules[0].uuid == uuid then rules[0].violations else []) + ViolationsOf(rules[1..], uuid)
  }

  function Uuids(rules: seq<Rule>): seq<string> {
    if rules == [] then [] else [rules[0].uuid] + Uuids(rules[1..])
  }

  /** The distinct non-empty ids in order of first occurrence. */
  function FirstOccurrences(ids: seq<string>): seq<string> {
    if ids == [] then []
    else
      var before, id := FirstOccurrences(ids[..|ids| - 1]), ids[|ids| - 1];
      if id == "" || id in before then before else before + [id]
  }

  lemma {:induction false} ViolationsAppend(a: seq<Rule>, b: seq<Rule>, uuid: string)
    ensures ViolationsOf(a + b, uuid) == ViolationsOf(a, uuid) + ViolationsOf(b, uuid)
  {
    if a == [] {
      assert a + b == b;
    } else {
      assert (a + b)[1..] == a[1..] + b;
      ViolationsAppend(a[1..], b, uuid);
    }
  }

  lemma {:induction false} NoViolations(rules: seq<Rule>, uuid: string)
    requires uuid !in Uuids(rules)
    ensures ViolationsOf(rules, uuid) == []
  {
    if rules != [] {
      NoViolations(rules[1..], uuid);
    }
  }

  lemma DistinctHead(ids: seq<string>)
    requires ids != [] && Distinct(ids)
    ensures Distinct(ids[1..]) && ids[0] !in ids[1..]
  {
    assert forall i | 0 < i < |ids| :: ids[i] != ids[0];
    assert forall x :: x in ids[1..] ==> x != ids[0];
  }

  lemma {:induction false} MergeUuids(rules: seq<Rule>, r: Rule)
    ensures Uuids(Merge(rules, r)) == if r.uuid in Uuids(rules) then Uuids(rules) else Uuids(rules) + [r.uuid]
  {
    if rules != [] {
      MergeUuids(rules[1..], r);
      assert [rules[0].uuid] + (Uuids(rules[1..]) + [r.uuid]) == Uuids(rules) + [r.uuid];
    }
  }

  lemma {:induction false} MergeViolations(rules: seq<Rule>, r: Rule, uuid: string)
    requires Distinct(Uuids(rules))
    ensures ViolationsOf(Merge(rules, r), uuid)
         == ViolationsOf(rules, uuid) + if r.uuid == uuid then r.violations else []
  {
    hide Distinct, ViolationsOf;
    if rules == [] {
      OneRule(r, uuid);
      assert ViolationsOf([], uuid) == [] by { NoViolations([], uuid); }
    } else {
      var head, rest := rules[0], rules[1..];
      assert Uuids(rules)[1..] == Uuids(rest);
      DistinctHead(Uuids(rules));
      assert rules == [head] + rest;
      ViolationsCons(head, rest, uuid);
      if head.uuid == r.uuid {
        if uuid == r.uuid { NoViolations(rest, uuid); }
        ViolationsCons(Rule(r.uuid, head.violations + r.violations), rest, uuid);
      } else {
        MergeViolations(rest, r, uuid);
        ViolationsCons(head, Merge(rest, r), uuid);
      }
    }
  }

  lemma ViolationsCons(r: Rule, rest: seq<Rule>, uuid: string)
    ensures ViolationsOf([r] + rest, uuid) == (if r.uuid == uuid then r.violations else []) + ViolationsOf(rest, uuid)
  {
    assert ([r] + rest)[1..] == rest;
  }

  lemma {:induction false} UuidsAppend(rules: seq<Rule>, r: Rule)
    ensures Uuids(rules + [r]) == Uuids(rules) + [r.uuid]
  {
    if rules == [] {
      assert [] + [r] == [r] && [r][1..] == [];
    } else {
      assert (rules + [r])[1..] == rules[1..] + [r];
      UuidsAppend(rules[1..], r);
    }
  }

  lemma AppendDistinct(ids: seq<string>, id: string)
    requires Distinct(ids) && id !in ids
    ensures Distinct(ids + [id])
  {
  }

  /** The deduplicated rules are the distinct reported ones, in order of first report. */
  lemma {:induction false} DedupeOrder(rules: seq<Rule>)
    ensures Uuids(Dedupe(rules)) == FirstOccurrences(Uuids(rules))
    ensures Distinct(Uuids(Dedupe(rules))) && "" !in Uuids(Dedupe(rules))
  {
    if rules != [] {
      var init, r := rules[..|rules| - 1], rules[|rules| - 1];
      DedupeOrder(init);
      assert rules == init + [r];
      hide *;
      OrderStep(init, r);
    }
  }

  lemma OrderStep(init: seq<Rule>, r: Rule)
    requires Uuids(Dedupe(init)) == FirstOccurrences(Uuids(init))
    requires Distinct(Uuids(Dedupe(init))) && "" !in Uuids(Dedupe(init))
    ensures Uuids(Dedupe(init + [r])) == FirstOccurrences(Uuids(init + [r]))
    ensures Distinct(Uuids(Dedupe(init + [r]))) && "" !in Uuids(Dedupe(init + [r]))
  {
    hide *;
    DedupeStep(init, r);
    UuidsAppend(init, r);
    FirstOccurrencesStep(Uuids(init), r.uuid);
    MergeUuids(Dedupe(init), r);
    if r.uuid !in Uuids(Dedupe(init)) { AppendDistinct(Uuids(Dedupe(init)), r.uuid); }
  }

  lemma FirstOccurrencesStep(ids: seq<string>, id: string)
    ensures var before := FirstOccurrences(ids);
            FirstOccurrences(ids + [id]) == if id == "" || id in before then before else before + [id]
  {
    assert (ids + [id])[..|ids|] == ids;
  }

  /** Deduplication keeps each rule's violations, all and in order. */
  lemma {:induction false} DedupeConserves(rules: seq<Rule>, uuid: string)
    requires uuid != ""
    ensures ViolationsOf(Dedupe(rules), uuid) == ViolationsOf(rules, uuid)
  {
    if rules != [] {
      var init, r := rules[..|rules| - 1], rules[|rules| - 1];
      DedupeConserves(init, uuid);
      DedupeOrder(init);
      assert rules == init + [r];
      hide *;
      ConserveStep(init, r, uuid);
    }
  }

  lemma ConserveStep(init: seq<Rule>, r: Rule, uuid: string)
    requires uuid != "" && Distinct(Uuids(Dedupe(init)))
    requires ViolationsOf(Dedupe(init), uuid) == ViolationsOf(init, uuid)
    ensures ViolationsOf(Dedupe(init + [r]), uuid) == ViolationsOf(init + [r], uuid)
  {
    hide *;
    DedupeStep(init, r);
    ViolationsAppend(init, [r], uuid);
    OneRule(r, uuid);
    MergeViolations(Dedupe(init), r, uuid);
  }

  lemma DedupeStep(init: seq<Rule>, r: Rule)
    ensures Dedupe(init + [r]) == if r.uuid == "" then Dedupe(init) else Merge(Dedupe(init), r)
  {
    hide Merge;
    assert (init + [r])[..|init|] == init;
  }

  lemma OneRule(r: Rule, uuid: string)
    ensures ViolationsOf([r], uuid) == if r.uuid == uuid then r.violations else []
  {
    assert [r][1..] == [];
  }

  // ----- Suggestions

  function SuggestionsFor(uuid: string, violations: seq<Violation>): seq<Suggestion> {
    seq(|violations|, i requires 0 <= i < |violations| => Suggestion([uuid], violations[i]))
  }

  function Suggestions(rules: seq<Rule>): seq<Suggestion> {
    if rules == [] then []
    else Suggestions(rules[..|rules| - 1]) + SuggestionsFor(rules[|rules| - 1].uuid, rules[|rules| - 1].violations)
  }

  method MapViolatedRulesToSuggestions(violatedRules: seq<Rule>) returns (all: seq<Suggestion>)
    ensures all == Suggestions(violatedRules)
  {
    all := [];
    for i := 0 to |violatedRules|
      invariant all == Suggestions(violatedRules[..i])
    {
      assert violatedRules[..i + 1][..i] == violatedRules[..i];
      var rule := violatedRules[i];
      if |rule.violations| == 0 {
        assert SuggestionsFor(rule.uuid, rule.violations) == [];
        continue;
      }
      for j := 0 to |rule.violations|
        invariant all == Suggestions(violatedRules[..i]) + SuggestionsFor(rule.uuid, rule.violations[..j])
      {
        all := all + [Suggestion([rule.uuid], rule.violations[j])];
        assert SuggestionsFor(rule.uuid, rule.violations[..j + 1])
            == SuggestionsFor(rule.uuid, rule.violations[..j]) + [Suggestion([rule.uuid], rule.violations[j])];
      }
      assert rule.violations[..|rule.violations|] == rule.violations;
    }
    assert violatedRules[..|violatedRules|] == violatedRules;
  }

  /** A suggestion names one rule. */
  predicate Single(s: Suggestion) {
    |s.ruleIds| == 1
  }

  /** The suggestions about exactly one rule, in order. */
  function About(suggestions: seq<Suggestion>, uuid: string): seq<Suggestion> {
    if suggestions == [] then []
    else About(suggestions[..|suggestions| - 1], uuid)
         + if suggestions[|suggestions| - 1].ruleIds == [uuid] then [suggestions[|suggestions| - 1]] else []
  }

  /** The violations that suggestions carry. */
  function Carried(suggestions: seq<Suggestion>): (r: seq<Violation>)
    ensures |r| == |suggestions| && forall i | 0 <= i < |r| :: r[i] == suggestions[i].violation
  {
    if suggestions == [] then []
    else Carried(suggestions[..|suggestions| - 1]) + [suggestions[|suggestions| - 1].violation]
  }

  lemma {:induction false} AboutAppend(a: seq<Suggestion>, b: seq<Suggestion>, uuid: string)
    ensures About(a + b, uuid) == About(a, uuid) + About(b, uuid)
  {
    if b == [] {
      assert a + b == a;
    } else {
      assert (a + b)[..|a + b| - 1] == a + b[..|b| - 1];
      AboutAppend(a, b[..|b| - 1], uuid);
    }
  }

  lemma {:induction false} AboutSame(suggestions: seq<Suggestion>, uuid: string, owner: string)
    requires forall s | s in suggestions :: s.ruleIds == [owner]
    ensures About(suggestions, uuid) == if uuid == owner then suggestions else []
  {
    hide About;
    if suggestions == [] {
      AboutNone(uuid);
    } else {
      var init, last := suggestions[..|suggestions| - 1], suggestions[|suggestions| - 1];
      assert last in suggestions && forall s | s in init :: s in suggestions;
      AboutSame(init, uuid, owner);
      AboutLast(init, last, uuid);
      assert suggestions == init + [last];
      OneId(last.ruleIds, uuid);
    }
  }

  lemma AboutLast(init: seq<Suggestion>, last: Suggestion, uuid: string)
    ensures About(init + [last], uuid) == About(init, uuid) + if last.ruleIds == [uuid] then [last] else []
  {
    assert (init + [last])[..|init|] == init;
  }

  /** Every violation becomes one suggestion for its rule, which carries it. */
  lemma {:induction false} SuggestionsCarry(rules: seq<Rule>, uuid: string)
    ensures Carried(About(Suggestions(rules), uuid)) == ViolationsOf(rules, uuid)
    ensures forall s | s in Suggestions(rules) :: Single(s)
  {
    if rules != [] {
      var init, r := rules[..|rules| - 1], rules[|rules| - 1];
      SuggestionsCarry(init, uuid);
      assert rules == init + [r];
      ViolationsAppend(init, [r], uuid);
      OneRule(r, uuid);
      hide About, ViolationsOf, Carried;
      var more := SuggestionsFor(r.uuid, r.violations);
      AboutAppend(Suggestions(init), more, uuid);
      AboutSame(more, uuid, r.uuid);
      CarriedAppend(About(Suggestions(init), uuid), About(more, uuid));
      ForCarries(r.uuid, r.violations);
    }
  }

  lemma ForCarries(uuid: string, violations: seq<Violation>)
    ensures Carried(SuggestionsFor(uuid, violations)) == violations && Carried([]) == []
    ensures forall s | s in SuggestionsFor(uuid, violations) :: s.ruleIds == [uuid]
  {
  }

  lemma CarriedAppend(a: seq<Suggestion>, b: seq<Suggestion>)
    ensures Carried(a + b) == Carried(a) + Carried(b)
  {
  }

  // ----- Grouping

  datatype Group = Group(id: string, members: seq<Suggestion>)

  /** `grouped[id].push(s)`, creating the entry if it is missing. */
  function AddTo(groups: seq<Group>, id: string, s: Suggestion): seq<Group> {
    if groups == [] then [Group(id, [s])]
    else if groups[0].id == id then [Group(id, groups[0].members + [s])] + groups[1..]
    else [groups[0]] + AddTo(groups[1..], id, s)
  }

  function AddToAll(groups: seq<Group>, ids: seq<string>, s: Suggestion): seq<Group>
    decreases |ids|
  {
    if ids == [] then groups else AddToAll(AddTo(groups, ids[0], s), ids[1..], s)
  }

  function GroupByRule(suggestions: seq<Suggestion>): seq<Group> {
    if suggestions == [] then []
    else
      var s := suggestions[|suggestions| - 1];
      AddToAll(GroupByRule(suggestions[..|suggestions| - 1]), s.ruleIds, s)
  }

  method GroupSuggestionsByRule(suggestions: seq<Suggestion>) returns (groups: seq<Group>)
    ensures groups == GroupByRule(suggestions)
  {
    groups := [];
    for i := 0 to |suggestions|
      invariant groups == GroupByRule(suggestions[..i])
    {
      assert suggestions[..i + 1][..i] == suggestions[..i];
      var s := suggestions[i];
      ghost var before := groups;
      for j := 0 to |s.ruleIds|
        invariant AddToAll(before, s.ruleIds, s) == AddToAll(groups, s.ruleIds[j..], s)
      {
        assert s.ruleIds[j..][1..] == s.ruleIds[j + 1..];
        groups := AddTo(groups, s.ruleIds[j], s);
      }
    }
    assert suggestions[..|suggestions|] == suggestions;
  }

  function Duplicates(groups: seq<Group>): seq<Group> {
    if groups == [] then []
    else Duplicates(groups[..|groups| - 1])
         + if |groups[|groups| - 1].members| > 1 then [groups[|groups| - 1]] else []
  }

  /** The consolidated text of a rule's suggestions: the model's answer, or the first one's. */
  type Consolidator = (string, seq<Suggestion>) -> Violation

  /** A configured rule's suggestions become one; others stay. */
  function Consolidate(g: Group, configured: seq<string>, consolidate: Consolidator): seq<Suggestion>
    requires g.members != []
  {
    if g.id in configured then [Suggestion(g.members[0].ruleIds, consolidate(g.id, g.members))] else g.members
  }

  predicate NonEmpty(groups: seq<Group>) {
    forall g | g in groups :: g.members != []
  }

  function ConsolidateAll(groups: seq<Group>, configured: seq<string>, consolidate: Consolidator): seq<Suggestion>
    requires NonEmpty(groups)
  {
    if groups == [] then []
    else
      assert groups[|groups| - 1] in groups;
      ConsolidateAll(groups[..|groups| - 1], configured, consolidate)
      + Consolidate(groups[|groups| - 1], configured, consolidate)
  }

  predicate HasGroup(groups: seq<Group>, id: string) {
    exists g | g in groups :: g.id == id
  }

  predicate InGroup(groups: seq<Group>, s: Suggestion) {
    exists id | id in s.ruleIds :: HasGroup(groups, id)
  }

  function Outside(suggestions: seq<Suggestion>, groups: seq<Group>): seq<Suggestion> {
    if suggestions == [] then []
    else
      Outside(suggestions[..|suggestions| - 1], groups)
      + if InGroup(groups, suggestions[|suggestions| - 1]) then [] else [suggestions[|suggestions| - 1]]
  }

  lemma {:induction false} DuplicatesMembers(groups: seq<Group>)
    ensures forall g :: g in Duplicates(groups) <==> g in groups && |g.members| > 1
  {
    if groups != [] {
      var init, last := groups[..|groups| - 1], groups[|groups| - 1];
      assert groups == init + [last];
      DuplicatesMembers(init);
    }
  }

  function Grouped(suggestions: seq<Suggestion>, configured: seq<string>, consolidate: Consolidator): seq<Suggestion> {
    var duplicated := Duplicates(GroupByRule(suggestions));
    DuplicatesMembers(GroupByRule(suggestions));
    ConsolidateAll(duplicated, configured, consolidate) + Outside(suggestions, duplicated)
  }

  lemma {:induction false} NothingGrouped(suggestions: seq<Suggestion>)
    ensures Outside(suggestions, []) == suggestions
  {
    if suggestions != [] {
      NothingGrouped(suggestions[..|suggestions| - 1]);
    }
  }

  method GroupDuplicateSuggestions(suggestions: seq<Suggestion>, configured: seq<string>, consolidate: Consolidator)
    returns (grouped: seq<Suggestion>)
    ensures grouped == Grouped(suggestions, configured, consolidate)
  {
    hide Consolidate, InGroup, GroupByRule, Outside, Duplicates, ConsolidateAll;
    NothingGrouped(suggestions);
    if |suggestions| == 0 {
      NoGroups(configured, consolidate);
      return suggestions;
    }
    var groups := GroupSuggestionsByRule(suggestions);
    var duplicated := FindDuplicates(groups);
    DuplicatesMembers(groups);
    if |duplicated| == 0 {
      NoneConsolidated(configured, consolidate);
      return suggestions;
    }
    var consolidated := ConsolidateGroups(duplicated, configured, consolidate);
    var others := KeepOthers(suggestions, duplicated);
    grouped := consolidated + others;
  }

  method FindDuplicates(groups: seq<Group>) returns (duplicated: seq<Group>)
    ensures duplicated == Duplicates(groups)
  {
    duplicated := [];
    for i := 0 to |groups|
      invariant duplicated == Duplicates(groups[..i])
    {
      assert groups[..i + 1][..i] == groups[..i];
      if |groups[i].members| > 1 {
        duplicated := duplicated + [groups[i]];
      }
    }
    assert groups[..|groups|] == groups;
  }

  method ConsolidateGroups(groups: seq<Group>, configured: seq<string>, consolidate: Consolidator)
    returns (grouped: seq<Suggestion>)
    requires NonEmpty(groups)
    ensures grouped == ConsolidateAll(groups, configured, consolidate)
  {
    hide Consolidate;
    grouped := [];
    for i := 0 to |groups|
      invariant NonEmpty(groups[..i])
      invariant grouped == ConsolidateAll(groups[..i], configured, consolidate)
    {
      assert groups[i] in groups && groups[..i + 1][..i] == groups[..i];
      grouped := grouped + Consolidate(groups[i], configured, consolidate);
    }
    assert groups[..|groups|] == groups;
  }

  method KeepOthers(suggestions: seq<Suggestion>, groups: seq<Group>) returns (kept: seq<Suggestion>)
    ensures kept == Outside(suggestions, groups)
  {
    hide InGroup;
    kept := [];
    for i := 0 to |suggestions|
      invariant kept == Outside(suggestions[..i], groups)
    {
      assert suggestions[..i + 1][..i] == suggestions[..i];
      if !InGroup(groups, suggestions[i]) {
        kept := kept + [suggestions[i]];
      }
    }
    assert suggestions[..|suggestions|] == suggestions;
  }

  lemma NoneConsolidated(configured: seq<string>, consolidate: Consolidator)
    ensures ConsolidateAll([], configured, consolidate) == []
  {
  }

  lemma NoGroups(configured: seq<string>, consolidate: Consolidator)
    ensures Grouped([], configured, consolidate) == []
  {
  }

  // ----- What grouping does to comments about one rule each

  predicate Owns(g: Group) {
    g.members != [] && forall s | s in g.members :: s.ruleIds == [g.id]
  }

  /** The groups of suggestions about one rule each: distinct ids, and every member is about its group's id. */
  predicate Proper(groups: seq<Group>) {
    && (forall i, j | 0 <= i < j < |groups| :: groups[i].id != groups[j].id)
    && forall g | g in groups :: Owns(g)
  }

  /** The members of a group. */
  function Members(groups: seq<Group>, id: string): seq<Suggestion> {
    if groups == [] then [] else if groups[0].id == id then groups[0].members else Members(groups[1..], id)
  }

  lemma {:induction false} AddToProper(groups: seq<Group>, id: string, s: Suggestion)
    requires Proper(groups) && s.ruleIds == [id]
    ensures Proper(AddTo(groups, id, s))
    ensures forall x :: HasGroup(AddTo(groups, id, s), x) <==> x == id || HasGroup(groups, x)
  {
    hide Owns;
    if groups == [] {
      FreshGroup(id, s);
    } else if groups[0].id == id {
      GrowGroup(groups, s);
    } else {
      ProperTail(groups);
      AddToProper(groups[1..], id, s);
      ProperCons(groups[0], AddTo(groups[1..], id, s));
      HasGroupCons(groups[0], AddTo(groups[1..], id, s));
      HasGroupCons(groups[0], groups[1..]);
      assert [groups[0]] + groups[1..] == groups;
    }
  }

  lemma {:induction false} AddToMembers(groups: seq<Group>, id: string, s: Suggestion, x: string)
    ensures Members(AddTo(groups, id, s), x) == Members(groups, x) + if x == id then [s] else []
  {
    if groups != [] && groups[0].id != id {
      AddToMembers(groups[1..], id, s, x);
    }
  }

  lemma FreshGroup(id: string, s: Suggestion)
    requires s.ruleIds == [id]
    ensures Proper([Group(id, [s])])
    ensures forall x :: HasGroup([Group(id, [s])], x) <==> x == id
  {
    assert Group(id, [s]) in [Group(id, [s])];
  }

  lemma GrowGroup(groups: seq<Group>, s: Suggestion)
    requires Proper(groups) && groups != [] && s.ruleIds == [groups[0].id]
    ensures var g := Group(groups[0].id, groups[0].members + [s]);
            && Proper([g] + groups[1..])
            && forall x :: HasGroup([g] + groups[1..], x) <==> HasGroup(groups, x)
  {
    var g, rest := Group(groups[0].id, groups[0].members + [s]), groups[1..];
    ProperTail(groups);
    assert groups[0] in groups;
    ProperCons(g, rest);
    HasGroupCons(g, rest);
    HasGroupCons(groups[0], rest);
    assert [groups[0]] + rest == groups;
  }

  lemma ProperTail(groups: seq<Group>)
    requires Proper(groups) && groups != []
    ensures Proper(groups[1..]) && Owns(groups[0]) && !HasGroup(groups[1..], groups[0].id)
  {
    hide Owns;
    assert groups[0] in groups && forall g | g in groups[1..] :: g in groups;
    forall g | g in groups[1..] ensures g.id != groups[0].id {
      var i :| 0 <= i < |groups[1..]| && groups[1..][i] == g;
      assert groups[i + 1] == g;
    }
  }

  lemma ProperCons(g: Group, rest: seq<Group>)
    requires Proper(rest) && Owns(g) && !HasGroup(rest, g.id)
    ensures Proper([g] + rest)
  {
    hide Owns;
    assert forall i | 0 <= i < |rest| :: rest[i] in rest;
  }

  lemma HasGroupCons(g: Group, rest: seq<Group>)
    ensures forall x :: HasGroup([g] + rest, x) <==> x == g.id || HasGroup(rest, x)
  {
    assert g in [g] + rest;
    forall x | HasGroup(rest, x) ensures HasGroup([g] + rest, x) {
      var h :| h in rest && h.id == x;
      assert h in [g] + rest;
    }
  }

  lemma {:induction false} GroupMembers(suggestions: seq<Suggestion>)
    requires forall s | s in suggestions :: Single(s)
    ensures Proper(GroupByRule(suggestions))
    ensures forall x :: Members(GroupByRule(suggestions), x) == About(suggestions, x)
  {
    hide Proper, Members, HasGroup;
    if suggestions == [] {
      EmptyGroups();
    } else {
      var init, s := suggestions[..|suggestions| - 1], suggestions[|suggestions| - 1];
      assert s in suggestions && forall t | t in init :: t in suggestions;
      GroupMembers(init);
      assert s.ruleIds == [s.ruleIds[0]] && s.ruleIds[1..] == [];
      AddToProper(GroupByRule(init), s.ruleIds[0], s);
      AddToOne(GroupByRule(init), s.ruleIds, s);
      forall x ensures Members(GroupByRule(suggestions), x) == About(suggestions, x) {
        AddToMembers(GroupByRule(init), s.ruleIds[0], s, x);
        OneId(s.ruleIds, x);
      }
    }
  }

  /** `s` as often as `ids` names the rule. */
  function Naming(s: Suggestion, ids: seq<string>, id: string): seq<Suggestion> {
    seq(multiset(ids)[id], _ => s)
  }

  /** The suggestions that name a rule, each as often as it does. */
  function Mentions(suggestions: seq<Suggestion>, id: string): seq<Suggestion> {
    if suggestions == [] then []
    else
      var s := suggestions[|suggestions| - 1];
      Mentions(suggestions[..|suggestions| - 1], id) + Naming(s, s.ruleIds, id)
  }

  lemma {:induction false} AddToAllMembers(groups: seq<Group>, ids: seq<string>, s: Suggestion, id: string)
    ensures Members(AddToAll(groups, ids, s), id) == Members(groups, id) + Naming(s, ids, id)
    decreases |ids|
  {
    hide Members;
    if ids != [] {
      AddToMembers(groups, ids[0], s, id);
      AddToAllMembers(AddTo(groups, ids[0], s), ids[1..], s, id);
      assert ids == [ids[0]] + ids[1..];
      assert Naming(s, ids, id) == (if ids[0] == id then [s] else []) + Naming(s, ids[1..], id);
    }
  }

  /** Suggestions may name any number of rules: each rule's group has those that name it, in order. */
  lemma {:induction false} GroupMentions(suggestions: seq<Suggestion>, id: string)
    ensures Members(GroupByRule(suggestions), id) == Mentions(suggestions, id)
  {
    if suggestions != [] {
      var init, s := suggestions[..|suggestions| - 1], suggestions[|suggestions| - 1];
      GroupMentions(init, id);
      AddToAllMembers(GroupByRule(init), s.ruleIds, s, id);
    }
  }

  lemma AddToOne(groups: seq<Group>, ids: seq<string>, s: Suggestion)
    requires |ids| == 1
    ensures AddToAll(groups, ids, s) == AddTo(groups, ids[0], s)
  {
    hide AddTo;
    assert ids[1..] == [];
  }

  lemma EmptyGroups()
    ensures Proper([]) && forall x :: Members([], x) == []
  {
  }

  lemma {:induction false} MembersOfGroup(groups: seq<Group>, g: Group)
    requires Proper(groups) && g in groups
    ensures Members(groups, g.id) == g.members
  {
    hide Owns;
    if g != groups[0] {
      ProperTail(groups);
      assert g in groups[1..] && HasGroup(groups[1..], g.id);
      MembersOfGroup(groups[1..], g);
    }
  }

  lemma {:induction false} GroupWithMembers(groups: seq<Group>, id: string)
    requires Members(groups, id) != []
    ensures exists g | g in groups :: g.id == id && g.members == Members(groups, id)
  {
    if groups[0].id == id {
      assert groups[0] in groups;
    } else {
      GroupWithMembers(groups[1..], id);
      var g :| g in groups[1..] && g.id == id && g.members == Members(groups[1..], id);
      assert g in groups;
    }
  }

  /** A rule is among the duplicated groups exactly if it has more than one suggestion. */
  lemma DuplicatedIds(groups: seq<Group>, id: string)
    requires Proper(groups)
    ensures HasGroup(Duplicates(groups), id) <==> |Members(groups, id)| > 1
  {
    hide Proper, Owns, Members, Duplicates;
    DuplicatesMembers(groups);
    if g :| g in Duplicates(groups) && g.id == id {
      MembersOfGroup(groups, g);
    }
    if |Members(groups, id)| > 1 {
      GroupWithMembers(groups, id);
    }
  }

  lemma {:induction false} OutsideAbout(suggestions: seq<Suggestion>, groups: seq<Group>, uuid: string)
    requires forall s | s in suggestions :: Single(s)
    ensures About(Outside(suggestions, groups), uuid) == if HasGroup(groups, uuid) then [] else About(suggestions, uuid)
    ensures forall s | s in Outside(suggestions, groups) :: s in suggestions
  {
    hide HasGroup, About;
    if suggestions == [] {
      assert About([], uuid) == [] by { AboutNone(uuid); }
    } else {
      var init, s := suggestions[..|suggestions| - 1], suggestions[|suggestions| - 1];
      assert s in suggestions && forall t | t in init :: t in suggestions;
      OutsideAbout(init, groups, uuid);
      OneId(s.ruleIds, uuid);
      assert InGroup(groups, s) <==> HasGroup(groups, s.ruleIds[0]);
      assert suggestions == init + [s];
      AboutLast(init, s, uuid);
      AboutLast(Outside(init, groups), s, uuid);
      assert Outside(init, groups) + [] == Outside(init, groups);
    }
  }

  lemma OneId(ids: seq<string>, id: string)
    requires |ids| == 1
    ensures ids == [ids[0]] && (ids == [id] <==> ids[0] == id)
  {
  }

  lemma ConsolidateAbout(g: Group, configured: seq<string>, consolidate: Consolidator, uuid: string)
    requires Owns(g)
    ensures About(Consolidate(g, configured, consolidate), uuid)
         == if uuid != g.id then []
            else if g.id in configured then [Suggestion([uuid], consolidate(uuid, g.members))] else g.members
  {
    assert g.members[0] in g.members;
    AboutSame(Consolidate(g, configured, consolidate), uuid, g.id);
  }

  /** What the groups' consolidation leaves about one rule. */
  lemma {:induction false} ConsolidatedAbout(groups: seq<Group>, configured: seq<string>, consolidate: Consolidator,
                                             uuid: string)
    requires Proper(groups) && NonEmpty(groups)
    ensures About(ConsolidateAll(groups, configured, consolidate), uuid)
         == if !HasGroup(groups, uuid) then []
            else if uuid in configured then [Suggestion([uuid], consolidate(uuid, Members(groups, uuid)))]
            else Members(groups, uuid)
  {
    hide Owns, Consolidate, About;
    if groups == [] {
      assert About([], uuid) == [] by { AboutNone(uuid); }
    } else {
      var init, g := groups[..|groups| - 1], groups[|groups| - 1];
      assert groups == init + [g] && g in groups && forall h | h in init :: h in groups;
      ProperInit(init, g);
      ConsolidatedAbout(init, configured, consolidate, uuid);
      ConsolidateAbout(g, configured, consolidate, uuid);
      AboutAppend(ConsolidateAll(init, configured, consolidate), Consolidate(g, configured, consolidate), uuid);
      MembersSnoc(init, g, uuid);
    }
  }

  lemma AboutNone(uuid: string)
    ensures About([], uuid) == []
  {
  }

  lemma ProperInit(init: seq<Group>, g: Group)
    requires Proper(init + [g])
    ensures Proper(init) && Owns(g) && !HasGroup(init, g.id)
  {
    hide Owns;
    var all := init + [g];
    assert g in all && forall h | h in init :: h in all;
    assert forall i | 0 <= i < |init| :: all[i] == init[i];
    forall h | h in init ensures h.id != g.id {
      var i :| 0 <= i < |init| && init[i] == h;
      assert all[i] == h && all[|init|] == g;
    }
  }

  lemma {:induction false} MembersSnoc(init: seq<Group>, g: Group, id: string)
    requires !HasGroup(init, g.id)
    ensures HasGroup(init + [g], id) <==> HasGroup(init, id) || id == g.id
    ensures Members(init + [g], id) == if id == g.id then g.members else Members(init, id)
  {
    assert g in init + [g] && forall h | h in init :: h in init + [g];
    if init != [] {
      assert init[0] in init && forall h | h in init[1..] :: h in init;
      assert (init + [g])[1..] == init[1..] + [g];
      MembersSnoc(init[1..], g, id);
    } else {
      assert [g][1..] == [] && [] + [g] == [g];
    }
  }

  lemma {:induction false} DuplicatesProper(groups: seq<Group>)
    requires Proper(groups)
    ensures Proper(Duplicates(groups))
    ensures forall id ::
              Members(Duplicates(groups), id) == if |Members(groups, id)| > 1 then Members(groups, id) else []
  {
    hide Proper, Members, Owns, HasGroup;
    if groups == [] {
      EmptyGroups();
    } else {
      var init, g := groups[..|groups| - 1], groups[|groups| - 1];
      assert groups == init + [g];
      ProperInit(init, g);
      DuplicatesProper(init);
      DuplicatesStep(init, g);
    }
  }

  lemma DuplicatesStep(init: seq<Group>, g: Group)
    requires Proper(init) && Owns(g) && !HasGroup(init, g.id) && Proper(Duplicates(init))
    requires forall id :: Members(Duplicates(init), id) == if |Members(init, id)| > 1 then Members(init, id) else []
    ensures var all := init + [g];
            && Proper(Duplicates(all))
            && forall id :: Members(Duplicates(all), id) == if |Members(all, id)| > 1 then Members(all, id) else []
  {
    hide *;
    DuplicatesSnoc(init, g);
    DuplicatedIds(init, g.id);
    NoMembers(init, g.id);
    ProperSnoc(Duplicates(init), g);
    var all := init + [g];
    forall id ensures Members(Duplicates(all), id) == if |Members(all, id)| > 1 then Members(all, id) else [] {
      MembersSnoc(init, g, id);
      MembersSnoc(Duplicates(init), g, id);
    }
  }

  lemma DuplicatesSnoc(init: seq<Group>, g: Group)
    ensures Duplicates(init + [g]) == if |g.members| > 1 then Duplicates(init) + [g] else Duplicates(init)
  {
    assert (init + [g])[..|init|] == init;
  }

  lemma {:induction false} NoMembers(groups: seq<Group>, id: string)
    requires !HasGroup(groups, id)
    ensures Members(groups, id) == []
  {
    if groups != [] {
      assert groups[0] in groups && forall h | h in groups[1..] :: h in groups;
      NoMembers(groups[1..], id);
    }
  }

  lemma ProperSnoc(groups: seq<Group>, g: Group)
    requires Proper(groups) && Owns(g) && !HasGroup(groups, g.id)
    ensures Proper(groups + [g])
  {
    hide Owns;
    assert forall i | 0 <= i < |groups| :: groups[i] in groups;
  }

  /** After grouping, a configured rule with several suggestions has the one that they are consolidated to;
      any other rule keeps its suggestions, in order. */
  lemma GroupedAbout(suggestions: seq<Suggestion>, configured: seq<string>, consolidate: Consolidator, uuid: string)
    requires forall s | s in suggestions :: Single(s)
    ensures var members := About(suggestions, uuid);
            About(Grouped(suggestions, configured, consolidate), uuid)
            == if |members| > 1 && uuid in configured then [Suggestion([uuid], consolidate(uuid, members))] else members
  {
    var groups := GroupByRule(suggestions);
    var duplicated := Duplicates(groups);
    hide Proper, HasGroup, Members, About, Duplicates, GroupByRule, ConsolidateAll, Outside;
    GroupMembers(suggestions);
    DuplicatesMembers(groups);
    DuplicatesProper(groups);
    DuplicatedIds(groups, uuid);
    ConsolidatedAbout(duplicated, configured, consolidate, uuid);
    OutsideAbout(suggestions, duplicated, uuid);
    AboutAppend(ConsolidateAll(duplicated, configured, consolidate), Outside(suggestions, duplicated), uuid);
  }

  // ----- The whole pipeline

  /** The comments made of the analyzer's reports. */
  function Comments(reported: seq<Rule>, configured: seq<string>, consolidate: Consolidator): seq<Suggestion> {
    Grouped(Suggestions(Dedupe(reported)), configured, consolidate)
  }

  /** The method that combines the chunks' results. */
  method CombineChunkResults(reported: seq<Rule>, configured: seq<string>, consolidate: Consolidator)
    returns (comments: seq<Suggestion>)
    ensures comments == Comments(reported, configured, consolidate)
  {
    hide Grouped;
    if |reported| == 0 {
      NoComments(configured, consolidate);
      return [];
    }
    var unique := DeduplicateViolatedRules(reported);
    var suggestions := MapViolatedRulesToSuggestions(unique);
    comments := GroupDuplicateSuggestions(suggestions, configured, consolidate);
  }

  lemma NoComments(configured: seq<string>, consolidate: Consolidator)
    ensures Comments([], configured, consolidate) == []
  {
  }

  /** For any reports and any model answers: a rule with violations gets exactly one comment if it is
      configured or has one violation, an unconfigured rule gets one comment per violation, and a rule
      without violations gets none. */
  lemma OneCommentPerRule(reported: seq<Rule>, configured: seq<string>, consolidate: Consolidator, uuid: string)
    requires uuid != ""
    ensures var n := |ViolationsOf(reported, uuid)|;
            |About(Comments(reported, configured, consolidate), uuid)| == if n > 1 && uuid in configured then 1 else n
  {
    hide About, ViolationsOf, Dedupe, Suggestions, Grouped;
    var members := CommentsCarry(reported, configured, consolidate, uuid);
  }

  /** What the comments say: those about an unconfigured rule, or one with a single violation, carry exactly
      its reported violations, in order; those of any other rule are consolidated from suggestions that do. */
  lemma CommentsCarry(reported: seq<Rule>, configured: seq<string>, consolidate: Consolidator, uuid: string)
    returns (members: seq<Suggestion>)
    requires uuid != ""
    ensures Carried(members) == ViolationsOf(reported, uuid) && forall s | s in members :: s.ruleIds == [uuid]
    ensures Carried(About(Comments(reported, configured, consolidate), uuid))
         == if |members| > 1 && uuid in configured then [consolidate(uuid, members)] else ViolationsOf(reported, uuid)
  {
    members := About(Suggestions(Dedupe(reported)), uuid);
    AboutOne(Suggestions(Dedupe(reported)), uuid);
    hide About, ViolationsOf, Dedupe, Suggestions, Grouped;
    DedupeConserves(reported, uuid);
    SuggestionsCarry(Dedupe(reported), uuid);
    GroupedAbout(Suggestions(Dedupe(reported)), configured, consolidate, uuid);
  }

  lemma {:induction false} AboutOne(suggestions: seq<Suggestion>, uuid: string)
    ensures forall s | s in About(suggestions, uuid) :: s.ruleIds == [uuid]
  {
    if suggestions != [] {
      AboutOne(suggestions[..|suggestions| - 1], uuid);
    }
  }
}
