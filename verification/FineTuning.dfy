/** Keep-or-discard decisions from the feedback on similar suggestions. */
module FineTuning {
  import opened Text
  import opened Vectors

  datatype Feedback = PositiveReaction | NegativeReaction | Implemented | Neutral

  datatype Decision = Keep | Discard | Uncertain

  /** A suggestion of the past, with the cluster that k-means put it in. */
  datatype Clustered = Clustered(cluster: nat, language: string, feedback: Feedback, embedding: Vector)

  datatype Suggestion = Suggestion(id: string, ruleOrBreaking: bool, language: string, embedding: Vector)

  /** The cosine similarity of two embeddings. */
  type Similarity = (Vector, Vector) -> real

  datatype Thresholds = Thresholds(positive: real, negative: real)

  const CLUSTER_THRESHOLD := 0.6
  const ENOUGH := 50

  predicate IsPositive(f: Feedback) {
    f == PositiveReaction || f == Implemented
  }

  // ----- Voting

  /** How many of the suggestions satisfy a predicate. */
  function Count(members: seq<Clustered>, p: Clustered -> bool): nat {
    if members == [] then 0
    else Count(members[..|members| - 1], p) + if p(members[|members| - 1]) then 1 else 0
  }

  /** A vote to keep: liked or implemented, and similar enough. */
  function Keeps(similar: Similarity, v: Vector, t: Thresholds): Clustered -> bool {
    (c: Clustered) => IsPositive(c.feedback) && similar(v, c.embedding) >= t.positive
  }

  /** A vote to discard: anything else that is similar enough, neutral feedback included. */
  function Discards(similar: Similarity, v: Vector, t: Thresholds): Clustered -> bool {
    (c: Clustered) => !IsPositive(c.feedback) && similar(v, c.embedding) >= t.negative
  }

  function Majority(keep: nat, discard: nat): Decision {
    if keep > discard then Keep else if discard > keep then Discard else Uncertain
  }

  function Vote(members: seq<Clustered>, similar: Similarity, v: Vector, t: Thresholds): Decision {
    Majority(Count(members, Keeps(similar, v, t)), Count(members, Discards(similar, v, t)))
  }

  method DefineFineTuningDecisionBySimilarity(members: seq<Clustered>, similar: Similarity, v: Vector, t: Thresholds)
    returns (decision: Decision)
    ensures decision == Vote(members, similar, v, t)
  {
    var keepDecision, discardDecision := 0, 0;
    for i := 0 to |members|
      invariant keepDecision == Count(members[..i], Keeps(similar, v, t))
      invariant discardDecision == Count(members[..i], Discards(similar, v, t))
    {
      assert members[..i + 1][..i] == members[..i];
      if IsPositive(members[i].feedback) && similar(v, members[i].embedding) >= t.positive {
        keepDecision := keepDecision + 1;
      } else if !IsPositive(members[i].feedback) && similar(v, members[i].embedding) >= t.negative {
        discardDecision := discardDecision + 1;
      }
    }
    assert members[..|members|] == members;
    if keepDecision > 0 && keepDecision > discardDecision {
      return Keep;
    } else if discardDecision > 0 && discardDecision > keepDecision {
      return Discard;
    }
    return Uncertain;
  }

  lemma {:induction false} CountAppend(a: seq<Clustered>, b: seq<Clustered>, p: Clustered -> bool)
    ensures Count(a + b, p) == Count(a, p) + Count(b, p)
  {
    if b == [] {
      assert a + b == a;
    } else {
      assert (a + b)[..|a + b| - 1] == a + b[..|b| - 1];
      CountAppend(a, b[..|b| - 1], p);
    }
  }

  /** Taking one occurrence out. */
  lemma TakeOut(b: seq<Clustered>, x: Clustered, p: Clustered -> bool) returns (rest: seq<Clustered>)
    requires x in b
    ensures multiset(rest) == multiset(b) - multiset{x}
    ensures Count(b, p) == Count(rest, p) + if p(x) then 1 else 0
  {
    var i :| 0 <= i < |b| && b[i] == x;
    var before, after := b[..i], b[i + 1..];
    rest := before + after;
    assert b == before + [x] + after;
    CountAppend(before + [x], after, p);
    CountAppend(before, [x], p);
    CountAppend(before, after, p);
    assert Count([x], p) == if p(x) then 1 else 0 by { assert [x][..0] == []; }
  }

  lemma {:induction false} CountPermuted(a: seq<Clustered>, b: seq<Clustered>, p: Clustered -> bool)
    requires multiset(a) == multiset(b)
    ensures Count(a, p) == Count(b, p)
  {
    if a == [] {
      assert |multiset(b)| == |b|;
    } else {
      var init, x := a[..|a| - 1], a[|a| - 1];
      assert a == init + [x] && x in multiset(b);
      var rest := TakeOut(b, x, p);
      assert multiset(init) == multiset(a) - multiset{x};
      CountPermuted(init, rest, p);
    }
  }

  /** The vote does not depend on the order of the suggestions, so sorting them by similarity is harmless. */
  lemma VoteIgnoresOrder(a: seq<Clustered>, b: seq<Clustered>, similar: Similarity, v: Vector, t: Thresholds)
    requires multiset(a) == multiset(b)
    ensures Vote(a, similar, v, t) == Vote(b, similar, v, t)
  {
    CountPermuted(a, b, Keeps(similar, v, t));
    CountPermuted(a, b, Discards(similar, v, t));
  }

  /** More positive feedback never turns a suggestion from kept or uncertain to discarded. */
  lemma PositiveNeverHurts(members: seq<Clustered>, c: Clustered, similar: Similarity, v: Vector, t: Thresholds)
    requires IsPositive(c.feedback)
    ensures Vote(members + [c], similar, v, t) == Discard ==> Vote(members, similar, v, t) == Discard
    ensures Vote(members, similar, v, t) == Keep ==> Vote(members + [c], similar, v, t) == Keep
  {
    assert (members + [c])[..|members|] == members;
  }

  // ----- One cluster

  function InCluster(suggestions: seq<Clustered>, id: nat): seq<Clustered> {
    if suggestions == [] then []
    else
      InCluster(suggestions[..|suggestions| - 1], id)
      + if suggestions[|suggestions| - 1].cluster == id then [suggestions[|suggestions| - 1]] else []
  }

  function Unanimous(members: seq<Clustered>): Decision {
    if forall m | m in members :: IsPositive(m.feedback) then Keep
    else if forall m | m in members :: m.feedback == NegativeReaction then Discard
    else Uncertain
  }

  function ClusterDecision(suggestions: seq<Clustered>, id: nat, similar: Similarity, v: Vector, t: Thresholds)
    : Decision
  {
    var members := InCluster(suggestions, id);
    if members == [] then Uncertain
    else if Unanimous(members) != Uncertain then Unanimous(members)
    else Vote(members, similar, v, t)
  }

  /** `analyzeClusterFeedback`; the members are sorted by similarity before the vote. */
  method AnalyzeClusterFeedback(suggestions: seq<Clustered>, id: nat, similar: Similarity, v: Vector, t: Thresholds,
                                sort: seq<Clustered> -> seq<Clustered>)
    returns (decision: Decision)
    requires forall s: seq<Clustered> :: multiset(sort(s)) == multiset(s)
    ensures decision == ClusterDecision(suggestions, id, similar, v, t)
  {
    hide Vote;
    var members := [];
    for i := 0 to |suggestions|
      invariant members == InCluster(suggestions[..i], id)
    {
      assert suggestions[..i + 1][..i] == suggestions[..i];
      if suggestions[i].cluster == id {
        members := members + [suggestions[i]];
      }
    }
    assert suggestions[..|suggestions|] == suggestions;
    if |members| == 0 {
      return Uncertain;
    }
    var unanimous := Unanimous(members);
    if unanimous != Uncertain {
      return unanimous;
    }
    VoteIgnoresOrder(sort(members), members, similar, v, t);
    decision := DefineFineTuningDecisionBySimilarity(sort(members), similar, v, t);
  }

  /** How feedback decides: a cluster that was only liked or implemented keeps, one that was only disliked
      discards, whatever the similarities, and one without members leaves it open. */
  lemma FeedbackDecides(suggestions: seq<Clustered>, id: nat, similar: Similarity, v: Vector, t: Thresholds)
    ensures var members := InCluster(suggestions, id);
            var decision := ClusterDecision(suggestions, id, similar, v, t);
            if members == [] then decision == Uncertain
            else
              && ((forall m | m in members :: m.feedback == PositiveReaction || m.feedback == Implemented) ==>
                    decision == Keep)
              && ((forall m | m in members :: m.feedback == NegativeReaction) ==> decision == Discard)
  {
    var members := InCluster(suggestions, id);
    if members != [] {
      assert members[0] in members;
    }
  }

  /** More votes to keep than to discard keep, more to discard discard, and as many leave it open. */
  lemma MajorityDecides(members: seq<Clustered>, similar: Similarity, v: Vector, t: Thresholds)
    ensures var keep, discard := Count(members, Keeps(similar, v, t)), Count(members, Discards(similar, v, t));
            && (Vote(members, similar, v, t) == Keep <==> keep > discard)
            && (Vote(members, similar, v, t) == Discard <==> discard > keep)
            && (Vote(members, similar, v, t) == Uncertain <==> keep == discard)
  {
  }

  /** How one suggestion votes, by its feedback and its similarity: neutral feedback counts as dislike. */
  lemma VoteOf(c: Clustered, similar: Similarity, v: Vector, t: Thresholds)
    ensures Vote([c], similar, v, t)
         == match c.feedback
            case PositiveReaction => if similar(v, c.embedding) >= t.positive then Keep else Uncertain
            case Implemented => if similar(v, c.embedding) >= t.positive then Keep else Uncertain
            case NegativeReaction => if similar(v, c.embedding) >= t.negative then Discard else Uncertain
            case Neutral => if similar(v, c.embedding) >= t.negative then Discard else Uncertain
  {
    CountOne(c, Keeps(similar, v, t));
    CountOne(c, Discards(similar, v, t));
    hide Count;
  }

  lemma CountOne(c: Clustered, p: Clustered -> bool)
    ensures Count([c], p) == if p(c) then 1 else 0
  {
    assert [c][..0] == [];
  }

  // ----- Choosing the cluster

  /** The most similar centroid; of equals the first, as the sort is stable. */
  function MostSimilar(centroids: seq<Mean>, similar: Similarity, v: Vector): (i: nat)
    requires centroids != []
    ensures i < |centroids|
    ensures forall j | 0 <= j < |centroids| :: similar(v, centroids[j].vector) <= similar(v, centroids[i].vector)
    ensures forall j | 0 <= j < i :: similar(v, centroids[j].vector) < similar(v, centroids[i].vector)
  {
    if |centroids| == 1 then 0
    else
      var i := MostSimilar(centroids[..|centroids| - 1], similar, v);
      if similar(v, centroids[|centroids| - 1].vector) > similar(v, centroids[i].vector) then |centroids| - 1 else i
  }

  /** `compareSuggestionsWithClusters` */
  function Compare(suggestions: seq<Clustered>, centroids: seq<Mean>, similar: Similarity, v: Vector, t: Thresholds)
    : Decision
  {
    if centroids == [] then ClusterDecision(suggestions, 0, similar, v, t)
    else
      var best := centroids[MostSimilar(centroids, similar, v)];
      if similar(v, best.vector) < CLUSTER_THRESHOLD then Uncertain
      else ClusterDecision(suggestions, best.id, similar, v, t)
  }

  /** A suggestion is discarded exactly if the most similar centroid is similar enough and its cluster got
      nothing but negative reactions, or mixed feedback and more votes to discard than to keep. */
  lemma DiscardedIff(suggestions: seq<Clustered>, centroids: seq<Mean>, similar: Similarity, v: Vector,
                     t: Thresholds)
    requires centroids != []
    ensures var best := centroids[MostSimilar(centroids, similar, v)];
            var members := InCluster(suggestions, best.id);
            var negative := forall m | m in members :: m.feedback == NegativeReaction;
            var outvoted := Count(members, Discards(similar, v, t)) > Count(members, Keeps(similar, v, t));
            Compare(suggestions, centroids, similar, v, t) == Discard
            <==> (similar(v, best.vector) >= CLUSTER_THRESHOLD && members != []
                  && (exists m | m in members :: !IsPositive(m.feedback)) && (negative || outvoted))
  {
    hide MostSimilar, InCluster, Count;
    var members := InCluster(suggestions, centroids[MostSimilar(centroids, similar, v)].id);
    if members != [] {
      assert members[0] in members;
    }
  }

  // ----- The centroids of the clusters

  /** A suggestion's cluster number and embedding, all that the centroids depend on. */
  function Labels(suggestions: seq<Clustered>): (r: seq<Labelled>)
    ensures |r| == |suggestions|
    ensures forall i | 0 <= i < |r| :: r[i] == Labelled(suggestions[i].cluster, suggestions[i].embedding)
  {
    if suggestions == [] then []
    else
      var last := suggestions[|suggestions| - 1];
      Labels(suggestions[..|suggestions| - 1]) + [Labelled(last.cluster, last.embedding)]
  }

  /** The embeddings come from one model: they have the same length. */
  predicate Uniform(suggestions: seq<Clustered>, n: nat) {
    forall s | s in suggestions :: |s.embedding| == n
  }

  lemma UniformLabels(suggestions: seq<Clustered>, n: nat)
    requires Uniform(suggestions, n)
    ensures SameLength(Labels(suggestions), n)
  {
    forall l | l in Labels(suggestions) ensures |l.embedding| == n {
      var i :| 0 <= i < |suggestions| && Labels(suggestions)[i] == l;
      assert suggestions[i] in suggestions;
    }
  }

  /** `calculateClusterCentroids` */
  function Centroids(suggestions: seq<Clustered>, n: nat): seq<Mean>
    requires Uniform(suggestions, n)
  {
    UniformLabels(suggestions, n);
    CentroidsOf(Labels(suggestions), n)
  }

  /** The embeddings of suggestions. */
  function EmbeddingsIn(members: seq<Clustered>): seq<Vector> {
    if members == [] then []
    else EmbeddingsIn(members[..|members| - 1]) + [members[|members| - 1].embedding]
  }

  lemma {:induction false} ClusterLabels(suggestions: seq<Clustered>, id: nat)
    ensures Members(Labels(suggestions), id) == EmbeddingsIn(InCluster(suggestions, id))
  {
    if suggestions != [] {
      var init, last := suggestions[..|suggestions| - 1], suggestions[|suggestions| - 1];
      ClusterLabels(init, id);
      assert Labels(suggestions)[..|init|] == Labels(init);
      var before := InCluster(init, id);
      assert (before + [last])[..|before|] == before && before + [] == before;
    }
  }

  /** Each centroid is the mean of its cluster's members, of which there are some. */
  lemma CentroidIsMean(suggestions: seq<Clustered>, n: nat, k: nat)
    requires Uniform(suggestions, n) && k < |Centroids(suggestions, n)|
    ensures var c := Centroids(suggestions, n)[k];
            InCluster(suggestions, c.id) != [] && IsMean(c, EmbeddingsIn(InCluster(suggestions, c.id)), n)
  {
    UniformLabels(suggestions, n);
    var c := Centroids(suggestions, n)[k];
    ClusterMembers(Labels(suggestions), n, k);
    ClusterLabels(suggestions, c.id);
    hide GroupByCluster, InCluster, Labels, Members;
    MeanTimesSize(c, EmbeddingsIn(InCluster(suggestions, c.id)), n);
  }

  /** A cluster speaks against a suggestion: its mean is similar enough, and its members got nothing but
      negative reactions, or mixed feedback and more votes to discard than to keep. */
  predicate Against(mean: Mean, members: seq<Clustered>, similar: Similarity, v: Vector, t: Thresholds) {
    && similar(v, mean.vector) >= CLUSTER_THRESHOLD
    && (exists m | m in members :: !IsPositive(m.feedback))
    && ((forall m | m in members :: m.feedback == NegativeReaction)
        || Count(members, Discards(similar, v, t)) > Count(members, Keeps(similar, v, t)))
  }

  /** With the centroids that the code computes, a suggestion is discarded exactly if the cluster speaks
      against it whose members' mean is the most similar. */
  lemma DiscardedByMeans(suggestions: seq<Clustered>, n: nat, similar: Similarity, v: Vector, t: Thresholds)
    requires Uniform(suggestions, n) && suggestions != []
    ensures Centroids(suggestions, n) != []
    ensures var centroids := Centroids(suggestions, n);
            var best := centroids[MostSimilar(centroids, similar, v)];
            var members := InCluster(suggestions, best.id);
            && members != [] && IsMean(best, EmbeddingsIn(members), n)
            && (Compare(suggestions, centroids, similar, v, t) == Discard <==> Against(best, members, similar, v, t))
  {
    hide *;
    SomeCentroid(suggestions, n);
    var centroids := Centroids(suggestions, n);
    var best := MostSimilar(centroids, similar, v);
    CentroidIsMean(suggestions, n, best);
    DiscardedAgainst(suggestions, centroids, similar, v, t);
  }

  lemma DiscardedAgainst(suggestions: seq<Clustered>, centroids: seq<Mean>, similar: Similarity, v: Vector,
                         t: Thresholds)
    requires centroids != []
    ensures var best := centroids[MostSimilar(centroids, similar, v)];
            var members := InCluster(suggestions, best.id);
            members != [] ==>
              (Compare(suggestions, centroids, similar, v, t) == Discard <==> Against(best, members, similar, v, t))
  {
    hide Compare, Count, InCluster, MostSimilar;
    DiscardedIff(suggestions, centroids, similar, v, t);
  }

  lemma SomeCentroid(suggestions: seq<Clustered>, n: nat)
    requires Uniform(suggestions, n) && suggestions != []
    ensures Centroids(suggestions, n) != []
  {
    UniformLabels(suggestions, n);
    AllListed(Labels(suggestions));
    assert Labels(suggestions)[0] in Labels(suggestions);
  }

  /** `compareSuggestionsWithClusters` */
  method CompareSuggestionsWithClusters(suggestions: seq<Clustered>, n: nat, similar: Similarity, v: Vector,
                                        t: Thresholds, sort: seq<Clustered> -> seq<Clustered>)
    returns (decision: Decision)
    requires Uniform(suggestions, n) && forall s: seq<Clustered> :: multiset(sort(s)) == multiset(s)
    ensures decision == Compare(suggestions, Centroids(suggestions, n), similar, v, t)
  {
    UniformLabels(suggestions, n);
    hide ClusterDecision, CentroidsOf;
    var centroids := CalculateClusterCentroids(Labels(suggestions), n);
    var cluster := 0;
    if |centroids| > 0 {
      var best := centroids[MostSimilar(centroids, similar, v)];
      cluster := best.id;
      if similar(v, best.vector) < CLUSTER_THRESHOLD {
        return Uncertain;
      }
    }
    decision := AnalyzeClusterFeedback(suggestions, cluster, similar, v, t, sort);
  }

  // ----- The whole analysis

  /** What is around the analysis: the other clusters, by language, and how centroids come about. */
  datatype World = World(
    similar: Similarity,
    thresholds: Thresholds,
    analysis: string -> seq<Clustered>,
    centroids: seq<Clustered> -> seq<Mean>)

  function ClustersFor(w: World, main: seq<Clustered>, s: Suggestion): seq<Clustered>
    requires main != []
  {
    if Lower(s.language) == Lower(main[0].language) then main else w.analysis(Lower(s.language))
  }

  function DecisionFor(w: World, main: seq<Clustered>, s: Suggestion): Decision
    requires main != []
  {
    if s.ruleOrBreaking then Keep
    else
      var clustered := ClustersFor(w, main, s);
      if |clustered| < ENOUGH then Keep
      else Compare(clustered, w.centroids(clustered), w.similar, s.embedding, w.thresholds)
  }

  /** The suggestions that are discarded, or those that are not, in order. */
  function Chosen(w: World, main: seq<Clustered>, suggestions: seq<Suggestion>, discarded: bool): seq<Suggestion>
    requires main != []
  {
    if suggestions == [] then []
    else
      var s := suggestions[|suggestions| - 1];
      Chosen(w, main, suggestions[..|suggestions| - 1], discarded)
      + if (DecisionFor(w, main, s) == Discard) == discarded then [s] else []
  }

  lemma ChosenNone(w: World, main: seq<Clustered>)
    requires main != []
    ensures forall discarded :: Chosen(w, main, [], discarded) == []
  {
  }

  lemma ChosenNext(w: World, main: seq<Clustered>, suggestions: seq<Suggestion>, i: nat)
    requires main != [] && i < |suggestions|
    ensures forall discarded ::
              Chosen(w, main, suggestions[..i + 1], discarded)
              == Chosen(w, main, suggestions[..i], discarded)
                 + if (DecisionFor(w, main, suggestions[i]) == Discard) == discarded then [suggestions[i]] else []
  {
    hide DecisionFor;
    assert suggestions[..i + 1][..i] == suggestions[..i];
  }

  method AnalyzeWithClusterization(w: World, main: seq<Clustered>, suggestions: seq<Suggestion>)
    returns (kept: seq<Suggestion>, discarded: seq<Suggestion>)
    ensures main == [] ==> kept == suggestions && discarded == []
    ensures main != [] ==>
              kept == Chosen(w, main, suggestions, false) && discarded == Chosen(w, main, suggestions, true)
  {
    if |main| == 0 {
      return suggestions, [];
    }
    hide Compare, ClustersFor;
    var results: seq<Decision> := [];
    for i := 0 to |suggestions|
      invariant |results| == i && forall j | 0 <= j < i :: results[j] == DecisionFor(w, main, suggestions[j])
    {
      var s := suggestions[i];
      if s.ruleOrBreaking {
        results := results + [Keep];
        continue;
      }
      var clustered := ClustersFor(w, main, s);
      if |clustered| < ENOUGH {
        results := results + [Keep];
        continue;
      }
      results := results + [Compare(clustered, w.centroids(clustered), w.similar, s.embedding, w.thresholds)];
    }
    hide DecisionFor, Chosen;
    ChosenNone(w, main);
    kept, discarded := [], [];
    for i := 0 to |results|
      invariant kept == Chosen(w, main, suggestions[..i], false)
      invariant discarded == Chosen(w, main, suggestions[..i], true)
    {
      ChosenNext(w, main, suggestions, i);
      if results[i] == Keep || results[i] == Uncertain {
        kept := kept + [suggestions[i]];
      }
      if results[i] == Discard {
        discarded := discarded + [suggestions[i]];
      }
    }
    assert suggestions[..|suggestions|] == suggestions;
  }

  /** A suggestion is compared with the clusters of its own language, capital letters aside. */
  lemma OwnLanguage(w: World, main: seq<Clustered>, s: Suggestion)
    requires main != []
    ensures Lower(s.language) == Lower(main[0].language) ==> ClustersFor(w, main, s) == main
    ensures Lower(s.language) != Lower(main[0].language) ==> ClustersFor(w, main, s) == w.analysis(Lower(s.language))
  {
  }

  /** The two limits: fewer than fifty suggestions to compare with keep, and so does a most similar mean less
      similar than 0.6. */
  lemma LimitsKeep(w: World, main: seq<Clustered>, s: Suggestion)
    requires main != []
    ensures |ClustersFor(w, main, s)| < 50 ==> DecisionFor(w, main, s) == Keep
    ensures var centroids := w.centroids(ClustersFor(w, main, s));
            !s.ruleOrBreaking && |ClustersFor(w, main, s)| >= 50 && centroids != []
            && (forall c | c in centroids :: w.similar(s.embedding, c.vector) < 0.6)
            ==> DecisionFor(w, main, s) == Uncertain
    ensures var centroids := w.centroids(ClustersFor(w, main, s));
            !s.ruleOrBreaking && |ClustersFor(w, main, s)| >= 50 && centroids != []
            && (exists c | c in centroids :: w.similar(s.embedding, c.vector) >= 0.6)
            ==> DecisionFor(w, main, s) == ClusterDecision(
                  ClustersFor(w, main, s), centroids[MostSimilar(centroids, w.similar, s.embedding)].id,
                  w.similar, s.embedding, w.thresholds)
  {
    hide ClustersFor, ClusterDecision;
    var centroids := w.centroids(ClustersFor(w, main, s));
    if centroids != [] {
      var i := MostSimilar(centroids, w.similar, s.embedding);
      assert centroids[i] in centroids;
    }
  }

  /** The whole decision with the centroids that the code computes: a suggestion is discarded exactly if it
      is of neither exempt kind, has enough to be compared with, and the cluster of the most similar mean
      speaks against it. */
  lemma DecisionByMeans(w: World, main: seq<Clustered>, s: Suggestion, n: nat)
    requires main != [] && Uniform(ClustersFor(w, main, s), n)
    requires w.centroids(ClustersFor(w, main, s)) == Centroids(ClustersFor(w, main, s), n)
    ensures var clustered := ClustersFor(w, main, s);
            DecisionFor(w, main, s) == Discard
            <==> (&& !s.ruleOrBreaking && |clustered| >= ENOUGH
                  && Centroids(clustered, n) != []
                  && var best := Centroids(clustered, n)[MostSimilar(Centroids(clustered, n), w.similar, s.embedding)];
                     Against(best, InCluster(clustered, best.id), w.similar, s.embedding, w.thresholds))
  {
    hide ClustersFor, Centroids, Compare, MostSimilar, Against;
    var clustered := ClustersFor(w, main, s);
    if |clustered| >= ENOUGH {
      DiscardedByMeans(clustered, n, w.similar, s.embedding, w.thresholds);
    }
  }

  /** Kept and discarded suggestions partition the input; rule and breaking-change suggestions are kept. */
  lemma {:induction false} ChosenPartition(w: World, main: seq<Clustered>, suggestions: seq<Suggestion>)
    requires main != []
    ensures multiset(Chosen(w, main, suggestions, false)) + multiset(Chosen(w, main, suggestions, true))
         == multiset(suggestions)
    ensures forall s | s in Chosen(w, main, suggestions, true) ::
              !s.ruleOrBreaking && |ClustersFor(w, main, s)| >= ENOUGH && DecisionFor(w, main, s) == Discard
    ensures forall s | s in Chosen(w, main, suggestions, false) :: DecisionFor(w, main, s) != Discard
  {
    hide DecisionFor, ClustersFor;
    if suggestions != [] {
      var init, s := suggestions[..|suggestions| - 1], suggestions[|suggestions| - 1];
      assert suggestions == init + [s];
      ChosenPartition(w, main, init);
      DiscardIsCompared(w, main, s);
    }
  }

  lemma DiscardIsCompared(w: World, main: seq<Clustered>, s: Suggestion)
    requires main != []
    ensures DecisionFor(w, main, s) == Discard ==> !s.ruleOrBreaking && |ClustersFor(w, main, s)| >= ENOUGH
  {
    hide Compare, ClustersFor;
  }

  /** Order is kept: the kept and the discarded suggestions are subsequences of the input. */
  ghost predicate Subsequence(a: seq<Suggestion>, b: seq<Suggestion>) {
    if a == [] then true
    else if b == [] then false
    else if a[|a| - 1] == b[|b| - 1] && Subsequence(a[..|a| - 1], b[..|b| - 1]) then true
    else Subsequence(a, b[..|b| - 1])
  }

  lemma {:induction false} ChosenInOrder(w: World, main: seq<Clustered>, suggestions: seq<Suggestion>, discarded: bool)
    requires main != []
    ensures Subsequence(Chosen(w, main, suggestions, discarded), suggestions)
  {
    hide DecisionFor;
    if suggestions != [] {
      var init, s := suggestions[..|suggestions| - 1], suggestions[|suggestions| - 1];
      ChosenInOrder(w, main, init, discarded);
      var before := Chosen(w, main, init, discarded);
      assert (before + [s])[..|before|] == before && before + [] == before;
    }
  }
}
